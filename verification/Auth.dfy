/** The negotiation of auth.c between a client and a server, with the unix, hostname and address
    methods, over two channels that deliver in order and may be cut at any point. */
module Auth {
  import opened Common

  /** Everything ever sent into the channel, how much was read, and where it was cut: nothing past the
      cut is delivered, and a read there fails. */
  datatype Channel = Channel(sent: seq<string>, read: nat, cut: Option<nat>)

  predicate Ready(c: Channel) { c.read < |c.sent| && (c.cut.None? || c.read < c.cut.value) }

  predicate Broken(c: Channel) { c.cut.Some? && c.read >= c.cut.value }

  function Send(c: Channel, lines: seq<string>): Channel { c.(sent := c.sent + lines) }

  function Take(c: Channel): Channel { c.(read := c.read + 1) }

  /** What the other side has sent and this side has not read, delivered or not. */
  function Pending(c: Channel): seq<string>
    requires c.read <= |c.sent|
  {
    c.sent[c.read..]
  }

  /** Both sides of a method follow from its name. `Simple` methods need nothing from the client. */
  datatype Kind = Unix | Simple

  /** The client's methods in order, the server's, and what happens outside the protocol in the
      attempt with a given number: whether the client can write the challenge file, and whom the server
      takes the client for. */
  datatype Config = Config(methods: seq<string>, kind: string -> Kind, registered: set<string>,
                           meets: nat -> bool, verdict: nat -> Option<string>, path: nat -> string)

  predicate IsPrint(c: char) { ' ' <= c <= '~' }

  /** auth_sanitize. */
  function Sanitized(s: string): string
  {
    seq(|s|, i requires 0 <= i < |s| => if IsSpace(s[i]) || !IsPrint(s[i]) then '_' else s[i])
  }

  /** What becomes of a name: characters that print and are no space stay, every other one is an underscore. */
  predicate Cleaned(name: string, subject: string)
  {
    && |subject| == |name|
    && forall i :: 0 <= i < |name| ==>
         && ('!' <= name[i] <= '~' ==> subject[i] == name[i])
         && (!('!' <= name[i] <= '~') ==> subject[i] == '_')
  }

  lemma SanitizedIs(s: string)
    ensures Cleaned(s, Sanitized(s))
  {
  }

  lemma SanitizedTwice(s: string)
    ensures Sanitized(Sanitized(s)) == Sanitized(s)
  {
  }

  // ---------------------------------------------------------------------- the two programs

  datatype Client =
    | Proposing(i: nat)
    | Agreeing(i: nat)
    | Challenged(i: nat)
    | Answering(i: nat)
    | Confirming(i: nat)
    | Typing(i: nat)
    | Naming(i: nat, typed: string)
    | Ended(ok: bool, chosen: nat, ctype: string, csubject: string)

  datatype Server =
    | Listening(k: nat)
    | Accepting(k: nat, t: string)
    | Responding(k: nat, t: string)
    | Reporting(k: nat, t: string, u: string)
    | Finished(ok: bool, stype: string, ssubject: string)

  /** `lost` and `deaf`: the client's, the server's reads fail from now on. */
  datatype State = State(client: Client, lost: bool, server: Server, deaf: bool, up: Channel, down: Channel)

  const GIVEN_UP := Ended(false, 0, "", "")

  /** auth_assert, at a read that returned `line`. */
  function ClientReads(cfg: Config, c: Client, line: string): (Client, seq<string>)
    requires !c.Proposing? && !c.Ended?
  {
    match c
    case Agreeing(i) =>
      if line != "yes" then (Proposing(i + 1), [])
      else if i < |cfg.methods| && cfg.kind(cfg.methods[i]) == Unix then (Challenged(i), [])
      else (Answering(i), [])
    case Challenged(i) => if cfg.meets(i) then (Answering(i), ["yes"]) else (Proposing(i + 1), ["no"])
    case Answering(i) => if line == "yes" then (Confirming(i), []) else (Proposing(i + 1), [])
    case Confirming(i) => if line == "yes" then (Typing(i), []) else (Proposing(i + 1), [])
    case Typing(i) => (Naming(i, line), [])
    case Naming(i, typed) => (Ended(true, i, typed, Sanitized(line)), [])
  }

  /** The same at a read that failed: inside a method it only ends the method. */
  function ClientLoses(c: Client): Client
    requires !c.Proposing? && !c.Ended?
  {
    match c
    case Challenged(i) => Proposing(i + 1)
    case Answering(i) => Proposing(i + 1)
    case _ => GIVEN_UP
  }

  /** auth_accept, at a read that returned `line`. */
  function ServerReads(cfg: Config, s: Server, line: string): (Server, seq<string>)
    requires s.Listening? || s.Responding?
  {
    match s
    case Listening(k) => if line in cfg.registered then (Accepting(k, line), ["yes"]) else (Listening(k + 1), ["no"])
    case Responding(k, t) => if line == "yes" then Judged(cfg, k, t) else (Listening(k + 1), [])
  }

  function Judged(cfg: Config, k: nat, t: string): (Server, seq<string>)
  {
    match cfg.verdict(k)
    case Some(u) => (Reporting(k, t, Sanitized(u)), ["yes"])
    case None => (Listening(k + 1), ["no"])
  }

  /** What the server does without reading. */
  function ServerActs(cfg: Config, s: Server): (Server, seq<string>)
    requires s.Accepting? || s.Reporting?
  {
    match s
    case Accepting(k, t) => if cfg.kind(t) == Unix then (Responding(k, t), [cfg.path(k)]) else Judged(cfg, k, t)
    case Reporting(_, t, u) => (Finished(true, t, u), ["yes", t, u])
  }

  datatype Step = ClientStep | ServerStep | CutUp(n: nat) | CutDown(n: nat)

  predicate CutAllowed(c: Channel, n: nat) { c.read <= n && (c.cut.None? || n <= c.cut.value) }

  predicate Enabled(s: State, step: Step)
  {
    match step
    case ClientStep => s.client.Proposing? || (!s.client.Ended? && (Ready(s.down) || Broken(s.down)))
    case ServerStep => s.server.Accepting? || s.server.Reporting?
           || (!s.server.Finished? && (Ready(s.up) || Broken(s.up)))
    case CutUp(n) => CutAllowed(s.up, n)
    case CutDown(n) => CutAllowed(s.down, n)
  }

  function ClientNext(cfg: Config, s: State): State
    requires Enabled(s, ClientStep)
  {
    if s.client.Proposing? then
      if s.client.i >= |cfg.methods| then s.(client := GIVEN_UP)
      else s.(client := Agreeing(s.client.i), up := Send(s.up, [cfg.methods[s.client.i]]))
    else if Ready(s.down) then
      var (c, lines) := ClientReads(cfg, s.client, s.down.sent[s.down.read]);
      s.(client := c, down := Take(s.down), up := Send(s.up, lines))
    else s.(client := ClientLoses(s.client), lost := true)
  }

  function ServerNext(cfg: Config, s: State): State
    requires Enabled(s, ServerStep)
  {
    if s.server.Accepting? || s.server.Reporting? then
      var (t, lines) := ServerActs(cfg, s.server);
      s.(server := t, down := Send(s.down, lines))
    else if Ready(s.up) then
      var (t, lines) := ServerReads(cfg, s.server, s.up.sent[s.up.read]);
      s.(server := t, up := Take(s.up), down := Send(s.down, lines))
    else
      s.(deaf := true, server := if s.server.Responding? then Listening(s.server.k + 1) else Finished(false, "", ""))
  }

  function Next(cfg: Config, s: State, step: Step): State
    requires Enabled(s, step)
  {
    match step
    case ClientStep => ClientNext(cfg, s)
    case ServerStep => ServerNext(cfg, s)
    case CutUp(n) => s.(up := s.up.(cut := Some(n)))
    case CutDown(n) => s.(down := s.down.(cut := Some(n)))
  }

  function Start(): State
  {
    State(Proposing(0), false, Listening(0), false, Channel([], 0, None), Channel([], 0, None))
  }

  // ---------------------------------------------------------------------- what holds in every state

  /** The attempt with this number ends with both sides satisfied. */
  predicate Works(cfg: Config, i: nat)
    requires i < |cfg.methods|
  {
    && cfg.methods[i] in cfg.registered
    && (cfg.kind(cfg.methods[i]) == Unix ==> cfg.meets(i))
    && cfg.verdict(i).Some?
  }

  /** The server after it has sent what it sends without reading, and all that is then on the way. */
  function Settled(cfg: Config, s: Server): Server
  {
    match s
    case Accepting(k, t) =>
      if cfg.kind(t) == Unix then Responding(k, t)
      else if cfg.verdict(k).Some? then Finished(true, t, Sanitized(cfg.verdict(k).value)) else Listening(k + 1)
    case Reporting(_, t, u) => Finished(true, t, u)
    case _ => s
  }

  function Owed(cfg: Config, s: Server): seq<string>
  {
    match s
    case Accepting(k, t) =>
      if cfg.kind(t) == Unix then [cfg.path(k)]
      else if cfg.verdict(k).Some? then ["yes", "yes", t, Sanitized(cfg.verdict(k).value)] else ["no"]
    case Reporting(_, t, u) => ["yes", t, u]
    case _ => []
  }

  ghost predicate NoneBefore(cfg: Config, i: nat) { forall j: nat :: j < i && j < |cfg.methods| ==> !Works(cfg, j) }

  function Subject(cfg: Config, i: nat): string
    requires cfg.verdict(i).Some?
  {
    Sanitized(cfg.verdict(i).value)
  }

  /** The server is where it should be, or it cannot hear the client any more. */
  predicate At(deaf: bool, sv: Server, expected: Server, qs: seq<string>,
      unread: seq<string>) { deaf || (sv == expected && qs == unread) }

  /** What answers a claim in attempt `i`. */
  predicate Verdict(cfg: Config, i: nat, qs: seq<string>, qc: seq<string>, sv: Server, deaf: bool)
    requires i < |cfg.methods|
  {
    match cfg.verdict(i)
    case None => qc == ["no"] && At(deaf, sv, Listening(i + 1), qs, [])
    case Some(u) =>
      && (cfg.kind(cfg.methods[i]) == Unix ==> cfg.meets(i))
      && qc == ["yes", "yes", cfg.methods[i], Sanitized(u)] && sv == Finished(true, cfg.methods[i], Sanitized(u))
  }

  /** The server still has to hear that the client declined, in attempt `i - 1`. */
  predicate Declined(cfg: Config, i: nat, sv: Server) { 0 < i <= |cfg.methods| && sv == Responding(i - 1,
      cfg.methods[i - 1]) }

  /** The client's proposal for attempt `i` has not been answered. */
  predicate Unanswered(cfg: Config, i: nat, qs: seq<string>, sv: Server, deaf: bool)
    requires i < |cfg.methods|
  {
    At(deaf, sv, Listening(i), qs, [cfg.methods[i]]) || (qs == ["no", cfg.methods[i]] && Declined(cfg, i, sv))
  }

  /** The rest of the answer after the server agreed to try. */
  predicate Tried(cfg: Config, i: nat, qs: seq<string>, qc: seq<string>, sv: Server, deaf: bool)
    requires i < |cfg.methods|
  {
    if cfg.kind(cfg.methods[i]) == Unix then |qc| == 1 && At(deaf, sv, Responding(i, cfg.methods[i]), qs, [])
    else Verdict(cfg, i, qs, qc, sv, deaf)
  }

  predicate Final(cfg: Config, i: nat, qc: seq<string>, left: nat, sv: Server)
  {
    && i < |cfg.methods| && Works(cfg, i) && left <= 3
    && qc == ["yes", cfg.methods[i], Subject(cfg, i)][3 - left..]
    && sv == Finished(true, cfg.methods[i], Subject(cfg, i))
  }

  /** How the two sides stand to each other while the client's reads work: `qs` and `qc` are on the way
      to the server and to the client. */
  ghost predicate InStep(cfg: Config, c: Client, qs: seq<string>, qc: seq<string>, sv: Server, deaf: bool)
  {
    match c
    case Proposing(i) =>
      && i <= |cfg.methods| && NoneBefore(cfg, i) && qc == []
      && (At(deaf, sv, Listening(i), qs, []) || (qs == ["no"] && Declined(cfg, i, sv)))
    case Agreeing(i) =>
      && i < |cfg.methods| && NoneBefore(cfg, i)
      && ((qc == [] && Unanswered(cfg, i, qs, sv, deaf))
          || (cfg.methods[i] !in cfg.registered && qc == ["no"] && At(deaf, sv, Listening(i + 1), qs, []))
          || (cfg.methods[i] in cfg.registered && qc != [] && qc[0] == "yes" && Tried(cfg, i, qs, qc[1..], sv, deaf)))
    case Challenged(i) =>
      && i < |cfg.methods| && NoneBefore(cfg, i) && cfg.methods[i] in cfg.registered && cfg.kind(cfg.methods[i]) == Unix
      && |qc| == 1 && At(deaf, sv, Responding(i, cfg.methods[i]), qs, [])
    case Answering(i) =>
      && i < |cfg.methods| && NoneBefore(cfg, i) && cfg.methods[i] in cfg.registered
           && (cfg.kind(cfg.methods[i]) == Unix ==> cfg.meets(i))
      && (Verdict(cfg, i, qs, qc, sv, deaf)
          || (cfg.kind(cfg.methods[i]) == Unix && qc == [] && At(deaf, sv, Responding(i, cfg.methods[i]), qs, ["yes"])))
    case Confirming(i) => NoneBefore(cfg, i) && Final(cfg, i, qc, 3, sv)
    case Typing(i) => NoneBefore(cfg, i) && Final(cfg, i, qc, 2, sv)
    case Naming(i, typed) => NoneBefore(cfg, i) && Final(cfg, i, qc, 1, sv) && typed == cfg.methods[i]
    case Ended(ok, i, t, u) =>
      if ok then NoneBefore(cfg, i) && Final(cfg, i, qc, 0, sv) && t == cfg.methods[i] && u == Subject(cfg, i)
      else NoneBefore(cfg, |cfg.methods|)
  }

  lemma NoneBeforeNext(cfg: Config, i: nat)
    requires NoneBefore(cfg, i) && i < |cfg.methods| && !Works(cfg, i)
    ensures NoneBefore(cfg, i + 1)
  {
  }

  lemma ClientProposes(cfg: Config, c: Client, qs: seq<string>, qc: seq<string>, sv: Server, deaf: bool)
    requires c.Proposing? && InStep(cfg, c, qs, qc, sv, deaf)
    ensures c.i < |cfg.methods| ==> InStep(cfg, Agreeing(c.i), qs + [cfg.methods[c.i]], qc, sv, deaf)
    ensures c.i >= |cfg.methods| ==> InStep(cfg, GIVEN_UP, qs, qc, sv, deaf)
  {
  }

  lemma ClientHears(cfg: Config, c: Client, qs: seq<string>, qc: seq<string>, sv: Server, deaf: bool)
    requires !c.Proposing? && !c.Ended? && InStep(cfg, c, qs, qc, sv, deaf) && qc != []
    ensures var (c', lines) := ClientReads(cfg, c, qc[0]); InStep(cfg, c', qs + lines, qc[1..], sv, deaf)
  {
    var (c', lines) := ClientReads(cfg, c, qc[0]);
    if c'.Proposing? { NoneBeforeNext(cfg, c.i); }
    if c.Naming? { SanitizedTwice(cfg.verdict(c.i).value); }
  }

  lemma ServerHears(cfg: Config, c: Client, qs: seq<string>, qc: seq<string>, sv: Server)
    requires (sv.Listening? || sv.Responding?) && InStep(cfg, c, qs, qc, sv, false) && qs != []
    ensures var (t, lines) := ServerReads(cfg, sv, qs[0]);
            InStep(cfg, c, qs[1..], qc + lines + Owed(cfg, t), Settled(cfg, t), false)
  {
  }

  lemma ServerDeaf(cfg: Config, c: Client, qs: seq<string>, qc: seq<string>, sv: Server, after: Server)
    requires (sv.Listening? || sv.Responding?) && InStep(cfg, c, qs, qc, sv, false)
    ensures InStep(cfg, c, qs, qc, after, true)
  {
  }

  lemma ServerSettles(cfg: Config, s: Server)
    requires s.Accepting? || s.Reporting?
    ensures var (t, lines) := ServerActs(cfg, s);
            Settled(cfg, t) == Settled(cfg, s) && lines + Owed(cfg, t) == Owed(cfg, s)
  {
  }

  ghost predicate Inv(cfg: Config, s: State)
  {
    && s.up.read <= |s.up.sent| && s.down.read <= |s.down.sent|
    && (s.deaf ==> Broken(s.up) && (s.server.Listening? || s.server == Finished(false, "", "")))
    && (s.lost ==> Broken(s.down) && (s.client.Proposing? || s.client.Agreeing? || s.client == GIVEN_UP))
    && (!s.lost ==> InStep(cfg, s.client, Pending(s.up), Pending(s.down) + Owed(cfg, s.server),
         Settled(cfg, s.server), s.deaf))
  }

  lemma ClientKeeps(cfg: Config, s: State)
    requires Inv(cfg, s) && Enabled(s, ClientStep)
    ensures Inv(cfg, ClientNext(cfg, s))
  {
    var t := ClientNext(cfg, s);
    if !s.lost {
      var qs, qc, sv := Pending(s.up), Pending(s.down) + Owed(cfg, s.server), Settled(cfg, s.server);
      if s.client.Proposing? {
        ClientProposes(cfg, s.client, qs, qc, sv, s.deaf);
        if s.client.i < |cfg.methods| { PendingSent(s.up, [cfg.methods[s.client.i]]); }
      } else if Ready(s.down) {
        ClientHears(cfg, s.client, qs, qc, sv, s.deaf);
        PendingTaken(s.down, Owed(cfg, s.server));
        PendingSent(s.up, ClientReads(cfg, s.client, s.down.sent[s.down.read]).1);
      }
    }
  }

  lemma PendingSent(c: Channel, lines: seq<string>)
    requires c.read <= |c.sent|
    ensures Pending(Send(c, lines)) == Pending(c) + lines
  {
  }

  lemma PendingTaken(c: Channel, owed: seq<string>)
    requires c.read < |c.sent|
    ensures Pending(c) != [] && Pending(c)[0] == c.sent[c.read] && Pending(Take(c)) == Pending(c)[1..]
    ensures (Pending(c) + owed)[0] == c.sent[c.read] && Pending(Take(c)) + owed == (Pending(c) + owed)[1..]
  {
  }

  lemma ServerKeeps(cfg: Config, s: State)
    requires Inv(cfg, s) && Enabled(s, ServerStep)
    ensures Inv(cfg, ServerNext(cfg, s))
  {
    var qs, qc, sv := Pending(s.up), Pending(s.down) + Owed(cfg, s.server), Settled(cfg, s.server);
    if s.server.Accepting? || s.server.Reporting? {
      var (t, lines) := ServerActs(cfg, s.server);
      ServerSettles(cfg, s.server);
      PendingSent(s.down, lines);
      Regroup(Pending(s.down), lines, Owed(cfg, t));
    } else if Ready(s.up) {
      var (t, lines) := ServerReads(cfg, s.server, s.up.sent[s.up.read]);
      PendingTaken(s.up, []);
      PendingSent(s.down, lines);
      assert qc == Pending(s.down);
      if !s.lost { ServerHears(cfg, s.client, qs, qc, sv); }
    } else {
      assert qc == Pending(s.down);
      if !s.lost && !s.deaf { ServerDeaf(cfg, s.client, qs, qc, sv, ServerNext(cfg, s).server); }
    }
  }

  lemma NextKeeps(cfg: Config, s: State, step: Step)
    requires Inv(cfg, s) && Enabled(s, step)
    ensures Inv(cfg, Next(cfg, s, step))
  {
    match step
    case ClientStep => ClientKeeps(cfg, s);
    case ServerStep => ServerKeeps(cfg, s);
    case CutUp(n) =>
    case CutDown(n) =>
  }

  ghost predicate Runs(cfg: Config, s: State, steps: seq<Step>, t: State)
    decreases |steps|
  {
    if steps == [] then s == t else Enabled(s, steps[0]) && Runs(cfg, Next(cfg, s, steps[0]), steps[1..], t)
  }

  lemma {:induction false} RunKeeps(cfg: Config, s: State, steps: seq<Step>, t: State)
    requires Inv(cfg, s) && Runs(cfg, s, steps, t)
    ensures Inv(cfg, t)
    decreases |steps|
  {
    if steps == [] {
    } else {
      NextKeeps(cfg, s, steps[0]);
      RunKeeps(cfg, Next(cfg, s, steps[0]), steps[1..], t);
    }
  }

  lemma StartInStep(cfg: Config)
    ensures Inv(cfg, Start())
  {
  }

  // ---------------------------------------------------------------------- results

  /** If the client succeeds, in any interleaving and with any cuts, then the server has succeeded with
      the same type and subject, the method is the first one in the client's order that works, and the subject is
      the server's verdict with every character that is a space or does not print replaced. */
  lemma ClientSuccess(cfg: Config, steps: seq<Step>, s: State)
    requires Runs(cfg, Start(), steps, s) && s.client.Ended? && s.client.ok
    ensures s.server == Finished(true, s.client.ctype, s.client.csubject)
    ensures var i := s.client.chosen;
            && i < |cfg.methods| && s.client.ctype == cfg.methods[i] && cfg.methods[i] in cfg.registered
            && (cfg.kind(cfg.methods[i]) == Unix ==> cfg.meets(i))
            && cfg.verdict(i).Some? && Cleaned(cfg.verdict(i).value, s.client.csubject)
            && ((forall k :: 0 <= k < |cfg.verdict(i).value| ==> '!' <= cfg.verdict(i).value[k] <= '~') ==>
                 s.client.csubject == cfg.verdict(i).value)
            && forall j: nat :: j < i ==> !Works(cfg, j)
  {
    StartInStep(cfg);
    RunKeeps(cfg, Start(), steps, s);
    assert Owed(cfg, s.server) == [];
    SanitizedIs(cfg.verdict(s.client.chosen).value);
  }

  /** Whenever the client is about to propose a method and its messages have been read, both sides are
      at the start of the same attempt and nothing is on the way. */
  lemma SamePoint(cfg: Config, steps: seq<Step>, s: State)
    requires Runs(cfg, Start(), steps, s) && s.client.Proposing? && !s.lost && !s.deaf
    ensures s.down.read == |s.down.sent|
    ensures s.up.read == |s.up.sent| ==> s.server == Listening(s.client.i)
  {
    StartInStep(cfg);
    RunKeeps(cfg, Start(), steps, s);
    assert Pending(s.down) == [] && Owed(cfg, s.server) == [];
  }

  /** Without a failed read the client gives up only if no method works. */
  lemma ClientGivesUp(cfg: Config, steps: seq<Step>, s: State)
    requires Runs(cfg, Start(), steps, s) && s.client == GIVEN_UP && !s.lost
    ensures forall j: nat :: j < |cfg.methods| ==> !Works(cfg, j)
  {
    StartInStep(cfg);
    RunKeeps(cfg, Start(), steps, s);
  }

  /** A client whose reads fail proposes at most one more method, and then gives up. */
  lemma LossEnds(cfg: Config, s: State)
    requires Inv(cfg, s) && s.lost && !s.client.Ended?
    ensures Enabled(s, ClientStep)
    ensures var t := ClientNext(cfg, s);
            && |t.up.sent| <= |s.up.sent| + 1
            && (t.client == GIVEN_UP ||
                 (Enabled(t, ClientStep) && ClientNext(cfg, t).client == GIVEN_UP && ClientNext(cfg, t).up == t.up))
  {
    ClientKeeps(cfg, s);
  }

  /** As long as nothing is cut, the two sides never wait for each other. */
  lemma NoStandstill(cfg: Config, steps: seq<Step>, s: State)
    requires Runs(cfg, Start(), steps, s) && s.up.cut.None? && s.down.cut.None? && !s.client.Ended?
    ensures Enabled(s, ClientStep) || Enabled(s, ServerStep)
  {
    StartInStep(cfg);
    RunKeeps(cfg, Start(), steps, s);
    if Pending(s.down) == [] && Owed(cfg, s.server) == [] {
      assert Pending(s.down) + Owed(cfg, s.server) == [];
    }
  }
}
