/** The text form of tickets in chirp_ticket.c. A string stands for the characters in front of its
    terminating zero. */
module Ticket {
  import opened Common

  /** A right whose second string could not be read keeps an unset `acl`. */
  datatype Right = Right(directory: string, acl: Option<string>)

  datatype Ticket = Ticket(subject: Option<string>, ticket: Option<string>, expiration: int, expired: bool,
      rights: seq<Right>)

  const QUOTE: char := '\"'

  // ---------------------------------------------------------------------- numbers

  const ULONG_LIMIT := 0x1_0000_0000_0000_0000

  function Digit(n: nat): char
    requires n < 10
  {
    '0' + n as char
  }

  function Digits(n: nat): string
  {
    if n < 10 then [Digit(n)] else Digits(n / 10) + [Digit(n % 10)]
  }

  predicate IsDigit(c: char) { '0' <= c <= '9' }

  function DigitValue(c: char): nat
    requires IsDigit(c)
  {
    (c - '0') as nat
  }

  /** The number that the digits at the start of `s` continue. */
  function Number(s: string, sofar: nat): nat
  {
    if s == "" || !IsDigit(s[0]) then sofar else Number(s[1..], 10 * sofar + DigitValue(s[0]))
  }

  /** strtoul in base ten on a system with 64-bit longs. */
  function StrToUl(s: string): nat
  {
    var t := SkipSpace(s);
    var negative := t != "" && t[0] == '-';
    Wrapped(Number(if t != "" && (t[0] == '-' || t[0] == '+') then t[1..] else t, 0), negative)
  }

  function Wrapped(n: nat, negative: bool): nat
  {
    if n >= ULONG_LIMIT then ULONG_LIMIT - 1 else if negative then (ULONG_LIMIT - n) % ULONG_LIMIT else n
  }

  function ToTime(u: nat): int { if u >= ULONG_LIMIT / 2 then u - ULONG_LIMIT else u }

  function FromTime(t: int): nat
    requires -(ULONG_LIMIT / 2) <= t < ULONG_LIMIT / 2
  {
    if t < 0 then t + ULONG_LIMIT else t
  }

  lemma NumberOfDigits(n: nat, rest: string)
    requires rest == "" || !IsDigit(rest[0])
    ensures Digits(n) != "" && (forall i :: 0 <= i < |Digits(n)| ==> IsDigit(Digits(n)[i]))
    ensures Number(Digits(n) + rest, 0) == n
  {
    NumberAppend(n, rest);
  }

  /** Reading the digits of `n` and going on is going on from `n`. */
  lemma {:induction false} NumberAppend(n: nat, rest: string)
    ensures Digits(n) != "" && (forall i :: 0 <= i < |Digits(n)| ==> IsDigit(Digits(n)[i]))
    ensures Number(Digits(n) + rest, 0) == Number(rest, n)
  {
    if n < 10 {
      assert (Digits(n) + rest)[1..] == rest;
    } else {
      var last := [Digit(n % 10)];
      NumberAppend(n / 10, last + rest);
      assert Digits(n) + rest == Digits(n / 10) + (last + rest);
      assert (last + rest)[1..] == rest;
    }
  }

  /** The value of a decimal numeral. */
  function Value(s: string): nat
    requires forall i :: 0 <= i < |s| ==> IsDigit(s[i])
  {
    if s == "" then 0 else assert IsDigit(s[|s| - 1]); Value(s[..|s| - 1]) * 10 + (s[|s| - 1] - '0') as nat
  }

  lemma {:induction false} NumberIsValue(s: string, rest: string)
    requires forall i :: 0 <= i < |s| ==> IsDigit(s[i])
    ensures Number(s + rest, 0) == Number(rest, Value(s))
    decreases |s|
  {
    if s == "" {
      assert s + rest == rest;
    } else {
      var init, last := s[..|s| - 1], s[|s| - 1];
      NumberIsValue(init, [last] + rest);
      assert s + rest == init + ([last] + rest) && ([last] + rest)[1..] == rest;
    }
  }

  /** strtoul passes over white space and a sign, stops behind the digits, takes a negative number modulo two to the
      power of 64, and cuts off what is too large. */
  lemma StrToUlIs(lead: string, sign: string, digits: string, rest: string)
    requires AllSpace(lead) && (sign == "" || sign == "+" || sign == "-")
    requires forall i :: 0 <= i < |digits| ==> IsDigit(digits[i])
    requires digits != "" && (rest == "" || !IsDigit(rest[0]))
    ensures var n, r := Value(digits), StrToUl(lead + (sign + (digits + rest)));
            if n >= 0x1_0000_0000_0000_0000 then r == 0xffff_ffff_ffff_ffff
            else if sign == "-" && n > 0 then r == 0x1_0000_0000_0000_0000 - n
            else r == n
  {
    var t := sign + (digits + rest);
    SkipLead(lead, t);
    SignIsCut(sign, digits, rest);
    NumberStops(digits, rest);
    Wraps(Value(digits));
    assert StrToUl(lead + t) == Wrapped(Value(digits), sign == "-");
  }

  lemma NumberStops(digits: string, rest: string)
    requires forall i :: 0 <= i < |digits| ==> IsDigit(digits[i])
    requires rest == "" || !IsDigit(rest[0])
    ensures Number(digits + rest, 0) == Value(digits)
  {
    NumberIsValue(digits, rest);
  }

  lemma Wraps(n: nat)
    ensures n < ULONG_LIMIT ==> Wrapped(n, true) == (if n == 0 then 0 else ULONG_LIMIT - n) && Wrapped(n, false) == n
    ensures n >= ULONG_LIMIT ==> Wrapped(n, true) == Wrapped(n, false) == ULONG_LIMIT - 1
  {
  }

  lemma SignIsCut(sign: string, digits: string, rest: string)
    requires (sign == "" || sign == "+" || sign == "-") && digits != "" && IsDigit(digits[0])
    ensures var t := sign + (digits + rest);
            && t != "" && SkipSpace(t) == t && (t[0] == '-' <==> sign == "-") && (t[0] == '+' <==> sign == "+")
            && (if t[0] == '-' || t[0] == '+' then t[1..] else t) == digits + rest
  {
    var t := sign + (digits + rest);
    if sign == "" { assert t == digits + rest; } else { assert t[0] == sign[0] && t[1..] == digits + rest; }
  }

  lemma TimeRoundTrip(t: int)
    requires -(ULONG_LIMIT / 2) <= t < ULONG_LIMIT / 2
    ensures StrToUl(Digits(FromTime(t))) == FromTime(t) && ToTime(FromTime(t)) == t
  {
    var d := Digits(FromTime(t));
    NumberOfDigits(FromTime(t), "");
    assert d + "" == d;
    assert SkipSpace(d) == d;
  }

  // ---------------------------------------------------------------------- the reader's specification

  function SkipSpace(s: string): string
  {
    if s != "" && IsSpace(s[0]) then SkipSpace(s[1..]) else s
  }

  /** The number of characters in front of the first quote. */
  function Unquoted(s: string): (n: nat)
    ensures n <= |s|
  {
    if s == "" || s[0] == QUOTE then 0 else 1 + Unquoted(s[1..])
  }

  datatype Quoted = NotQuoted | Quoted(text: string, rest: string)

  /** A quoted string and what follows it. */
  function ReadQuoted(s: string): (q: Quoted)
    ensures q.Quoted? ==> |q.rest| < |s|
  {
    var t := SkipSpace(s);
    SkipShortens(s);
    if t == "" || t[0] != QUOTE then NotQuoted else
    var n := Unquoted(t[1..]);
    if n == |t| - 1 then NotQuoted else Quoted(t[1..n + 1], t[n + 2..])
  }

  lemma {:induction false} SkipShortens(s: string)
    ensures |SkipSpace(s)| <= |s|
  {
    if s == "" || !IsSpace(s[0]) {
    } else {
      SkipShortens(s[1..]);
    }
  }

  predicate Starts(s: string, word: string) { |word| <= |s| && s[..|word|] == word }

  /** The reading loop on the text `s` that is left. */
  function Parse(s: string, now: int, ct: Ticket): (bool, Ticket)
    decreases |s|
  {
    var t := SkipSpace(s);
    SkipShortens(s);
    if Starts(t, "subject") then
      match ReadQuoted(t[7..])
      case NotQuoted => (false, ct)
      case Quoted(text, rest) => Parse(rest, now, ct.(subject := Some(text)))
    else if Starts(t, "ticket") then
      match ReadQuoted(t[6..])
      case NotQuoted => (false, ct)
      case Quoted(text, rest) => Parse(rest, now, ct.(ticket := Some(text)))
    else if Starts(t, "expiration") then
      match ReadQuoted(t[10..])
      case NotQuoted => (false, ct)
      case Quoted(text, rest) =>
        var time := ToTime(StrToUl(text));
        Parse(rest, now, ct.(expiration := time, expired := time <= now))
    else if Starts(t, "rights") then
      match ReadQuoted(t[6..])
      case NotQuoted => (false, ct)
      case Quoted(directory, rest) =>
        match ReadQuoted(rest)
        case NotQuoted => (false, ct.(rights := ct.rights + [Right(directory, None)]))
        case Quoted(acl, rest') => Parse(rest', now, ct.(rights := ct.rights + [Right(directory, Some(acl))]))
    else (t == "" && ct.subject.Some? && ct.ticket.Some? && ct.rights != [], ct)
  }

  function Blank(now: int): Ticket { Ticket(None, None, now, true, []) }

  function Defaulted(ct: Ticket): Ticket { if ct.rights == [] then ct.(rights := [Right("/", Some("n"))]) else ct }

  // ---------------------------------------------------------------------- what a text spells

  /** One field as it is written, with the white space in front of it and of its strings. */
  datatype Item =
    | SubjectItem(lead: string, gap: string, text: string)
    | TicketItem(lead: string, gap: string, text: string)
    | ExpirationItem(lead: string, gap: string, text: string)
    | RightsItem(lead: string, gap: string, directory: string, gap2: string, acl: string)

  predicate AllSpace(s: string) { forall i :: 0 <= i < |s| ==> IsSpace(s[i]) }

  predicate WellWritten(it: Item)
  {
    && AllSpace(it.lead) && AllSpace(it.gap)
    && if it.RightsItem? then QUOTE !in it.directory && AllSpace(it.gap2) && QUOTE !in it.acl else QUOTE !in it.text
  }

  function SpellQuoted(gap: string, text: string, rest: string): string { gap + ([QUOTE] + (text + ([QUOTE] + rest))) }

  function SpellItem(it: Item, rest: string): string
  {
    match it
    case SubjectItem(lead, gap, text) => lead + ("subject" + SpellQuoted(gap, text, rest))
    case TicketItem(lead, gap, text) => lead + ("ticket" + SpellQuoted(gap, text, rest))
    case ExpirationItem(lead, gap, text) => lead + ("expiration" + SpellQuoted(gap, text, rest))
    case RightsItem(lead, gap, directory, gap2, acl) =>
      lead + ("rights" + SpellQuoted(gap, directory, SpellQuoted(gap2, acl, rest)))
  }

  function Spell(items: seq<Item>, tail: string): string
  {
    if items == [] then tail else SpellItem(items[0], Spell(items[1..], tail))
  }

  /** The text consists of these fields, one after the other, and white space. */
  predicate Spells(s: string, items: seq<Item>, tail: string)
  {
    && s == Spell(items, tail) && AllSpace(tail) && forall i :: 0 <= i < |items| ==> WellWritten(items[i])
  }

  /** What one field says. */
  function Said(ct: Ticket, it: Item, now: int): Ticket
  {
    match it
    case SubjectItem(_, _, text) => ct.(subject := Some(text))
    case TicketItem(_, _, text) => ct.(ticket := Some(text))
    case ExpirationItem(_, _, text) =>
      ct.(expiration := ToTime(StrToUl(text)), expired := ToTime(StrToUl(text)) <= now)
    case RightsItem(_, _, directory, _, acl) => ct.(rights := ct.rights + [Right(directory, Some(acl))])
  }

  /** And all of them: later fields overrule earlier ones, and rights add up. */
  function Says(ct: Ticket, items: seq<Item>, now: int): Ticket
    decreases |items|
  {
    if items == [] then ct else Says(Said(ct, items[0], now), items[1..], now)
  }

  predicate Complete(ct: Ticket) { ct.subject.Some? && ct.ticket.Some? && ct.rights != [] }

  lemma {:induction false} SkipLead(lead: string, s: string)
    requires AllSpace(lead)
    ensures SkipSpace(lead + s) == SkipSpace(s)
  {
    if lead == "" {
      assert lead + s == s;
    } else {
      assert (lead + s)[1..] == lead[1..] + s && IsSpace((lead + s)[0]);
      SkipLead(lead[1..], s);
    }
  }

  lemma {:induction false} SkipSplits(s: string) returns (lead: string)
    ensures AllSpace(lead) && s == lead + SkipSpace(s) && (SkipSpace(s) != "" ==> !IsSpace(SkipSpace(s)[0]))
  {
    if s == "" || !IsSpace(s[0]) {
      lead := "";
    } else {
      var more := SkipSplits(s[1..]);
      lead := [s[0]] + more;
      assert s == [s[0]] + s[1..];
    }
  }

  lemma {:induction false} UnquotedStops(s: string, rest: string)
    requires Printable(s)
    ensures Unquoted(s + ([QUOTE] + rest)) == |s|
  {
    var all := s + ([QUOTE] + rest);
    if s == "" {
    } else {
      assert all[1..] == s[1..] + ([QUOTE] + rest);
      UnquotedStops(s[1..], rest);
    }
  }

  lemma {:induction false} UnquotedIs(s: string)
    ensures QUOTE !in s[..Unquoted(s)] && (Unquoted(s) < |s| ==> s[Unquoted(s)] == QUOTE)
  {
    if s == "" || s[0] == QUOTE {
    } else {
      UnquotedIs(s[1..]);
      assert s[..Unquoted(s)] == [s[0]] + s[1..][..Unquoted(s[1..])];
    }
  }

  /** Every quoted string is read. */
  lemma QuotedIsRead(gap: string, text: string, rest: string)
    requires AllSpace(gap) && QUOTE !in text
    ensures ReadQuoted(SpellQuoted(gap, text, rest)) == Quoted(text, rest)
  {
    var t := [QUOTE] + (text + ([QUOTE] + rest));
    SkipLead(gap, t);
    assert SkipSpace(t) == t;
    assert t[1..] == text + ([QUOTE] + rest);
    UnquotedStops(text, rest);
    assert t[1..|text| + 1] == text && t[|text| + 2..] == rest;
  }

  /** And nothing else is. */
  lemma ReadIsQuoted(s: string) returns (gap: string)
    requires ReadQuoted(s).Quoted?
    ensures AllSpace(gap) && QUOTE !in ReadQuoted(s).text
    ensures s == SpellQuoted(gap, ReadQuoted(s).text, ReadQuoted(s).rest)
  {
    gap := SkipSplits(s);
    var t := SkipSpace(s);
    UnquotedIs(t[1..]);
    CutQuoted(t, Unquoted(t[1..]));
  }

  lemma CutQuoted(t: string, n: nat)
    requires n + 1 < |t| && t[0] == QUOTE && t[1..][n] == QUOTE
    ensures t == [QUOTE] + (t[1..n + 1] + ([QUOTE] + t[n + 2..])) && t[1..][..n] == t[1..n + 1]
  {
  }

  /** A field that is well written is read as what it says. */
  lemma ItemIsRead(it: Item, rest: string, now: int, ct: Ticket)
    requires WellWritten(it)
    ensures Parse(SpellItem(it, rest), now, ct) == Parse(rest, now, Said(ct, it, now))
  {
    match it
    case SubjectItem(lead, gap, text) => SubjectIsRead(lead, gap, text, rest, now, ct);
    case TicketItem(lead, gap, text) => TicketIsRead(lead, gap, text, rest, now, ct);
    case ExpirationItem(lead, gap, text) => ExpirationIsRead(lead, gap, text, rest, now, ct);
    case RightsItem(lead, gap, directory, gap2, acl) => RightsAreRead(lead, gap, directory, gap2, acl, rest, now, ct);
  }

  lemma SubjectIsRead(lead: string, gap: string, text: string, rest: string, now: int, ct: Ticket)
    requires WellWritten(SubjectItem(lead, gap, text))
    ensures var it := SubjectItem(lead, gap, text);
            Parse(SpellItem(it, rest), now, ct) == Parse(rest, now, Said(ct, it, now))
  {
    LineIsFound(lead, "subject", SpellQuoted(gap, text, rest));
    QuotedIsRead(gap, text, rest);
  }

  lemma TicketIsRead(lead: string, gap: string, text: string, rest: string, now: int, ct: Ticket)
    requires WellWritten(TicketItem(lead, gap, text))
    ensures var it := TicketItem(lead, gap, text);
            Parse(SpellItem(it, rest), now, ct) == Parse(rest, now, Said(ct, it, now))
  {
    LineIsFound(lead, "ticket", SpellQuoted(gap, text, rest));
    QuotedIsRead(gap, text, rest);
  }

  lemma ExpirationIsRead(lead: string, gap: string, text: string, rest: string, now: int, ct: Ticket)
    requires WellWritten(ExpirationItem(lead, gap, text))
    ensures var it := ExpirationItem(lead, gap, text);
            Parse(SpellItem(it, rest), now, ct) == Parse(rest, now, Said(ct, it, now))
  {
    LineIsFound(lead, "expiration", SpellQuoted(gap, text, rest));
    QuotedIsRead(gap, text, rest);
  }

  lemma RightsAreRead(lead: string, gap: string, directory: string, gap2: string, acl: string, rest: string, now: int,
      ct: Ticket)
    requires WellWritten(RightsItem(lead, gap, directory, gap2, acl))
    ensures var it := RightsItem(lead, gap, directory, gap2, acl);
            Parse(SpellItem(it, rest), now, ct) == Parse(rest, now, Said(ct, it, now))
  {
    LineIsFound(lead, "rights", SpellQuoted(gap, directory, SpellQuoted(gap2, acl, rest)));
    QuotedIsRead(gap, directory, SpellQuoted(gap2, acl, rest));
    QuotedIsRead(gap2, acl, rest);
  }

  lemma LineIsFound(lead: string, word: string, quoted: string)
    requires AllSpace(lead)
    requires word == "subject" || word == "ticket" || word == "expiration" || word == "rights"
    ensures var t := SkipSpace(lead + (word + quoted));
            && Starts(t, word) && t[|word|..] == quoted
            && (Starts(t, "subject") <==> word == "subject") && (Starts(t, "ticket") <==> word == "ticket")
            && (Starts(t, "expiration") <==> word == "expiration") && (Starts(t, "rights") <==> word == "rights")
  {
    SkipLead(lead, word + quoted);
    KeywordLine(word, quoted, "");
    assert word + quoted + "" == word + quoted && quoted + "" == quoted;
  }

  lemma {:induction false} SpelledIsRead(items: seq<Item>, tail: string, now: int, ct: Ticket)
    requires AllSpace(tail) && forall i :: 0 <= i < |items| ==> WellWritten(items[i])
    ensures Parse(Spell(items, tail), now, ct) == (Complete(Says(ct, items, now)), Says(ct, items, now))
    decreases |items|
  {
    if items == [] {
      SkipLead(tail, "");
      assert tail + "" == tail && SkipSpace("") == "";
    } else {
      ItemIsRead(items[0], Spell(items[1..], tail), now, ct);
      SpelledIsRead(items[1..], tail, now, Said(ct, items[0], now));
    }
  }

  /** The field that a successful reading found first. */
  lemma ReadIsItem(s: string, now: int, ct: Ticket) returns (it: Item, rest: string)
    requires Parse(s, now, ct).0 && SkipSpace(s) != ""
    ensures WellWritten(it) && s == SpellItem(it, rest) && |rest| < |s|
    ensures Parse(s, now, ct) == Parse(rest, now, Said(ct, it, now))
  {
    var t := SkipSpace(s);
    SkipShortens(s);
    if Starts(t, "subject") {
      var lead, gap, text, more := ReadIsLine(s, "subject");
      it, rest := SubjectItem(lead, gap, text), more;
    } else if Starts(t, "ticket") {
      var lead, gap, text, more := ReadIsLine(s, "ticket");
      it, rest := TicketItem(lead, gap, text), more;
    } else if Starts(t, "expiration") {
      var lead, gap, text, more := ReadIsLine(s, "expiration");
      it, rest := ExpirationItem(lead, gap, text), more;
    } else {
      var lead, gap, directory, more := ReadIsLine(s, "rights");
      var gap2 := ReadIsQuoted(more);
      it, rest := RightsItem(lead, gap, directory, gap2, ReadQuoted(more).text), ReadQuoted(more).rest;
    }
  }

  /** A keyword and the quoted string behind it. */
  lemma ReadIsLine(s: string, word: string) returns (lead: string, gap: string, text: string, rest: string)
    requires Starts(SkipSpace(s), word) && ReadQuoted(SkipSpace(s)[|word|..]).Quoted?
    ensures AllSpace(lead) && AllSpace(gap) && QUOTE !in text && |rest| < |s|
    ensures s == lead + (word + SpellQuoted(gap, text, rest))
    ensures ReadQuoted(SkipSpace(s)[|word|..]) == Quoted(text, rest)
  {
    var t := SkipSpace(s);
    SkipShortens(s);
    lead := SkipSplits(s);
    gap := ReadIsQuoted(t[|word|..]);
    text, rest := ReadQuoted(t[|word|..]).text, ReadQuoted(t[|word|..]).rest;
    assert t == word + t[|word|..];
  }

  lemma {:induction false} ReadIsSpelled(s: string, now: int, ct: Ticket) returns (items: seq<Item>, tail: string)
    requires Parse(s, now, ct).0
    ensures Spells(s, items, tail)
    decreases |s|
  {
    if SkipSpace(s) == "" {
      items := [];
      tail := SkipSplits(s);
      assert tail + "" == tail;
    } else {
      var it, rest := ReadIsItem(s, now, ct);
      var more, end := ReadIsSpelled(rest, now, Said(ct, it, now));
      items, tail := [it] + more, end;
      assert items[1..] == more;
    }
  }

  /** The text is made of fields and white space, which together say whose ticket it is, what it is and for which
      rights, and that it is still good. */
  ghost predicate Good(t: string, now: int)
  {
    exists items, tail :: SpellsGood(t, items, tail, now)
  }

  predicate SpellsGood(t: string, items: seq<Item>, tail: string, now: int)
  {
    Spells(t, items, tail) && Complete(Says(Blank(now), items, now)) && Says(Blank(now), items, now).expiration > now
  }

  lemma {:induction false} ExpiredIs(ct: Ticket, items: seq<Item>, now: int)
    requires ct.expired <==> ct.expiration <= now
    ensures Says(ct, items, now).expired <==> Says(ct, items, now).expiration <= now
    decreases |items|
  {
    if items == [] {
    } else {
      ExpiredIs(Said(ct, items[0], now), items[1..], now);
    }
  }

  /** The reader accepts exactly the good texts, and takes from any text that spells fields what they say. */
  lemma AcceptsExactly(t: string, now: int)
    ensures Parse(t, now, Blank(now)).0 && !Parse(t, now, Blank(now)).1.expired <==> Good(t, now)
    ensures forall items, tail :: Spells(t, items, tail) ==>
              Parse(t, now, Blank(now)).1 == Says(Blank(now), items, now)
  {
    forall items, tail | Spells(t, items, tail)
      ensures Parse(t, now, Blank(now)) ==
                (Complete(Says(Blank(now), items, now)), Says(Blank(now), items, now))
      ensures Says(Blank(now), items, now).expired <==> Says(Blank(now), items, now).expiration <= now
    {
      SpelledIsRead(items, tail, now, Blank(now));
      ExpiredIs(Blank(now), items, now);
    }
    if Parse(t, now, Blank(now)).0 && !Parse(t, now, Blank(now)).1.expired {
      var items, tail := ReadIsSpelled(t, now, Blank(now));
      assert SpellsGood(t, items, tail, now);
    }
  }

  // ---------------------------------------------------------------------- the reader

  /** readquote, from position `i` on. */
  method ReadQuote(t: string, i: nat) returns (ok: bool, text: string, next: nat)
    requires i <= |t|
    ensures i <= next <= |t|
    ensures ok <==> ReadQuoted(t[i..]).Quoted?
    ensures ok ==> ReadQuoted(t[i..]) == Quoted(text, t[next..]) && i < next
  {
    next := SkipBlanks(t, i);
    text := "";
    if next == |t| || t[next] != QUOTE { return false, text, next; }
    var start := next + 1;
    next := FindQuote(t, start);
    ghost var s := t[start - 1..];
    assert SkipSpace(t[i..]) == s && s[1..] == t[start..];
    if next == |t| { return false, text, next; }
    QuoteSlices(t, start, next - start);
    ok, text, next := true, t[start..next], next + 1;
  }

  method FindQuote(t: string, start: nat) returns (next: nat)
    requires start <= |t|
    ensures start <= next <= |t| && Unquoted(t[start..]) == next - start
  {
    next := start;
    while next < |t| && t[next] != QUOTE
      invariant start <= next <= |t|
      invariant Unquoted(t[start..]) == next - start + Unquoted(t[next..])
    {
      assert t[next..][1..] == t[next + 1..];
      next := next + 1;
    }
  }

  lemma QuoteSlices(t: string, start: nat, n: nat)
    requires 1 <= start && start + n < |t|
    ensures t[start - 1..][1..n + 1] == t[start..start + n] && t[start - 1..][n + 2..] == t[start + n + 1..]
  {
  }

  method SkipBlanks(t: string, i: nat) returns (j: nat)
    requires i <= |t|
    ensures i <= j <= |t| && SkipSpace(t[i..]) == t[j..] && (j < |t| ==> !IsSpace(t[j]))
  {
    j := i;
    while j < |t| && IsSpace(t[j])
      invariant i <= j <= |t| && SkipSpace(t[i..]) == SkipSpace(t[j..])
    {
      assert t[j..][1..] == t[j + 1..];
      j := j + 1;
    }
  }

  /** What the loop does next: it stops with a status, or goes on further right. */
  datatype Turn = Stop(status: bool) | GoOn(next: nat)

  method ReadRights(t: string, i: nat, ct: Ticket) returns (turn: Turn, after: Ticket)
    requires i <= |t|
    ensures turn.GoOn? ==> i < turn.next <= |t|
    ensures match ReadQuoted(t[i..])
            case NotQuoted => turn == Stop(false) && after == ct
            case Quoted(directory, rest) =>
              match ReadQuoted(rest)
              case NotQuoted => turn == Stop(false) && after == ct.(rights := ct.rights + [Right(directory, None)])
              case Quoted(acl, rest') =>
                turn.GoOn? && t[turn.next..] == rest'
                    && after == ct.(rights := ct.rights + [Right(directory, Some(acl))])
  {
    var ok, directory, j := ReadQuote(t, i);
    if !ok { return Stop(false), ct; }
    var ok', acl, k := ReadQuote(t, j);
    if !ok' { return Stop(false), ct.(rights := ct.rights + [Right(directory, None)]); }
    return GoOn(k), ct.(rights := ct.rights + [Right(directory, Some(acl))]);
  }

  /** One turn of the reading loop. */
  method ReadField(t: string, i: nat, now: int, ct: Ticket) returns (turn: Turn, after: Ticket)
    requires i <= |t|
    ensures turn.GoOn? ==> i < turn.next <= |t|
    ensures Parse(t[i..], now, ct) == if turn.GoOn? then Parse(t[turn.next..], now, after) else (turn.status, after)
  {
    var j := SkipBlanks(t, i);
    after := ct;
    var ok: bool, text: string, k: nat;
    ghost var s := t[j..];
    if Starts(t[j..], "subject") {
      assert s[7..] == t[j + 7..];
      ok, text, k := ReadQuote(t, j + 7);
      if !ok { return Stop(false), after; }
      after := after.(subject := Some(text));
    } else if Starts(t[j..], "ticket") {
      assert s[6..] == t[j + 6..];
      ok, text, k := ReadQuote(t, j + 6);
      if !ok { return Stop(false), after; }
      after := after.(ticket := Some(text));
    } else if Starts(t[j..], "expiration") {
      assert s[10..] == t[j + 10..];
      ok, text, k := ReadQuote(t, j + 10);
      if !ok { return Stop(false), after; }
      var time := ToTime(StrToUl(text));
      after := after.(expiration := time, expired := time <= now);
    } else if Starts(t[j..], "rights") {
      assert s[6..] == t[j + 6..];
      turn, after := ReadRights(t, j + 6, ct);
      return;
    } else {
      return Stop(j == |t| && ct.subject.Some? && ct.ticket.Some? && ct.rights != []), after;
    }
    turn := GoOn(k);
  }

  /** chirp_ticket_read. It ends on every text, with the position never past the end. */
  method Read(t: string, now: int) returns (ok: bool, ct: Ticket)
    ensures var (status, raw) := Parse(t, now, Blank(now)); ct == Defaulted(raw) && ok == (status && !raw.expired)
    ensures ok <==> Good(t, now)
    ensures forall items, tail :: Spells(t, items, tail) ==>
              var said := Says(Ticket(None, None, now, true, []), items, now);
              ct == said.(rights := if said.rights == [] then [Right("/", Some("n"))] else said.rights)
  {
    AcceptsExactly(t, now);
    ct := Blank(now);
    var i, status := 0, false;
    assert t[0..] == t;
    while true
      invariant i <= |t| && Parse(t[i..], now, ct) == Parse(t, now, Blank(now))
      decreases |t| - i
    {
      var turn, after := ReadField(t, i, now, ct);
      ct := after;
      if turn.Stop? { status := turn.status; break; }
      i := turn.next;
    }
    ok := status && !ct.expired;
    if ct.rights == [] { ct := ct.(rights := [Right("/", Some("n"))]); }
  }

  // ---------------------------------------------------------------------- the printer

  predicate Printable(s: string) { QUOTE !in s }

  predicate WellFormed(ct: Ticket)
  {
    && ct.subject.Some? && Printable(ct.subject.value) && ct.ticket.Some? && Printable(ct.ticket.value)
    && -(ULONG_LIMIT / 2) <= ct.expiration < ULONG_LIMIT / 2
    && ct.rights != [] && forall i :: 0 <= i < |ct.rights| ==> PrintableRight(ct.rights[i])
  }

  predicate PrintableRight(r: Right) { Printable(r.directory) && r.acl.Some? && Printable(r.acl.value) }

  function InQuotes(s: string): string { " \"" + s + "\"" }

  function PrintRight(r: Right): string
    requires r.acl.Some?
  {
    "rights" + InQuotes(r.directory) + InQuotes(r.acl.value) + "\n"
  }

  function PrintRights(rights: seq<Right>): string
    requires forall i :: 0 <= i < |rights| ==> PrintableRight(rights[i])
  {
    if rights == [] then "" else assert PrintableRight(rights[0]); PrintRight(rights[0]) + PrintRights(rights[1..])
  }

  function Print(ct: Ticket): string
    requires WellFormed(ct)
  {
    "subject" + InQuotes(ct.subject.value) + "\n" + ("ticket" + InQuotes(ct.ticket.value) + "\n" +
    ("expiration" + InQuotes(Digits(FromTime(ct.expiration))) + "\n" + PrintRights(ct.rights)))
  }

  /** chirp_ticket_tostring. */
  method ToString(ct: Ticket) returns (s: string)
    requires WellFormed(ct)
    ensures s == Print(ct)
  {
    s := "subject" + InQuotes(ct.subject.value) + "\n";
    s := s + ("ticket" + InQuotes(ct.ticket.value) + "\n");
    s := s + ("expiration" + InQuotes(Digits(FromTime(ct.expiration))) + "\n");
    ghost var head := s;
    for n := 0 to |ct.rights|
      invariant s + PrintRights(ct.rights[n..]) == head + PrintRights(ct.rights)
    {
      assert ct.rights[n..][1..] == ct.rights[n + 1..];
      Regroup(s, PrintRight(ct.rights[n]), PrintRights(ct.rights[n + 1..]));
      s := s + PrintRight(ct.rights[n]);
    }
    assert s + "" == s;
    Regroup("subject" + InQuotes(ct.subject.value) + "\n", "ticket" + InQuotes(ct.ticket.value) + "\n",
            "expiration" + InQuotes(Digits(FromTime(ct.expiration))) + "\n");
  }

  // ---------------------------------------------------------------------- round trip

  lemma ReadBackQuoted(s: string, rest: string)
    requires Printable(s)
    ensures ReadQuoted(InQuotes(s) + rest) == Quoted(s, rest)
  {
    assert InQuotes(s) + rest == SpellQuoted(" ", s, rest);
    QuotedIsRead(" ", s, rest);
  }

  /** The end of a line is passed over. */
  lemma ParseNewline(rest: string, now: int, ct: Ticket)
    ensures Parse("\n" + rest, now, ct) == Parse(rest, now, ct)
  {
    assert ("\n" + rest)[1..] == rest;
    SkipTwice("\n" + rest);
    assert SkipSpace("\n" + rest) == SkipSpace(rest);
  }

  lemma {:induction false} SkipTwice(s: string)
    ensures SkipSpace(SkipSpace(s)) == SkipSpace(s)
  {
    if s == "" || !IsSpace(s[0]) {
    } else {
      SkipTwice(s[1..]);
    }
  }

  /** A line that begins with a keyword. */
  lemma KeywordLine(word: string, quoted: string, tail: string)
    requires word == "subject" || word == "ticket" || word == "expiration" || word == "rights"
    ensures var line := word + quoted + tail;
            && SkipSpace(line) == line && Starts(line, word) && line[|word|..] == quoted + tail
            && (Starts(line, "subject") <==> word == "subject") && (Starts(line, "ticket") <==> word == "ticket")
            && (Starts(line, "expiration") <==> word == "expiration") && (Starts(line, "rights") <==> word == "rights")
  {
    var line := word + quoted + tail;
    assert line[0] == word[0] && line[..|word|] == word;
    assert "subject"[0] == 's' && "ticket"[0] == 't' && "expiration"[0] == 'e' && "rights"[0] == 'r';
    FirstDiffers(line, "subject");
    FirstDiffers(line, "ticket");
    FirstDiffers(line, "expiration");
    FirstDiffers(line, "rights");
  }

  lemma FirstDiffers(line: string, word: string)
    requires line != "" && word != ""
    ensures Starts(line, word) ==> line[0] == word[0]
  {
    if Starts(line, word) { assert line[..|word|][0] == word[0]; }
  }

  lemma ParseSubject(s: string, rest: string, now: int, ct: Ticket)
    requires Printable(s)
    ensures Parse("subject" + InQuotes(s) + ("\n" + rest), now, ct) == Parse(rest, now, ct.(subject := Some(s)))
  {
    KeywordLine("subject", InQuotes(s), "\n" + rest);
    ReadBackQuoted(s, "\n" + rest);
    ParseNewline(rest, now, ct.(subject := Some(s)));
  }

  lemma ParseTicket(s: string, rest: string, now: int, ct: Ticket)
    requires Printable(s)
    ensures Parse("ticket" + InQuotes(s) + ("\n" + rest), now, ct) == Parse(rest, now, ct.(ticket := Some(s)))
  {
    KeywordLine("ticket", InQuotes(s), "\n" + rest);
    ReadBackQuoted(s, "\n" + rest);
    ParseNewline(rest, now, ct.(ticket := Some(s)));
  }

  lemma ParseExpiration(time: int, rest: string, now: int, ct: Ticket)
    requires -(ULONG_LIMIT / 2) <= time < ULONG_LIMIT / 2
    ensures Parse("expiration" + InQuotes(Digits(FromTime(time))) + ("\n" + rest), now, ct)
         == Parse(rest, now, ct.(expiration := time, expired := time <= now))
  {
    var s := Digits(FromTime(time));
    NumberOfDigits(FromTime(time), "");
    TimeRoundTrip(time);
    KeywordLine("expiration", InQuotes(s), "\n" + rest);
    ReadBackQuoted(s, "\n" + rest);
    ParseNewline(rest, now, ct.(expiration := time, expired := time <= now));
  }

  lemma ParseRight(r: Right, rest: string, now: int, ct: Ticket)
    requires PrintableRight(r)
    ensures Parse("rights" + InQuotes(r.directory) + (InQuotes(r.acl.value) + ("\n" + rest)), now, ct)
         == Parse(rest, now, ct.(rights := ct.rights + [r]))
  {
    var tail := InQuotes(r.acl.value) + ("\n" + rest);
    KeywordLine("rights", InQuotes(r.directory), tail);
    ReadBackQuoted(r.directory, tail);
    ReadBackQuoted(r.acl.value, "\n" + rest);
    ParseNewline(rest, now, ct.(rights := ct.rights + [r]));
  }

  lemma {:induction false} ParseRights(rights: seq<Right>, now: int, ct: Ticket)
    requires forall i :: 0 <= i < |rights| ==> PrintableRight(rights[i])
    requires ct.subject.Some? && ct.ticket.Some? && ct.rights + rights != []
    ensures Parse(PrintRights(rights), now, ct) == (true, ct.(rights := ct.rights + rights))
    decreases |rights|
  {
    if rights == [] {
      assert ct.rights + rights == ct.rights;
    } else {
      var r, rest := rights[0], PrintRights(rights[1..]);
      RightLine(r, rest);
      ParseRight(r, rest, now, ct);
      assert ct.rights + [r] + rights[1..] == ct.rights + rights;
      ParseRights(rights[1..], now, ct.(rights := ct.rights + [r]));
    }
  }

  lemma RightLine(r: Right, rest: string)
    requires r.acl.Some?
    ensures PrintRight(r) + rest == "rights" + InQuotes(r.directory) + (InQuotes(r.acl.value) + ("\n" + rest))
  {
  }

  lemma Line(word: string, quoted: string, rest: string)
    ensures word + quoted + "\n" + rest == word + quoted + ("\n" + rest)
  {
  }

  /** Reading a printed ticket gives back every field, and succeeds exactly when it has not expired. */
  lemma RoundTrip(ct: Ticket, now: int)
    requires WellFormed(ct)
    ensures Parse(Print(ct), now, Blank(now)) == (true, ct.(expired := ct.expiration <= now))
  {
    var c := PrintRights(ct.rights);
    var time := Digits(FromTime(ct.expiration));
    var b := "expiration" + InQuotes(time) + "\n" + c;
    var a := "ticket" + InQuotes(ct.ticket.value) + "\n" + b;
    Line("subject", InQuotes(ct.subject.value), a);
    Line("ticket", InQuotes(ct.ticket.value), b);
    Line("expiration", InQuotes(time), c);
    ParseSubject(ct.subject.value, a, now, Blank(now));
    var one := Blank(now).(subject := ct.subject);
    ParseTicket(ct.ticket.value, b, now, one);
    var two := one.(ticket := ct.ticket);
    ParseExpiration(ct.expiration, c, now, two);
    ParseRights(ct.rights, now, two.(expiration := ct.expiration, expired := ct.expiration <= now));
    assert [] + ct.rights == ct.rights;
  }

  /** The two operations one after the other. */
  method PrintThenRead(ct: Ticket, now: int) returns (ok: bool, back: Ticket)
    requires WellFormed(ct)
    ensures ok <==> ct.expiration > now
    ensures back == ct.(expired := ct.expiration <= now)
  {
    var text := ToString(ct);
    ok, back := Read(text, now);
    RoundTrip(ct, now);
  }
}
