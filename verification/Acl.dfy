/** The text form of access control lists in chirp_acl.c. */
module Acl {
  import opened Common
  import T = Ticket

  /** A set of rights, as the numbers of the bits that are set in the integer the code keeps. */
  type Flags = set<nat>

  const READ: nat := 0
  const WRITE: nat := 1
  const LIST: nat := 2
  const DELETE: nat := 3
  const ADMIN: nat := 4
  const EXECUTE: nat := 5
  const PUT: nat := 6
  const RESERVE_READ: nat := 7
  const RESERVE_WRITE: nat := 8
  const RESERVE_LIST: nat := 9
  const RESERVE_DELETE: nat := 10
  const RESERVE_PUT: nat := 11
  const RESERVE_ADMIN: nat := 12
  const RESERVE_RESERVE: nat := 13
  const RESERVE_EXECUTE: nat := 14
  const RESERVE: nat := 15

  // ---------------------------------------------------------------------- letters

  datatype Letter = Letter(bit: nat, c: char)

  /** The letters outside and inside the brackets of the reserve right, in the order of printing. */
  const PLAIN: seq<Letter> :=
    [Letter(READ, 'r'), Letter(WRITE, 'w'), Letter(LIST, 'l'), Letter(DELETE, 'd'), Letter(PUT, 'p'),
     Letter(ADMIN, 'a'), Letter(EXECUTE, 'x')]

  const INNER: seq<Letter> :=
    [Letter(RESERVE_READ, 'r'), Letter(RESERVE_WRITE, 'w'), Letter(RESERVE_LIST, 'l'), Letter(RESERVE_DELETE, 'd'),
     Letter(RESERVE_PUT, 'p'), Letter(RESERVE_RESERVE, 'v'), Letter(RESERVE_ADMIN, 'a'), Letter(RESERVE_EXECUTE, 'x')]

  function Bit(c: char): Flags
  {
    match c
    case 'r' => {READ} case 'w' => {WRITE} case 'l' => {LIST} case 'd' => {DELETE} case 'p' => {PUT} case 'a' => {ADMIN}
    case 'x' => {EXECUTE} case 'v' => {RESERVE} case _ => {}
  }

  function InnerBit(c: char): Flags
  {
    match c
    case 'r' => {RESERVE_READ} case 'w' => {RESERVE_WRITE} case 'l' => {RESERVE_LIST} case 'd' => {RESERVE_DELETE}
    case 'p' => {RESERVE_PUT} case 'v' => {RESERVE_RESERVE} case 'a' => {RESERVE_ADMIN}
           case 'x' => {RESERVE_EXECUTE} case _ => {}
  }

  /** Everything between brackets. */
  function InnerFlags(s: string): Flags { if s == "" then {} else InnerBit(s[0]) + InnerFlags(s[1..]) }

  /** The number of characters in front of the closing bracket. */
  function Close(s: string): (n: nat)
    ensures n <= |s|
  {
    if s == "" || s[0] == ')' then 0 else 1 + Close(s[1..])
  }

  predicate Opens(s: string) { |s| >= 2 && s[0] == 'v' && s[1] == '(' }

  /** Every bracket that follows a reserve right is closed. */
  predicate Balanced(s: string)
    decreases |s|
  {
    if s == "" then true
    else if Opens(s) then Close(s[2..]) < |s| - 2 && Balanced(s[Close(s[2..]) + 3..])
    else Balanced(s[1..])
  }

  /** The rights a text stands for. */
  function ToFlags(s: string): Flags
    requires Balanced(s)
    decreases |s|
  {
    if s == "" then {}
    else if Opens(s) then
      var n := Close(s[2..]);
      {RESERVE} + InnerFlags(s[2..n + 2]) + ToFlags(s[n + 3..])
    else Bit(s[0]) + ToFlags(s[1..])
  }

  function Letters(f: Flags, table: seq<Letter>): string
  {
    if table == [] then "" else (if table[0].bit in f then [table[0].c] else "") + Letters(f, table[1..])
  }

  function Reserved(f: Flags): string { if RESERVE in f then "v(" + Letters(f, INNER) + ")" else "" }

  /** The text of a set of rights. */
  function ToText(f: Flags): string
  {
    var s := Letters(f, PLAIN) + Reserved(f);
    if s == "" then "n" else s
  }

  /** What of `f` a text can carry: the bits in brackets count only under the reserve right. */
  function Normal(f: Flags): Flags { if RESERVE in f then f * (Mask(PLAIN) + Mask(INNER) + {RESERVE})
      else f * Mask(PLAIN) }

  /** The bits of a table. */
  function Mask(table: seq<Letter>): Flags { set i | 0 <= i < |table| :: table[i].bit }

  // ---------------------------------------------------------------------- methods

  /** One conditional strcat: letter `k` of the table, if its bit is set. */
  method Strcat(f: Flags, table: seq<Letter>, k: nat, text: string) returns (longer: string)
    requires k < |table| && text + Letters(f, table[k..]) == Letters(f, table)
    ensures longer + Letters(f, table[k + 1..]) == Letters(f, table) && |longer| <= |text| + 1
  {
    assert table[k..][1..] == table[k + 1..];
    longer := if table[k].bit in f then text + [table[k].c] else text;
  }

  method PlainText(f: Flags) returns (text: string)
    ensures text == Letters(f, PLAIN) && |text| <= 7
  {
    assert PLAIN[0..] == PLAIN && "" + Letters(f, PLAIN) == Letters(f, PLAIN);
    text := Strcat(f, PLAIN, 0, "");
    text := Strcat(f, PLAIN, 1, text);
    text := Strcat(f, PLAIN, 2, text);
    text := Strcat(f, PLAIN, 3, text);
    text := Strcat(f, PLAIN, 4, text);
    text := Strcat(f, PLAIN, 5, text);
    text := Strcat(f, PLAIN, 6, text);
    assert text + "" == text;
  }

  method InnerText(f: Flags) returns (text: string)
    ensures text == Letters(f, INNER) && |text| <= 8
  {
    assert INNER[0..] == INNER && "" + Letters(f, INNER) == Letters(f, INNER);
    text := Strcat(f, INNER, 0, "");
    text := Strcat(f, INNER, 1, text);
    text := Strcat(f, INNER, 2, text);
    text := Strcat(f, INNER, 3, text);
    text := Strcat(f, INNER, 4, text);
    text := Strcat(f, INNER, 5, text);
    text := Strcat(f, INNER, 6, text);
    text := Strcat(f, INNER, 7, text);
    assert text + "" == text;
  }

  /** chirp_acl_flags_to_text; the text and its terminating zero fit the buffer of twenty. */
  method FlagsToText(f: Flags) returns (text: string)
    ensures text == ToText(f) && |text| < 20
  {
    text := PlainText(f);
    if RESERVE in f {
      var inner := InnerText(f);
      text := text + ("v(" + inner + ")");
    }
    if text == "" { text := "n"; }
  }

  /** The loop between the brackets. */
  method InnerLoop(t: string, start: nat, f0: Flags) returns (i: nat, f: Flags)
    requires start <= |t| && Close(t[start..]) < |t| - start
    ensures i == start + Close(t[start..]) && f == f0 + InnerFlags(t[start..i])
  {
    i, f := start, f0;
    ghost var end := start + Close(t[start..]);
    while i < |t| && t[i] != ')'
      invariant start <= i <= end < |t| && Close(t[i..]) == end - i
      invariant f + InnerFlags(t[i..end]) == f0 + InnerFlags(t[start..end])
    {
      assert t[i..][1..] == t[i + 1..] && t[i..end][1..] == t[i + 1..end];
      Join(f, InnerBit(t[i]), InnerFlags(t[i + 1..end]));
      f := f + InnerBit(t[i]);
      i := i + 1;
    }
  }

  /** chirp_acl_text_to_flags. */
  method TextToFlags(t: string) returns (f: Flags)
    requires Balanced(t)
    ensures f == ToFlags(t)
  {
    f := {};
    var i := 0;
    assert t[0..] == t;
    while i < |t|
      invariant i <= |t| && Balanced(t[i..]) && f + ToFlags(t[i..]) == ToFlags(t)
      decreases |t| - i
    {
      i, f := OneRight(t, i, f);
    }
  }

  /** The body of its loop. */
  method OneRight(t: string, i: nat, f0: Flags) returns (next: nat, f: Flags)
    requires i < |t| && Balanced(t[i..])
    ensures i < next <= |t| && Balanced(t[next..]) && f + ToFlags(t[next..]) == f0 + ToFlags(t[i..])
  {
    if t[i] == 'v' && i + 1 < |t| && t[i + 1] == '(' {
      OpensAt(t, i);
      next, f := InnerLoop(t, i + 2, f0 + {RESERVE});
      OpensJoined(t, i, next, f0);
      next := next + 1;
    } else {
      ShutJoined(t, i, f0);
      next, f := i + 1, f0 + Bit(t[i]);
    }
  }

  lemma Join(a: Flags, b: Flags, c: Flags)
    ensures a + (b + c) == a + b + c
  {
  }

  lemma OpensJoined(t: string, i: nat, j: nat, f: Flags)
    requires i + 1 < |t| && t[i] == 'v' && t[i + 1] == '(' && Balanced(t[i..])
    requires j == i + 2 + Close(t[i + 2..]) && j < |t|
    ensures Balanced(t[j + 1..])
    ensures f + {RESERVE} + InnerFlags(t[i + 2..j]) + ToFlags(t[j + 1..]) == f + ToFlags(t[i..])
  {
    OpensTo(t, i, j);
    Join(f, {RESERVE}, InnerFlags(t[i + 2..j]));
    Join(f, {RESERVE} + InnerFlags(t[i + 2..j]), ToFlags(t[j + 1..]));
  }

  lemma ShutJoined(t: string, i: nat, f: Flags)
    requires i < |t| && !(t[i] == 'v' && i + 1 < |t| && t[i + 1] == '(') && Balanced(t[i..])
    ensures Balanced(t[i + 1..]) && f + Bit(t[i]) + ToFlags(t[i + 1..]) == f + ToFlags(t[i..])
  {
    ShutAt(t, i);
    Join(f, Bit(t[i]), ToFlags(t[i + 1..]));
  }

  lemma OpensAt(t: string, i: nat)
    requires i + 1 < |t| && t[i] == 'v' && t[i + 1] == '(' && Balanced(t[i..])
    ensures Close(t[i + 2..]) + 2 + i < |t|
  {
    SliceFrom(t, i, 2);
  }

  lemma OpensTo(t: string, i: nat, j: nat)
    requires i + 1 < |t| && t[i] == 'v' && t[i + 1] == '(' && Balanced(t[i..])
    requires j == i + 2 + Close(t[i + 2..]) && j < |t|
    ensures Balanced(t[j + 1..]) && ToFlags(t[i..]) == {RESERVE} + InnerFlags(t[i + 2..j]) + ToFlags(t[j + 1..])
  {
    SliceFrom(t, i, 2);
    SliceBetween(t, i, 2, j - i);
    SliceFrom(t, i, j + 1 - i);
  }

  lemma SliceFrom(t: string, i: nat, a: nat)
    requires i + a <= |t|
    ensures t[i..][a..] == t[i + a..]
  {
  }

  lemma SliceBetween(t: string, i: nat, a: nat, b: nat)
    requires a <= b && i + b <= |t|
    ensures t[i..][a..b] == t[i + a..i + b]
  {
  }

  lemma ShutAt(t: string, i: nat)
    requires i < |t| && !(t[i] == 'v' && i + 1 < |t| && t[i + 1] == '(') && Balanced(t[i..])
    ensures Balanced(t[i + 1..]) && ToFlags(t[i..]) == Bit(t[i]) + ToFlags(t[i + 1..])
  {
    assert t[i..][1..] == t[i + 1..];
  }

  // ---------------------------------------------------------------------- text and flags

  lemma MaskNext(f: Flags, table: seq<Letter>)
    requires table != []
    ensures f * Mask(table) == (if table[0].bit in f then {table[0].bit} else {}) + f * Mask(table[1..])
  {
    assert Mask(table) == {table[0].bit} + Mask(table[1..]) by {
      forall b | b in Mask(table) ensures b in {table[0].bit} + Mask(table[1..]) {
        var i :| 0 <= i < |table| && table[i].bit == b;
        if i > 0 { assert table[1..][i - 1].bit == b; }
      }
      forall b | b in Mask(table[1..]) ensures b in Mask(table) {
        var i :| 0 <= i < |table| - 1 && table[1..][i].bit == b;
        assert table[i + 1].bit == b;
      }
    }
  }

  /** Letters outside the brackets, in front of something else. */
  lemma {:induction false} PlainFlags(f: Flags, table: seq<Letter>, rest: string)
    requires Balanced(rest)
    requires forall i :: 0 <= i < |table| ==> table[i].c != 'v' && Bit(table[i].c) == {table[i].bit}
    ensures Balanced(Letters(f, table) + rest) && ToFlags(Letters(f, table) + rest) == f * Mask(table) + ToFlags(rest)
    decreases |table|
  {
    if table == [] {
      assert Letters(f, table) + rest == rest;
    } else {
      PlainFlags(f, table[1..], rest);
      MaskNext(f, table);
      var tail := Letters(f, table[1..]) + rest;
      if table[0].bit in f {
        assert Letters(f, table) + rest == [table[0].c] + tail;
        PlainLetter(table[0].c, tail);
        Join({table[0].bit}, f * Mask(table[1..]), ToFlags(rest));
      } else {
        assert Letters(f, table) + rest == tail;
      }
    }
  }

  lemma PlainLetter(c: char, tail: string)
    requires c != 'v' && Balanced(tail)
    ensures Balanced([c] + tail) && ToFlags([c] + tail) == Bit(c) + ToFlags(tail)
  {
    assert ([c] + tail)[1..] == tail;
  }

  lemma {:induction false} InnerLetters(f: Flags, table: seq<Letter>, rest: string)
    requires forall i :: 0 <= i < |table| ==> table[i].c != ')' && InnerBit(table[i].c) == {table[i].bit}
    ensures InnerFlags(Letters(f, table)) == f * Mask(table)
    ensures Close(Letters(f, table) + ")" + rest) == |Letters(f, table)|
    decreases |table|
  {
    if table != [] {
      InnerLetters(f, table[1..], rest);
      MaskNext(f, table);
      var tail := Letters(f, table[1..]);
      if table[0].bit in f {
        var all := [table[0].c] + tail;
        assert all[1..] == tail && (all + ")" + rest)[1..] == tail + ")" + rest;
      } else {
        assert Letters(f, table) == tail;
      }
    }
  }

  lemma ReservedFlags(f: Flags)
    ensures Balanced(Reserved(f)) && ToFlags(Reserved(f)) == if RESERVE in f then {RESERVE} + f * Mask(INNER) else {}
  {
    if RESERVE in f {
      var inner, all := Letters(f, INNER), Reserved(f);
      InnerLetters(f, INNER, "");
      assert all[2..] == inner + ")" + "";
      assert all[2..|inner| + 2] == inner && all[|inner| + 3..] == "";
    }
  }

  lemma {:induction false} SomeLetters(f: Flags, table: seq<Letter>)
    ensures Letters(f, table) == "" <==> f * Mask(table) == {}
    decreases |table|
  {
    if table == [] {
    } else {
      MaskNext(f, table);
      SomeLetters(f, table[1..]);
    }
  }

  lemma PrintedFlags(f: Flags)
    ensures var s := Letters(f, PLAIN) + Reserved(f);
            Balanced(s) && ToFlags(s) == Normal(f) && (s == "" <==> Normal(f) == {})
  {
    ReservedFlags(f);
    PlainFlags(f, PLAIN, Reserved(f));
    SomeLetters(f, PLAIN);
    NormalParts(f);
  }

  lemma NormalParts(f: Flags)
    ensures Normal(f) == f * Mask(PLAIN) + if RESERVE in f then {RESERVE} + f * Mask(INNER) else {}
  {
  }

  /** Parsing the text of a set of rights gives the normal part of it; the only text that is not made
      of rights is the one for none. */
  lemma FlagsRoundTrip(f: Flags)
    ensures Balanced(ToText(f)) && ToFlags(ToText(f)) == Normal(f)
    ensures ToText(f) == "n" <==> Normal(f) == {}
  {
    PrintedFlags(f);
    assert "n"[1..] == "" && Balanced("") && ToFlags("n") == {};
  }

  /** What a text can stand for. */
  ghost predicate IsNormal(f: Flags)
  {
    && (forall b :: b in f ==> b <= RESERVE)
    && (RESERVE !in f ==> forall b :: b in f ==> b < RESERVE_READ)
  }

  lemma Masks()
    ensures forall b: nat :: b in Mask(PLAIN) <==> b < RESERVE_READ
    ensures forall b: nat :: b in Mask(INNER) <==> RESERVE_READ <= b < RESERVE
  {
    assert PLAIN[0].bit == 0 && PLAIN[1].bit == 1 && PLAIN[2].bit == 2 && PLAIN[3].bit == 3 && PLAIN[5].bit == 4
        && PLAIN[6].bit == 5 && PLAIN[4].bit == 6;
    assert INNER[0].bit == 7 && INNER[1].bit == 8 && INNER[2].bit == 9 && INNER[3].bit == 10
        && INNER[4].bit == 11 && INNER[6].bit == 12 && INNER[5].bit == 13 && INNER[7].bit == 14;
    assert forall i :: 0 <= i < |PLAIN| ==> PLAIN[i].bit < RESERVE_READ;
    assert forall i :: 0 <= i < |INNER| ==> RESERVE_READ <= INNER[i].bit < RESERVE;
    forall b: nat | b < RESERVE_READ ensures b in Mask(PLAIN) {
      InMask(PLAIN, if b < 4 then b else if b == 6 then 4 else b + 1);
    }
    forall b: nat | RESERVE_READ <= b < RESERVE ensures b in Mask(INNER) {
      InMask(INNER, if b < 12 then b - 7 else if b == 12 then 6 else if b == 13 then 5 else 7);
    }
  }

  lemma InMask(table: seq<Letter>, i: nat)
    requires i < |table|
    ensures table[i].bit in Mask(table)
  {
  }

  lemma NormalExactly(f: Flags)
    ensures Normal(f) == f <==> IsNormal(f)
    ensures IsNormal(Normal(f))
  {
    Masks();
  }

  lemma {:induction false} InnerBits(s: string)
    ensures forall b :: b in InnerFlags(s) ==> b < RESERVE
  {
    if s == "" {
    } else {
      InnerBits(s[1..]);
    }
  }

  /** What a text stands for is always normal, so it is printed and parsed back unchanged. */
  lemma {:induction false} ParsedIsNormal(s: string)
    requires Balanced(s)
    ensures IsNormal(ToFlags(s))
    decreases |s|
  {
    if s != "" {
      if Opens(s) {
        var n := Close(s[2..]);
        InnerBits(s[2..n + 2]);
        ParsedIsNormal(s[n + 3..]);
      } else {
        ParsedIsNormal(s[1..]);
      }
    }
  }

  // ---------------------------------------------------------------------- what the letters mean

  /** The characters outside the brackets of a reserve right, and those inside. */
  function Outside(s: string): string
    requires Balanced(s)
    decreases |s|
  {
    if s == "" then ""
    else if Opens(s) then "v" + Outside(s[Close(s[2..]) + 3..])
    else [s[0]] + Outside(s[1..])
  }

  function Inside(s: string): string
    requires Balanced(s)
    decreases |s|
  {
    if s == "" then ""
    else if Opens(s) then s[2..Close(s[2..]) + 2] + Inside(s[Close(s[2..]) + 3..])
    else Inside(s[1..])
  }

  /** A right that one letter stands for is set exactly if the letter is there. */
  lemma {:induction false} LetterMeans(s: string, bit: nat, c: char)
    requires Balanced(s) && (forall x :: bit in Bit(x) <==> x == c) && (forall x :: bit !in InnerBit(x))
    requires bit == RESERVE <==> c == 'v'
    ensures bit in ToFlags(s) <==> c in Outside(s)
    decreases |s|
  {
    if s == "" {
    } else if Opens(s) {
      NotInner(s[2..Close(s[2..]) + 2], bit);
      LetterMeans(s[Close(s[2..]) + 3..], bit, c);
    } else {
      LetterMeans(s[1..], bit, c);
    }
  }

  lemma {:induction false} NotInner(s: string, bit: nat)
    requires forall x :: bit !in InnerBit(x)
    ensures bit !in InnerFlags(s)
  {
    if s == "" {
    } else {
      NotInner(s[1..], bit);
    }
  }

  lemma {:induction false} InnerMeans(s: string, bit: nat, c: char)
    requires forall x :: bit in InnerBit(x) <==> x == c
    ensures bit in InnerFlags(s) <==> c in s
  {
    if s == "" {
    } else {
      InnerMeans(s[1..], bit, c);
      assert s == [s[0]] + s[1..];
    }
  }

  lemma {:induction false} InsideMeans(s: string, bit: nat, c: char)
    requires Balanced(s) && bit != RESERVE
    requires (forall x :: bit in InnerBit(x) <==> x == c) && (forall x :: bit !in Bit(x))
    ensures bit in ToFlags(s) <==> c in Inside(s)
    decreases |s|
  {
    if s == "" {
    } else if Opens(s) {
      InnerMeans(s[2..Close(s[2..]) + 2], bit, c);
      InsideMeans(s[Close(s[2..]) + 3..], bit, c);
    } else {
      InsideMeans(s[1..], bit, c);
    }
  }

  lemma ReadMeans(s: string)
    requires Balanced(s)
    ensures (0 in ToFlags(s) <==> 'r' in Outside(s)) && (1 in ToFlags(s) <==> 'w' in Outside(s))
  {
    LetterMeans(s, READ, 'r');
    LetterMeans(s, WRITE, 'w');
  }

  lemma ListMeans(s: string)
    requires Balanced(s)
    ensures (2 in ToFlags(s) <==> 'l' in Outside(s)) && (3 in ToFlags(s) <==> 'd' in Outside(s))
  {
    LetterMeans(s, LIST, 'l');
    LetterMeans(s, DELETE, 'd');
  }

  lemma AdminMeans(s: string)
    requires Balanced(s)
    ensures (4 in ToFlags(s) <==> 'a' in Outside(s)) && (5 in ToFlags(s) <==> 'x' in Outside(s))
  {
    LetterMeans(s, ADMIN, 'a');
    LetterMeans(s, EXECUTE, 'x');
  }

  lemma PutMeans(s: string)
    requires Balanced(s)
    ensures (6 in ToFlags(s) <==> 'p' in Outside(s)) && (15 in ToFlags(s) <==> 'v' in Outside(s))
  {
    LetterMeans(s, PUT, 'p');
    LetterMeans(s, RESERVE, 'v');
  }

  /** The rights of a text, letter by letter, with the bits of the header file. */
  lemma PlainMean(s: string)
    requires Balanced(s)
    ensures (0 in ToFlags(s) <==> 'r' in Outside(s)) && (1 in ToFlags(s) <==> 'w' in Outside(s))
    ensures (2 in ToFlags(s) <==> 'l' in Outside(s)) && (3 in ToFlags(s) <==> 'd' in Outside(s))
    ensures (4 in ToFlags(s) <==> 'a' in Outside(s)) && (5 in ToFlags(s) <==> 'x' in Outside(s))
    ensures (6 in ToFlags(s) <==> 'p' in Outside(s)) && (15 in ToFlags(s) <==> 'v' in Outside(s))
  {
    ReadMeans(s);
    ListMeans(s);
    AdminMeans(s);
    PutMeans(s);
  }

  lemma ReservedMean(s: string)
    requires Balanced(s)
    ensures (7 in ToFlags(s) <==> 'r' in Inside(s)) && (8 in ToFlags(s) <==> 'w' in Inside(s))
    ensures (9 in ToFlags(s) <==> 'l' in Inside(s)) && (10 in ToFlags(s) <==> 'd' in Inside(s))
    ensures (11 in ToFlags(s) <==> 'p' in Inside(s)) && (12 in ToFlags(s) <==> 'a' in Inside(s))
    ensures (13 in ToFlags(s) <==> 'v' in Inside(s)) && (14 in ToFlags(s) <==> 'x' in Inside(s))
  {
    InsideMeans(s, RESERVE_READ, 'r');
    InsideMeans(s, RESERVE_WRITE, 'w');
    InsideMeans(s, RESERVE_LIST, 'l');
    InsideMeans(s, RESERVE_DELETE, 'd');
    InsideMeans(s, RESERVE_PUT, 'p');
    InsideMeans(s, RESERVE_ADMIN, 'a');
    InsideMeans(s, RESERVE_RESERVE, 'v');
    InsideMeans(s, RESERVE_EXECUTE, 'x');
  }

  /** A letter, if its bit is set. */
  function If(f: Flags, bit: nat, c: char): string { if bit in f then [c] else "" }

  lemma LettersAt(f: Flags, table: seq<Letter>, k: nat)
    requires k < |table|
    ensures Letters(f, table[k..]) == If(f, table[k].bit, table[k].c) + Letters(f, table[k + 1..])
  {
    assert table[k..][1..] == table[k + 1..];
  }

  /** The order in which the letters are printed. */
  lemma PlainSpelled(f: Flags)
    ensures Letters(f, PLAIN) == If(f, 0, 'r') + (If(f, 1, 'w') + (If(f, 2, 'l') + (If(f, 3, 'd') + (If(f, 6, 'p')
              + (If(f, 4, 'a') + (If(f, 5, 'x') + ""))))))
  {
    assert PLAIN[0..] == PLAIN && PLAIN[7..] == [];
    LettersAt(f, PLAIN, 0);
    LettersAt(f, PLAIN, 1);
    LettersAt(f, PLAIN, 2);
    LettersAt(f, PLAIN, 3);
    LettersAt(f, PLAIN, 4);
    LettersAt(f, PLAIN, 5);
    LettersAt(f, PLAIN, 6);
  }

  lemma InnerSpelled(f: Flags)
    ensures Letters(f, INNER) == If(f, 7, 'r') + (If(f, 8, 'w') + (If(f, 9, 'l') + (If(f, 10, 'd') + (If(f, 11, 'p')
              + (If(f, 13, 'v') + (If(f, 12, 'a') + (If(f, 14, 'x') + "")))))))
  {
    assert INNER[0..] == INNER && INNER[8..] == [];
    LettersAt(f, INNER, 0);
    LettersAt(f, INNER, 1);
    LettersAt(f, INNER, 2);
    LettersAt(f, INNER, 3);
    LettersAt(f, INNER, 4);
    LettersAt(f, INNER, 5);
    LettersAt(f, INNER, 6);
    LettersAt(f, INNER, 7);
  }

  // ---------------------------------------------------------------------- lines

  datatype Entry = Entry(subject: string, flags: Flags)

  datatype Scan = Other | Scanned(subject: string, text: string)

  /** Characters in front of the first space. */
  function Word(s: string): (n: nat)
    ensures n <= |s|
  {
    if s == "" || s[0] == ' ' then 0 else 1 + Word(s[1..])
  }

  predicate IsRight(c: char) { c in "rwldpvax()" }

  function RightsRun(s: string): (n: nat)
    ensures n <= |s|
  {
    if s == "" || !IsRight(s[0]) then 0 else 1 + RightsRun(s[1..])
  }

  /** The scan of one line with the format "%[^ ] %[rwldpvax()]". */
  function ScanLine(line: string): Scan
  {
    var n := Word(line);
    var rest := T.SkipSpace(line[n..]);
    var m := RightsRun(rest);
    if n == 0 || m == 0 then Other else Scanned(line[..n], rest[..m])
  }

  /** A line that the format fits: a subject without a space, white space that begins with one, and as many
      characters of rights as there are. */
  predicate Fits(line: string, subject: string, blanks: string, text: string, rest: string)
  {
    && line == subject + (blanks + (text + rest))
    && subject != "" && ' ' !in subject && blanks != "" && blanks[0] == ' ' && T.AllSpace(blanks)
    && text != "" && (forall i :: 0 <= i < |text| ==> text[i] in "rwldpvax()")
    && (rest == "" || rest[0] !in "rwldpvax()")
  }

  /** Every line that fits is scanned into its parts. */
  lemma FitsIsScanned(line: string, subject: string, blanks: string, text: string, rest: string)
    requires Fits(line, subject, blanks, text, rest)
    ensures ScanLine(line) == Scanned(subject, text)
  {
    WordStops(subject, blanks[1..] + (text + rest));
    assert blanks + (text + rest) == " " + (blanks[1..] + (text + rest));
    assert line[|subject|..] == blanks + (text + rest) && line[..|subject|] == subject;
    T.SkipLead(blanks, text + rest);
    assert IsRight(text[0]) && !IsSpace(text[0]);
    assert T.SkipSpace(text + rest) == text + rest;
    RunEnds(text, rest);
    assert (text + rest)[..|text|] == text;
  }

  /** And no other line is. */
  lemma ScannedFits(line: string) returns (blanks: string, rest: string)
    requires ScanLine(line).Scanned?
    ensures Fits(line, ScanLine(line).subject, blanks, ScanLine(line).text, rest)
  {
    var n := Word(line);
    var tail := T.SkipSpace(line[n..]);
    var m := RightsRun(tail);
    WordHasNoSpace(line);
    RunIs(tail);
    blanks := T.SkipSplits(line[n..]);
    rest := tail[m..];
    assert tail == tail[..m] + rest && line == line[..n] + line[n..];
    var after := line[n..];
    assert IsRight(tail[0]) && after == blanks + tail;
    assert blanks != "" || after == tail;
    assert after[0] == ' ' && (blanks + tail)[0] == blanks[0];
  }

  lemma {:induction false} RunIs(s: string)
    ensures forall i :: 0 <= i < RightsRun(s) ==> IsRight(s[i])
    ensures RightsRun(s) < |s| ==> !IsRight(s[RightsRun(s)])
  {
    if s == "" || !IsRight(s[0]) {
    } else {
      RunIs(s[1..]);
      forall i | 0 <= i < RightsRun(s) ensures IsRight(s[i]) {
        if i > 0 { assert s[i] == s[1..][i - 1]; }
      }
    }
  }

  lemma {:induction false} RunEnds(run: string, rest: string)
    requires (forall i :: 0 <= i < |run| ==> IsRight(run[i])) && (rest == "" || !IsRight(rest[0]))
    ensures RightsRun(run + rest) == |run|
  {
    if run == "" {
      assert run + rest == rest;
    } else {
      assert (run + rest)[1..] == run[1..] + rest;
      RunEnds(run[1..], rest);
    }
  }

  predicate LineBalanced(line: string) { ScanLine(line).Scanned? ==> Balanced(ScanLine(line).text) }

  predicate FileBalanced(lines: seq<string>) { forall i :: 0 <= i < |lines| ==> LineBalanced(lines[i]) }

  /** A line ends at the first newline. */
  predicate IsLine(line: string) { forall i :: 0 <= i < |line| - 1 ==> line[i] != '\n' }

  predicate IsFile(lines: seq<string>) { forall i :: 0 <= i < |lines| ==> IsLine(lines[i]) }

  function LineEntries(line: string): seq<Entry>
    requires LineBalanced(line)
  {
    match ScanLine(line)
    case Other => []
    case Scanned(subject, text) => [Entry(subject, ToFlags(text))]
  }

  /** What reading a file from here to its end returns. */
  function Entries(lines: seq<string>): seq<Entry>
    requires FileBalanced(lines)
  {
    if lines == [] then [] else assert LineBalanced(lines[0]); LineEntries(lines[0]) + Entries(lines[1..])
  }

  lemma NextLine(lines: seq<string>, i: nat)
    requires i < |lines| && FileBalanced(lines)
    ensures LineBalanced(lines[i]) && Entries(lines[i..]) == LineEntries(lines[i]) + Entries(lines[i + 1..])
  {
    assert lines[i..][1..] == lines[i + 1..] && lines[i..][0] == lines[i];
  }

  /** What one line adds. */
  lemma LineAt(lines: seq<string>, i: nat)
    requires i < |lines| && FileBalanced(lines)
    ensures match ScanLine(lines[i])
            case Other => Entries(lines[i..]) == Entries(lines[i + 1..])
            case Scanned(subject, text) =>
              Balanced(text) && Entries(lines[i..]) == [Entry(subject, ToFlags(text))] + Entries(lines[i + 1..])
  {
    NextLine(lines, i);
  }

  /** chirp_acl_read: the next entry from line `i` on. */
  method ReadEntry(lines: seq<string>, i: nat) returns (found: bool, e: Entry, next: nat)
    requires i <= |lines| && FileBalanced(lines)
    ensures i <= next <= |lines| && (found ==> i < next)
    ensures Entries(lines[i..]) == if found then [e] + Entries(lines[next..]) else []
  {
    next := i;
    e := Entry("", {});
    ghost var all := Entries(lines[i..]);
    while next < |lines|
      invariant i <= next <= |lines| && Entries(lines[next..]) == all
    {
      LineAt(lines, next);
      var scan := ScanLine(lines[next]);
      next := next + 1;
      if scan.Scanned? {
        var flags := TextToFlags(scan.text);
        return true, Entry(scan.subject, flags), next;
      }
    }
    return false, e, next;
  }

  // ---------------------------------------------------------------------- setting rights

  predicate IsSubject(subject: string) { subject != "" && ' ' !in subject && '\n' !in subject }

  function PrintEntry(e: Entry): string { e.subject + (" " + ToText(e.flags) + "\n") }

  function PrintEntries(es: seq<Entry>): seq<string> { Map(PrintEntry, es) }

  function Kept(e: Entry, subject: string, flags: Flags): seq<Entry>
  {
    var f := if e.subject == subject then flags else e.flags;
    if f != {} then [Entry(e.subject, f)] else []
  }

  /** The entries with those of `subject` replaced, and without the empty ones. */
  function Replaced(es: seq<Entry>, subject: string, flags: Flags): seq<Entry>
  {
    if es == [] then [] else Kept(es[0], subject, flags) + Replaced(es[1..], subject, flags)
  }

  predicate Mentions(es: seq<Entry>, subject: string) { exists i :: 0 <= i < |es| && es[i].subject == subject }

  /** The lines chirp_acl_set writes. */
  function NewLines(es: seq<Entry>, subject: string, flags: Flags): seq<string>
  {
    PrintEntries(Replaced(es, subject, flags)) + if Mentions(es, subject) then []
        else [PrintEntry(Entry(subject, flags))]
  }

  /** chirp_acl_set; `reset` starts from an empty list. */
  method Set(lines: seq<string>, subject: string, flags: Flags, reset: bool) returns (after: seq<string>)
    requires FileBalanced(lines)
    ensures after == NewLines(if reset then [] else Entries(lines), subject, flags)
  {
    after := [];
    var replaced := false;
    var i := if reset then |lines| else 0;
    ghost var all := Entries(lines[i..]);
    ghost var done: seq<Entry> := [];
    assert lines[0..] == lines && lines[|lines|..] == [];
    while true
      invariant i <= |lines| && done + Entries(lines[i..]) == all
      invariant after == PrintEntries(Replaced(done, subject, flags)) && replaced == Mentions(done, subject)
      decreases |lines| - i
    {
      var found, e, next := ReadEntry(lines, i);
      if !found { break; }
      ReplacedOneMore(done, e, subject, flags);
      MentionsOneMore(done, e, subject);
      Regroup(done, [e], Entries(lines[next..]));
      done := done + [e];
      after, replaced := Rewrite(after, replaced, e, subject, flags);
      i := next;
    }
    assert done == all;
    if !replaced { after := after + [PrintEntry(Entry(subject, flags))]; }
  }

  /** The body of its loop. */
  method Rewrite(lines: seq<string>, replaced0: bool, e: Entry, subject: string, flags: Flags)
    returns (after: seq<string>, replaced: bool)
    ensures after == lines + PrintEntries(Kept(e, subject, flags)) && replaced == (replaced0 || e.subject == subject)
  {
    var aclflags := e.flags;
    after, replaced := lines, replaced0;
    if e.subject == subject {
      aclflags := flags;
      replaced := true;
    }
    if aclflags != {} { after := after + [PrintEntry(Entry(e.subject, aclflags))]; }
  }

  lemma MentionsOneMore(es: seq<Entry>, e: Entry, subject: string)
    ensures Mentions(es + [e], subject) <==> Mentions(es, subject) || e.subject == subject
  {
    if Mentions(es, subject) {
      var i :| 0 <= i < |es| && es[i].subject == subject;
      assert (es + [e])[i].subject == subject;
    }
    if e.subject == subject { assert (es + [e])[|es|].subject == subject; }
  }

  lemma {:induction false} ReplacedOneMore(es: seq<Entry>, e: Entry, subject: string, flags: Flags)
    ensures Replaced(es + [e], subject, flags) == Replaced(es, subject, flags) + Kept(e, subject, flags)
    ensures PrintEntries(Replaced(es + [e], subject, flags))
              == PrintEntries(Replaced(es, subject, flags)) + PrintEntries(Kept(e, subject, flags))
  {
    ReplacedAppend(es, e, subject, flags);
    PrintAppend(Replaced(es, subject, flags), Kept(e, subject, flags));
  }

  lemma {:induction false} ReplacedAppend(es: seq<Entry>, e: Entry, subject: string, flags: Flags)
    ensures Replaced(es + [e], subject, flags) == Replaced(es, subject, flags) + Kept(e, subject, flags)
  {
    if es == [] {
      assert es + [e] == [e];
    } else {
      ReplacedAppend(es[1..], e, subject, flags);
      assert (es + [e])[1..] == es[1..] + [e];
    }
  }

  lemma PrintAppend(a: seq<Entry>, b: seq<Entry>)
    ensures PrintEntries(a + b) == PrintEntries(a) + PrintEntries(b)
  {
    MapAppend(PrintEntry, a, b);
  }

  lemma PrintOne(e: Entry)
    ensures PrintEntries([e]) == [PrintEntry(e)] && PrintEntries([]) == []
  {
    MapOne(PrintEntry, e);
  }

  // ---------------------------------------------------------------------- reading back

  lemma {:induction false} WordStops(word: string, rest: string)
    requires ' ' !in word
    ensures Word(word + (" " + rest)) == |word|
  {
    if word == "" {
    } else {
      assert (word + (" " + rest))[1..] == word[1..] + (" " + rest);
      WordStops(word[1..], rest);
    }
  }

  predicate AllRights(s: string) { forall i :: 0 <= i < |s| ==> IsRight(s[i]) }

  lemma {:induction false} LettersAreRights(f: Flags, table: seq<Letter>)
    requires forall i :: 0 <= i < |table| ==> IsRight(table[i].c)
    ensures AllRights(Letters(f, table))
    decreases |table|
  {
    if table == [] {
    } else {
      LettersAreRights(f, table[1..]);
    }
  }

  lemma TextIsRights(f: Flags)
    ensures ToText(f) == "n" || (AllRights(ToText(f)) && ToText(f) != "")
  {
    LettersAreRights(f, PLAIN);
    LettersAreRights(f, INNER);
  }

  /** The parts of a printed line. */
  lemma LineParts(subject: string, text: string)
    requires IsSubject(subject) && text != "" && !IsSpace(text[0])
    ensures var line := subject + (" " + text + "\n");
            && Word(line) == |subject| && line[..|subject|] == subject
            && T.SkipSpace(line[|subject|..]) == text + "\n"
  {
    var line := subject + (" " + text + "\n");
    assert " " + text + "\n" == " " + (text + "\n");
    WordStops(subject, text + "\n");
    var blank := " " + (text + "\n");
    assert line[|subject|..] == blank && blank[1..] == text + "\n";
    assert T.SkipSpace(text + "\n") == text + "\n";
  }

  function Clean(e: Entry): seq<Entry> { if Normal(e.flags) == {} then [] else [Entry(e.subject, Normal(e.flags))] }

  function Cleaned(es: seq<Entry>): seq<Entry> { if es == [] then [] else Clean(es[0]) + Cleaned(es[1..]) }

  predicate AreSubjects(es: seq<Entry>) { forall i :: 0 <= i < |es| ==> IsSubject(es[i].subject) }

  lemma PrintedIsLine(e: Entry)
    requires IsSubject(e.subject)
    ensures IsLine(PrintEntry(e))
  {
    TextIsRights(e.flags);
    var text := ToText(e.flags);
    var line := PrintEntry(e);
    forall i | 0 <= i < |line| - 1 ensures line[i] != '\n' {
      if i > |e.subject| { assert line[i] == text[i - |e.subject| - 1]; }
    }
  }

  /** A printed line is read back as its entry with the normal part of its rights, if there is any. */
  lemma PrintedLine(e: Entry)
    requires IsSubject(e.subject)
    ensures LineBalanced(PrintEntry(e)) && LineEntries(PrintEntry(e)) == Clean(e)
  {
    var text, line := ToText(e.flags), PrintEntry(e);
    FlagsRoundTrip(e.flags);
    TextIsRights(e.flags);
    assert text != "" && !IsSpace(text[0]) by { if text != "n" { assert IsRight(text[0]); } }
    LineParts(e.subject, text);
    if text == "n" {
      assert (text + "\n")[0] == 'n';
    } else {
      RunEnds(text, "\n");
      assert (text + "\n")[..|text|] == text;
    }
  }

  lemma {:induction false} PrintedEntries(es: seq<Entry>)
    requires AreSubjects(es)
    ensures FileBalanced(PrintEntries(es)) && IsFile(PrintEntries(es)) && Entries(PrintEntries(es)) == Cleaned(es)
    decreases |es|
  {
    if es == [] {
    } else {
      PrintedLine(es[0]);
      PrintedIsLine(es[0]);
      PrintedEntries(es[1..]);
      PrintFirst(es);
      FirstLine(PrintEntry(es[0]), PrintEntries(es[1..]));
    }
  }

  lemma PrintFirst(es: seq<Entry>)
    requires es != []
    ensures PrintEntries(es) == [PrintEntry(es[0])] + PrintEntries(es[1..])
  {
    assert es == [es[0]] + es[1..];
    PrintAppend([es[0]], es[1..]);
    PrintOne(es[0]);
  }

  lemma FirstLine(line: string, lines: seq<string>)
    requires LineBalanced(line) && FileBalanced(lines) && IsLine(line) && IsFile(lines)
    ensures FileBalanced([line] + lines) && IsFile([line] + lines)
    ensures Entries([line] + lines) == LineEntries(line) + Entries(lines)
  {
    assert ([line] + lines)[1..] == lines;
  }

  lemma {:induction false} WordHasNoSpace(s: string)
    ensures ' ' !in s[..Word(s)] && (Word(s) < |s| ==> s[Word(s)] == ' ')
  {
    if s == "" || s[0] == ' ' {
    } else {
      WordHasNoSpace(s[1..]);
      assert s[..Word(s)] == [s[0]] + s[1..][..Word(s[1..])];
    }
  }

  lemma LineSubject(line: string)
    requires LineBalanced(line) && IsLine(line)
    ensures AreSubjects(LineEntries(line))
    ensures forall i :: 0 <= i < |LineEntries(line)| ==> IsNormal(LineEntries(line)[i].flags)
  {
    match ScanLine(line)
    case Other =>
    case Scanned(subject, text) =>
      WordHasNoSpace(line);
      ParsedIsNormal(text);
      assert line[|line|..] == "" && T.SkipSpace("") == "";
      assert Word(line) < |line|;
  }

  predicate FromFile(es: seq<Entry>) { AreSubjects(es) && forall i :: 0 <= i < |es| ==>
      Normal(es[i].flags) == es[i].flags }

  lemma {:induction false} EntriesFromFile(lines: seq<string>)
    requires FileBalanced(lines) && IsFile(lines)
    ensures FromFile(Entries(lines))
    decreases |lines|
  {
    if lines == [] {
    } else {
      LineSubject(lines[0]);
      if ScanLine(lines[0]).Scanned? { NormalExactly(LineEntries(lines[0])[0].flags); }
      EntriesFromFile(lines[1..]);
    }
  }

  lemma {:induction false} CleanedReplaced(es: seq<Entry>, subject: string, flags: Flags)
    requires FromFile(es) && IsSubject(subject)
    ensures AreSubjects(Replaced(es, subject, flags))
    ensures Cleaned(Replaced(es, subject, flags)) == Replaced(es, subject, Normal(flags))
    decreases |es|
  {
    if es == [] {
    } else {
      CleanedReplaced(es[1..], subject, flags);
      var head, tail := Kept(es[0], subject, flags), Replaced(es[1..], subject, flags);
      CleanedAppend(head, tail);
      assert Cleaned(head) == Kept(es[0], subject, Normal(flags)) by { CleanedKept(es[0], subject, flags); }
    }
  }

  lemma CleanedKept(e: Entry, subject: string, flags: Flags)
    requires Normal(e.flags) == e.flags
    ensures Cleaned(Kept(e, subject, flags)) == Kept(e, subject, Normal(flags))
  {
    NoRights();
  }

  lemma NoRights()
    ensures Normal({}) == {}
  {
  }

  lemma {:induction false} CleanedAppend(a: seq<Entry>, b: seq<Entry>)
    ensures Cleaned(a + b) == Cleaned(a) + Cleaned(b)
    decreases |a|
  {
    if a == [] {
      assert a + b == b;
    } else {
      CleanedAppend(a[1..], b);
      Regroup(Clean(a[0]), Cleaned(a[1..]), Cleaned(b));
      assert (a + b)[1..] == a[1..] + b;
    }
  }

  /** Setting rights and reading the file back: the old entries in their order, without the empty ones,
      those of the subject replaced or removed, or a new one at the end. */
  lemma SetReadsBack(lines: seq<string>, subject: string, flags: Flags)
    requires FileBalanced(lines) && IsFile(lines) && IsSubject(subject)
    ensures var es := Entries(lines);
            var after := NewLines(es, subject, flags);
            && FileBalanced(after) && IsFile(after)
            && Entries(after) == Replaced(es, subject, Normal(flags)) +
                 if Mentions(es, subject) || Normal(flags) == {} then [] else [Entry(subject, Normal(flags))]
  {
    var es := Entries(lines);
    EntriesFromFile(lines);
    NewLinesArePrinted(es, subject, flags);
    CleanedReplaced(es, subject, flags);
    PrintedEntries(NewEntries(es, subject, flags));
    CleanedNew(es, subject, flags);
  }

  /** The rights of everyone whose name `who` accepts. */
  function Granted(es: seq<Entry>, who: string -> bool): Flags
  {
    if es == [] then {} else (if who(es[0].subject) then es[0].flags else {}) + Granted(es[1..], who)
  }

  lemma {:induction false} GrantedAppend(a: seq<Entry>, b: seq<Entry>, who: string -> bool)
    ensures Granted(a + b, who) == Granted(a, who) + Granted(b, who)
  {
    if a == [] {
      assert a + b == b;
    } else {
      GrantedAppend(a[1..], b, who);
      assert (a + b)[1..] == a[1..] + b;
    }
  }

  lemma {:induction false} ReplacedGrants(es: seq<Entry>, subject: string, flags: Flags, who: string -> bool)
    ensures Granted(Replaced(es, subject, flags), who) ==
              Granted(es, (x: string) => who(x) && x != subject)
                + if Mentions(es, subject) && who(subject) then flags else {}
    decreases |es|
  {
    if es == [] {
    } else {
      var others := (x: string) => who(x) && x != subject;
      ReplacedGrants(es[1..], subject, flags, who);
      GrantedAppend(Kept(es[0], subject, flags), Replaced(es[1..], subject, flags), who);
      MentionsRest(es, subject);
      KeptGrants(es[0], subject, flags, who);
    }
  }

  lemma MentionsRest(es: seq<Entry>, subject: string)
    requires es != []
    ensures Mentions(es, subject) <==> es[0].subject == subject || Mentions(es[1..], subject)
  {
    if Mentions(es[1..], subject) {
      var i :| 0 <= i < |es| - 1 && es[1..][i].subject == subject;
      assert es[i + 1].subject == subject;
    }
    if Mentions(es, subject) && es[0].subject != subject {
      var i :| 0 <= i < |es| && es[i].subject == subject;
      assert es[1..][i - 1].subject == subject;
    }
  }

  lemma KeptGrants(e: Entry, subject: string, flags: Flags, who: string -> bool)
    ensures Granted(Kept(e, subject, flags), who) ==
              if !who(e.subject) then {} else if e.subject == subject then flags else e.flags
  {
    var kept := Kept(e, subject, flags);
    if kept != [] { assert kept[1..] == []; }
  }

  /** What setting does to the rights that a lookup adds up, whatever names the lookup accepts: the subject has what
      was set, of which a text can carry the normal part, and everyone else has what they had. */
  lemma SetGrants(lines: seq<string>, subject: string, flags: Flags, who: string -> bool)
    requires FileBalanced(lines) && IsFile(lines) && IsSubject(subject)
    ensures FileBalanced(NewLines(Entries(lines), subject, flags))
    ensures Granted(Entries(NewLines(Entries(lines), subject, flags)), who) ==
              Granted(Entries(lines), (x: string) => who(x) && x != subject)
                + if who(subject) then Normal(flags) else {}
  {
    var es := Entries(lines);
    SetReadsBack(lines, subject, flags);
    var added := if Mentions(es, subject) || Normal(flags) == {} then [] else [Entry(subject, Normal(flags))];
    GrantedAppend(Replaced(es, subject, Normal(flags)), added, who);
    ReplacedGrants(es, subject, Normal(flags), who);
    if added != [] { assert added[1..] == []; }
  }

  function NewEntries(es: seq<Entry>, subject: string, flags: Flags): seq<Entry>
  {
    Replaced(es, subject, flags) + if Mentions(es, subject) then [] else [Entry(subject, flags)]
  }

  lemma NewLinesArePrinted(es: seq<Entry>, subject: string, flags: Flags)
    ensures NewLines(es, subject, flags) == PrintEntries(NewEntries(es, subject, flags))
  {
    PrintAppend(Replaced(es, subject, flags), if Mentions(es, subject) then [] else [Entry(subject, flags)]);
    CleanedOne(Entry(subject, flags));
  }

  lemma CleanedNew(es: seq<Entry>, subject: string, flags: Flags)
    ensures Cleaned(NewEntries(es, subject, flags)) == Cleaned(Replaced(es, subject, flags)) +
              if Mentions(es, subject) then [] else Clean(Entry(subject, flags))
  {
    CleanedAppend(Replaced(es, subject, flags), if Mentions(es, subject) then [] else [Entry(subject, flags)]);
    CleanedOne(Entry(subject, flags));
  }

  lemma CleanedOne(e: Entry)
    ensures PrintEntries([e]) == [PrintEntry(e)] && PrintEntries([]) == []
    ensures Cleaned([e]) == Clean(e) && Cleaned([]) == []
  {
    PrintOne(e);
    assert Cleaned([e]) == Clean(e) + Cleaned([]);
  }
}
