/** Small things that several modules share. */
module Common {

  datatype Option<T> = None | Some(value: T)

  /** What isspace accepts. */
  predicate IsSpace(c: char) { c == ' ' || '\t' <= c <= '\r' }

  lemma Regroup<T>(a: seq<T>, b: seq<T>, c: seq<T>)
    ensures a + (b + c) == a + b + c
  {
  }

  function Map<T, U>(f: T -> U, s: seq<T>): seq<U> { seq(|s|, i requires 0 <= i < |s| => f(s[i])) }

  lemma MapAppend<T, U>(f: T -> U, a: seq<T>, b: seq<T>)
    ensures Map(f, a + b) == Map(f, a) + Map(f, b)
  {
  }

  lemma MapOne<T, U>(f: T -> U, x: T)
    ensures Map(f, [x]) == [f(x)] && Map(f, []) == []
  {
  }
}
