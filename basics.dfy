/** Small value types shared by the other modules: an optional value, a result
    that is either a value or an error, and concatenation of a sequence of strings. */
module Basics {

  datatype Option<+T> = None | Some(value: T)

  datatype Result<+T, +E> = Success(value: T) | Failure(error: E)

  /** The characters of all the pieces, in order. */
  function Concat(pieces: seq<seq<char>>): (s: seq<char>)
    ensures pieces == [] ==> s == []
  {
    if pieces == [] then [] else pieces[0] + Concat(pieces[1..])
  }

  /** Appending one piece at the end appends its characters at the end. */
  lemma {:induction false} ConcatAppend(pieces: seq<seq<char>>, last: seq<char>)
    ensures Concat(pieces + [last]) == Concat(pieces) + last
  {
    if pieces == [] {
      assert pieces + [last] == [last];
    } else {
      assert (pieces + [last])[1..] == pieces[1..] + [last];
      ConcatAppend(pieces[1..], last);
    }
  }

  /** Concatenation distributes over joining two sequences of pieces. */
  lemma {:induction false} ConcatJoin(a: seq<seq<char>>, b: seq<seq<char>>)
    ensures Concat(a + b) == Concat(a) + Concat(b)
  {
    if a == [] {
      assert a + b == b;
    } else {
      assert (a + b)[1..] == a[1..] + b;
      ConcatJoin(a[1..], b);
    }
  }
}
