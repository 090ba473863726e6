/** Sequence facts and result types shared by the component models. */
module Seqs {

  datatype Option<+T> = None | Some(value: T)

  datatype Result<+T, +E> = Ok(value: T) | Err(error: E)

  ghost predicate Distinct<T>(s: seq<T>) {
    forall i, j :: 0 <= i < j < |s| ==> s[i] != s[j]
  }

  function ToSet<T(==)>(s: seq<T>): set<T> {
    set x | x in s
  }

  /** The newest `n` elements of `s`, or all of them when there are fewer. */
  function Newest<T>(s: seq<T>, n: nat): seq<T> {
    if |s| <= n then s else s[|s| - n..]
  }

  function Min(a: int, b: int): int {
    if a <= b then a else b
  }

  /** What dropping the oldest entry does to the set of entries. */
  lemma OldestExpires<T>(order: seq<T>)
    requires Distinct(order) && order != []
    ensures ToSet(order[1..]) == ToSet(order) - {order[0]} && Distinct(order[1..])
  {
    assert order == [order[0]] + order[1..];
  }

  lemma OneMore<T>(done: seq<T>, x: T, rest: seq<T>)
    ensures done + ([x] + rest) == (done + [x]) + rest
  {
  }

  lemma Prepended<T>(x: T, a: seq<T>, y: T, b: seq<T>)
    ensures [x] + (a + [y] + b) == ([x] + a) + [y] + b
  {
  }

  lemma LastOf<T>(a: seq<T>, b: seq<T>)
    requires b != []
    ensures var m := |b| - 1; a + b == (a + b[..m]) + [b[m]]
  {
  }

  lemma StillPrefix<T>(x: seq<T>, y: seq<T>, c: T)
    requires x <= y
    ensures x <= y + [c]
  {
  }

  lemma Reassociate<T>(done: seq<T>, todo: seq<T>)
    requires todo != []
    ensures todo == [todo[0]] + todo[1..] && done + todo == (done + [todo[0]]) + todo[1..]
  {
  }

  lemma PrefixSplit<T>(x: seq<T>, y: seq<T>)
    requires x <= y
    ensures y == x + y[|x|..]
  {
  }
}
