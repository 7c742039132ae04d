/** Lookup by id and removal at an index: the two list primitives every
    operation of the store is built from (Immutable's `findIndex` and
    `remove`). */
module Find {

  /** `i` is the index of the first occurrence of `x` in `s`. */
  predicate IsFirst(s: seq<string>, x: string, i: int) {
    0 <= i < |s| && s[i] == x && x !in s[..i]
  }

  /** The index of the first entry equal to `x`, or -1 when there is none. */
  function FindIndex(s: seq<string>, x: string): (r: int)
    ensures -1 <= r < |s|
    ensures r == -1 <==> x !in s
    ensures r != -1 ==> IsFirst(s, x, r)
  {
    if |s| == 0 then -1
    else if s[0] == x then 0
    else
      var k := FindIndex(s[1..], x);
      if k < 0 then -1
      else
        assert s[..k + 1] == [s[0]] + s[1..][..k];
        k + 1
  }

  /** `s` without its entry at index `i`. */
  function RemoveAt<T>(s: seq<T>, i: int): (r: seq<T>)
    requires 0 <= i < |s|
    ensures |r| == |s| - 1
    ensures forall k :: 0 <= k < i ==> r[k] == s[k]
    ensures forall k :: i <= k < |r| ==> r[k] == s[k + 1]
  {
    s[..i] + s[i + 1..]
  }

  /** Removing the entry at `i` takes exactly one copy of it out. */
  lemma RemoveAtMultiset<T>(s: seq<T>, i: int)
    requires 0 <= i < |s|
    ensures multiset(RemoveAt(s, i)) == multiset(s) - multiset{s[i]}
  {
    assert s == s[..i] + [s[i]] + s[i + 1..];
  }
}
