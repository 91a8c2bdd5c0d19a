/** The array operations the selection handlers use (`indexOf`, `splice`,
    spread-append), stated on sequences. */
module Seqs {

  /** No element occurs twice. */
  predicate NoDup<T(==)>(s: seq<T>) {
    forall i, j :: 0 <= i < j < |s| ==> s[i] != s[j]
  }

  /** `Array.prototype.indexOf`: the first position of `x` in `s`, or -1. */
  function IndexOf<T(==)>(s: seq<T>, x: T): (i: int)
    ensures -1 <= i < |s|
    ensures i == -1 <==> x !in s
    ensures 0 <= i ==> s[i] == x && x !in s[..i]
  {
    if |s| == 0 then -1
    else if s[0] == x then 0
    else
      var j := IndexOf(s[1..], x);
      if j == -1 then -1
      else
        assert s[..j + 1] == [s[0]] + s[1..][..j];
        j + 1
  }

  /** `splice(i, 1)` followed by `slice()`: `s` without its element at `i`. */
  function RemoveAt<T>(s: seq<T>, i: nat): (r: seq<T>)
    requires i < |s|
    ensures |r| == |s| - 1
    ensures forall k :: 0 <= k < i ==> r[k] == s[k]
    ensures forall k :: i <= k < |r| ==> r[k] == s[k + 1]
    ensures multiset(r) == multiset(s) - multiset{s[i]}
  {
    assert s == s[..i] + [s[i]] + s[i + 1..];
    s[..i] + s[i + 1..]
  }

  /** The ctrl-click toggle shared by both click handlers: append `x` when it
      is absent, otherwise cut out its first occurrence. */
  function Toggle<T(==)>(s: seq<T>, x: T): (r: seq<T>)
    ensures x !in s ==> r == s + [x]
    ensures x in s ==> multiset(r) == multiset(s) - multiset{x}
    ensures x in s ==> exists i :: 0 <= i < |s| && s[i] == x && x !in s[..i] && r == s[..i] + s[i + 1..]
  {
    var index := IndexOf(s, x);
    if index == -1 then s + [x]
    else
      assert s[..index] + s[index + 1..] == RemoveAt(s, index);
      RemoveAt(s, index)
  }

  /** The toggle of a present element cuts out its first occurrence. */
  lemma ToggleCutsFirst<T>(s: seq<T>, x: T)
    requires x in s
    ensures var i := IndexOf(s, x); Toggle(s, x) == s[..i] + s[i + 1..]
  {
  }

  /** On a duplicate-free sequence the toggle is a symmetric difference on
      members and keeps the sequence duplicate-free. */
  lemma ToggleMembers<T>(s: seq<T>, x: T)
    requires NoDup(s)
    ensures NoDup(Toggle(s, x))
    ensures forall y :: y in Toggle(s, x) <==> (y in s) != (y == x)
  {
    if x !in s {
      var r := s + [x];
      assert forall k :: 0 <= k < |s| ==> r[k] == s[k];
    } else {
      var i := IndexOf(s, x);
      var r := RemoveAt(s, i);
      assert Toggle(s, x) == r;
      forall y | y in r
        ensures y in s && y != x
      {
        var k :| 0 <= k < |r| && r[k] == y;
        if k < i { assert s[k] == y; } else { assert s[k + 1] == y; }
      }
      forall y | y in s && y != x
        ensures y in r
      {
        var k :| 0 <= k < |s| && s[k] == y;
        if k < i { assert r[k] == y; } else { assert r[k - 1] == y; }
      }
    }
  }

  /** Toggling an absent element twice gives back the original sequence,
      whatever it holds. */
  lemma ToggleTwiceAbsent<T>(s: seq<T>, x: T)
    requires x !in s
    ensures Toggle(Toggle(s, x), x) == s
  {
  }
}
