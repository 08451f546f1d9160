/** Small facts about sequences shared by the whole project. */
module Sequences {

  function Elems<T(==)>(s: seq<T>): set<T> {
    set x | x in s
  }

  /** The first place at which a value occurs. */
  function IndexOf<T(==)>(s: seq<T>, x: T): (i: nat)
    requires x in s
    ensures i < |s| && s[i] == x && x !in s[..i]
  {
    if s[0] == x then 0 else
      var i := IndexOf(s[1..], x);
      assert s[..i + 1] == [s[0]] + s[1..][..i];
      i + 1
  }

  function Reversed<T>(s: seq<T>): (r: seq<T>)
    ensures |r| == |s| && forall i :: 0 <= i < |s| ==> r[i] == s[|s| - 1 - i]
  {
    seq(|s|, i requires 0 <= i < |s| => s[|s| - 1 - i])
  }

  // ---------------------------------------------------------------- places in a list

  /** The places in `s`, in ascending order. */
  ghost predicate Places(at: seq<nat>, s: set<nat>) {
    (forall i, j :: 0 <= i < j < |at| ==> at[i] < at[j]) && forall i :: i in at <==> i in s
  }

  lemma PlacesSnoc(at: seq<nat>, s: set<nat>, n: nat)
    requires Places(at, s) && forall i :: i in s ==> i < n
    ensures Places(at + [n], s + {n})
  {
    assert forall i :: 0 <= i < |at| ==> at[i] in at;
  }

  // ---------------------------------------------------------------- numbers as text

  function Digit(n: nat): char
    requires n < 10
  {
    '0' + n as char
  }

  function Decimal(n: nat): string {
    if n < 10 then [Digit(n)] else Decimal(n / 10) + [Digit(n % 10)]
  }
}
