/** Small definitions shared by the other modules. */
module Prelude {

  datatype Option<+T> = None | Some(value: T) {
    function GetOr(default: T): T {
      if Some? then value else default
    }
  }

  // ---- Sequences -------------------------------------------------------------------------------

  lemma Append3<T>(x: seq<T>, y: seq<T>, z: seq<T>)
    ensures (x + y) + z == x + (y + z)
  {
  }

  function FindFrom(s: string, c: char, from: nat): (i: nat)
    requires from <= |s|
    ensures from <= i <= |s| && (i < |s| ==> s[i] == c) && (forall k :: from <= k < i ==> s[k] != c)
    decreases |s| - from
  {
    if from == |s| || s[from] == c then from else FindFrom(s, c, from + 1)
  }

  /** Position of the first `c`, or the length. */
  function Find(s: string, c: char): (i: nat)
    ensures i <= |s| && (i < |s| ==> s[i] == c) && (forall k :: 0 <= k < i ==> s[k] != c)
  {
    FindFrom(s, c, 0)
  }

  /** First occurrences, in order. */
  function Dedup<T(==)>(values: seq<T>): seq<T> {
    if values == [] then []
    else
      var n := |values| - 1;
      Dedup(values[..n]) + (if values[n] in values[..n] then [] else [values[n]])
  }

  function FirstIndex<T(==)>(values: seq<T>, v: T): (k: nat)
    requires v in values
    ensures k < |values| && values[k] == v && v !in values[..k]
  {
    if values[0] == v then 0
    else
      assert values == [values[0]] + values[1..];
      var k := FirstIndex(values[1..], v);
      assert values[..k + 1] == [values[0]] + values[1..][..k];
      k + 1
  }

  /** Every value once, ordered by where it first occurs. */
  ghost predicate FirstUses<T(!new)>(values: seq<T>, r: seq<T>) {
    && (forall v :: v in r <==> v in values)
    && (forall a, b :: 0 <= a < b < |r| ==>
          r[a] in values && r[b] in values && FirstIndex(values, r[a]) < FirstIndex(values, r[b]))
  }

  lemma FirstIndexIs<T>(values: seq<T>, v: T, k: nat)
    requires k < |values| && values[k] == v && v !in values[..k]
    ensures FirstIndex(values, v) == k
  {
    var j := FirstIndex(values, v);
    assert !(j < k) && !(k < j);
  }

  lemma FirstIndexOfPrefix<T>(values: seq<T>, n: nat, v: T)
    requires n <= |values| && v in values[..n]
    ensures v in values && FirstIndex(values, v) == FirstIndex(values[..n], v)
  {
    var j := FirstIndex(values[..n], v);
    assert values[..n][..j] == values[..j] && values[j] == v;
    FirstIndexIs(values, v, j);
  }

  lemma {:induction false} DedupIsFirstUses<T(!new)>(values: seq<T>)
    ensures FirstUses(values, Dedup(values))
  {
    if values != [] {
      var n := |values| - 1;
      var before := Dedup(values[..n]);
      DedupIsFirstUses(values[..n]);
      assert values == values[..n] + [values[n]];
      forall v | v in before
        ensures FirstIndex(values, v) == FirstIndex(values[..n], v) < n
      {
        FirstIndexOfPrefix(values, n, v);
      }
      if values[n] !in values[..n] {
        var k := FirstIndex(values, values[n]);
        assert !(k < n);
      }
    }
  }

  lemma {:induction false} DedupEmpty<T(!new)>(values: seq<T>)
    ensures Dedup(values) == [] <==> values == []
  {
    DedupIsFirstUses(values);
    if values != [] {
      assert values[0] in Dedup(values);
    }
  }
}
