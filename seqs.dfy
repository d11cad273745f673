/** Small facts about integers and sequences of sequences used by the dump model. */
module Seqs {

  function Min(a: int, b: int): int { if a <= b then a else b }

  function Max(a: int, b: int): int { if a >= b then a else b }

  /** Concatenation is associative. */
  lemma AppendAssoc<T>(a: seq<T>, b: seq<T>, c: seq<T>)
    ensures a + (b + c) == (a + b) + c
  {
  }

  /** A slice splits at any point inside it. */
  lemma SliceSplit<T>(s: seq<T>, i: nat, j: nat, k: nat)
    requires i <= j <= k <= |s|
    ensures s[i..k] == s[i..j] + s[j..k]
  {
  }

  /** The concatenation of `parts`, in order. */
  function Flatten<T>(parts: seq<seq<T>>): seq<T>
  {
    if parts == [] then [] else parts[0] + Flatten(parts[1..])
  }

  /** Flattening distributes over concatenation of the parts. */
  lemma {:induction false} FlattenAppend<T>(a: seq<seq<T>>, b: seq<seq<T>>)
    ensures Flatten(a + b) == Flatten(a) + Flatten(b)
  {
    if a == [] {
      assert a + b == b;
    } else {
      assert (a + b)[1..] == a[1..] + b;
      FlattenAppend(a[1..], b);
    }
  }

  /** When every part has exactly two elements, part `k` sits at positions `2k` and `2k+1`. */
  lemma {:induction false} FlattenPairs<T>(parts: seq<seq<T>>)
    requires forall k :: 0 <= k < |parts| ==> |parts[k]| == 2
    ensures |Flatten(parts)| == 2 * |parts|
    ensures forall k :: 0 <= k < |parts| ==>
              Flatten(parts)[2 * k] == parts[k][0] && Flatten(parts)[2 * k + 1] == parts[k][1]
  {
    if parts != [] {
      FlattenPairs(parts[1..]);
      var rest := Flatten(parts[1..]);
      assert Flatten(parts) == parts[0] + rest;
      forall k | 1 <= k < |parts|
        ensures Flatten(parts)[2 * k] == parts[k][0] && Flatten(parts)[2 * k + 1] == parts[k][1]
      {
        assert parts[1..][k - 1] == parts[k];
        assert Flatten(parts)[2 * k] == rest[2 * (k - 1)];
        assert Flatten(parts)[2 * k + 1] == rest[2 * (k - 1) + 1];
      }
    }
  }
}
