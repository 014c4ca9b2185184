/** The batcher: cuts the drained queue into consecutive slices of at most `size` entries. */
module Batcher {

  /** The batches joined back together, first to last. */
  function Flatten<T>(bs: seq<seq<T>>): seq<T>
  {
    if bs == [] then [] else Flatten(bs[..|bs| - 1]) + bs[|bs| - 1]
  }

  lemma {:induction false} FlattenCons<T>(b: seq<T>, bs: seq<seq<T>>)
    ensures Flatten([b] + bs) == b + Flatten(bs)
  {
    if bs != [] {
      var n := |bs|;
      assert ([b] + bs)[..n] == [b] + bs[..n - 1];
      FlattenCons(b, bs[..n - 1]);
    }
  }

  /** The batching of `sync` as a function: consecutive slices of `size` entries, the last one possibly shorter. */
  function Partition<T>(s: seq<T>, size: nat): (r: seq<seq<T>>)
    requires size >= 1
    ensures |r| <= |s|
    ensures s == [] <==> r == []
    decreases |s|
  {
    if s == [] then []
    else
      var k := if |s| < size then |s| else size;
      [s[..k]] + Partition(s[k..], size)
  }

  /**
   * The batches rebuild the input in order, none is empty or longer than `size`, and all but the
   * last are exactly `size` long.
   */
  lemma {:induction false} PartitionShape<T>(s: seq<T>, size: nat)
    requires size >= 1
    ensures var r := Partition(s, size);
            && Flatten(r) == s
            && (forall i :: 0 <= i < |r| ==> 0 < |r[i]| <= size)
            && (forall i :: 0 <= i < |r| - 1 ==> |r[i]| == size)
    decreases |s|
  {
    if s != [] {
      var k := if |s| < size then |s| else size;
      var rest := Partition(s[k..], size);
      PartitionShape(s[k..], size);
      FlattenCons(s[..k], rest);
      assert s[..k] + s[k..] == s;
      var r := Partition(s, size);
      assert r == [s[..k]] + rest;
      forall i | 0 <= i < |r|
        ensures 0 < |r[i]| <= size
      {
        if i > 0 { assert r[i] == rest[i - 1]; }
      }
      forall i | 0 <= i < |r| - 1
        ensures |r[i]| == size
      {
        if i > 0 { assert r[i] == rest[i - 1]; }
      }
    }
  }

  /** One more slice: the partition of `s` starting at offset `i` is its first slice and the rest. */
  lemma PartitionStep<T>(s: seq<T>, size: nat, i: nat)
    requires size >= 1 && i < |s|
    ensures var end := if i + size < |s| then i + size else |s|;
            Partition(s[i..], size) == [s[i..end]] + Partition(s[end..], size)
  {
    var end := if i + size < |s| then i + size else |s|;
    assert s[i..][..end - i] == s[i..end];
    assert s[i..][end - i..] == s[end..];
  }

  /** The entries from offset `i` on, empty past the end. */
  function Suffix<T>(s: seq<T>, i: nat): (r: seq<T>)
    ensures |r| == if i < |s| then |s| - i else 0
  {
    if i < |s| then s[i..] else []
  }

  /** At most `size` entries from offset `i`, clamped to the end. */
  function Slice<T>(s: seq<T>, i: nat, size: nat): (r: seq<T>)
    requires i <= |s|
    ensures |r| <= size && (i + size <= |s| ==> |r| == size)
  {
    if i + size < |s| then s[i..i + size] else s[i..]
  }

  /** The batching loop's invariant survives one more slice starting at offset `i`. */
  lemma PartitionAdvance<T>(s: seq<T>, size: nat, i: nat, done: seq<seq<T>>)
    requires size >= 1 && i < |s|
    requires done + Partition(Suffix(s, i), size) == Partition(s, size)
    ensures done + [Slice(s, i, size)] + Partition(Suffix(s, i + size), size) == Partition(s, size)
  {
    var end := if i + size < |s| then i + size else |s|;
    PartitionStep(s, size, i);
    assert Slice(s, i, size) == s[i..end];
    assert Suffix(s, i + size) == s[end..];
    assert done + [s[i..end]] + Partition(s[end..], size) == done + ([s[i..end]] + Partition(s[end..], size));
  }

  /** Twenty-five entries in batches of ten: three batches of 10, 10 and 5, in order. */
  lemma TwentyFiveInTens<T>(s: seq<T>)
    requires |s| == 25
    ensures Partition(s, 10) == [s[..10], s[10..20], s[20..]]
  {
    PartitionStep(s, 10, 0);
    PartitionStep(s, 10, 10);
    PartitionStep(s, 10, 20);
    assert s[0..] == s;
    assert s[25..] == [];
    assert Partition(s[20..], 10) == [s[20..25]];
    assert s[20..25] == s[20..];
    assert Partition(s[10..], 10) == [s[10..20], s[20..]];
  }
}
