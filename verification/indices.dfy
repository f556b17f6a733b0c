/** Widening of a glTF index accessor's raw bytes into 32-bit vertex
    indices. The loader switches on the accessor's element stride inside
    its per-index loop: strides of 1, 2, 4 and 8 bytes each append one
    index, any other stride appends nothing. */
module Indices {
  import opened Types

  predicate SupportedStride(stride: nat)
  {
    stride == 1 || stride == 2 || stride == 4 || stride == 8
  }

  /** The `i`-th little-endian integer of width `stride` in `data`. */
  function ReadIndex(data: seq<byte>, stride: nat, i: nat): nat
    requires (i + 1) * stride <= |data|
  {
    LeValue(data[i * stride .. (i + 1) * stride])
  }

  /** What one iteration of the loop appends for index `i`: the value read
      at the stride's width, converted to `uint32_t` (which keeps the low 32
      bits of an 8-byte index and changes nothing for the narrower ones). */
  function WidenOne(data: seq<byte>, stride: nat, i: nat): seq<uint32>
    requires SupportedStride(stride) ==> (i + 1) * stride <= |data|
  {
    match stride
    case 1 => [ToUint32(ReadIndex(data, 1, i))]
    case 2 => [ToUint32(ReadIndex(data, 2, i))]
    case 4 => [ToUint32(ReadIndex(data, 4, i))]
    case 8 => [ToUint32(ReadIndex(data, 8, i))]
    case _ => []
  }

  /** The indices appended by the first `count` iterations. */
  function Widen(data: seq<byte>, stride: nat, count: nat): (r: seq<uint32>)
    requires SupportedStride(stride) ==> count * stride <= |data|
    ensures |r| == if SupportedStride(stride) then count else 0
  {
    if count == 0 then []
    else Widen(data, stride, count - 1) + WidenOne(data, stride, count - 1)
  }

  lemma MulMono(a: nat, b: nat, s: nat)
    requires a <= b
    ensures a * s <= b * s
  {
  }

  /** An index read at a width of at most 4 bytes already fits in 32 bits. */
  lemma ReadIndexNarrow(data: seq<byte>, stride: nat, i: nat)
    requires stride == 1 || stride == 2 || stride == 4
    requires (i + 1) * stride <= |data|
    ensures ReadIndex(data, stride, i) < 0x1_0000_0000
  {
    LeValueBound(data[i * stride .. (i + 1) * stride]);
    assert Pow256(1) == 0x100;
    assert Pow256(2) == 0x1_0000;
    assert Pow256(4) == 0x1_0000_0000;
  }

  /** Element by element: index `i` of the output is the `i`-th input
      integer reduced modulo 2^32. */
  lemma {:induction false} WidenElements(data: seq<byte>, stride: nat, count: nat)
    requires SupportedStride(stride)
    requires count * stride <= |data|
    ensures forall i :: 0 <= i < count ==> Widen(data, stride, count)[i] == ToUint32(ReadIndex(data, stride, i))
  {
    if count > 0 {
      MulMono(count - 1, count, stride);
      WidenElements(data, stride, count - 1);
      var prev := Widen(data, stride, count - 1);
      assert WidenOne(data, stride, count - 1) == [ToUint32(ReadIndex(data, stride, count - 1))];
      assert Widen(data, stride, count) == prev + [ToUint32(ReadIndex(data, stride, count - 1))];
    }
  }

  /** For strides of at most 4 bytes the widened indices are the input
      integers themselves. */
  lemma {:induction false} WidenNarrowExact(data: seq<byte>, stride: nat, count: nat)
    requires stride == 1 || stride == 2 || stride == 4
    requires count * stride <= |data|
    ensures forall i :: 0 <= i < count ==> Widen(data, stride, count)[i] == ReadIndex(data, stride, i)
  {
    WidenElements(data, stride, count);
    forall i | 0 <= i < count
      ensures Widen(data, stride, count)[i] == ReadIndex(data, stride, i)
    {
      MulMono(i + 1, count, stride);
      ReadIndexNarrow(data, stride, i);
    }
  }

  /** The loader's loop, as a method: `count` iterations of the stride
      switch. */
  method WidenIndices(data: seq<byte>, stride: nat, count: nat) returns (indices: seq<uint32>)
    requires SupportedStride(stride) ==> count * stride <= |data|
    ensures |indices| == if SupportedStride(stride) then count else 0
    ensures SupportedStride(stride) ==>
              forall i :: 0 <= i < count ==> indices[i] == ToUint32(ReadIndex(data, stride, i))
  {
    indices := [];
    var i := 0;
    while i < count
      invariant 0 <= i <= count
      invariant |indices| == if SupportedStride(stride) then i else 0
      invariant SupportedStride(stride) ==>
                  forall k :: 0 <= k < i ==> indices[k] == ToUint32(ReadIndex(data, stride, k))
    {
      if SupportedStride(stride) {
        MulMono(i + 1, count, stride);
      }
      match stride {
        case 1 => indices := indices + [ToUint32(ReadIndex(data, 1, i))];
        case 2 => indices := indices + [ToUint32(ReadIndex(data, 2, i))];
        case 4 => indices := indices + [ToUint32(ReadIndex(data, 4, i))];
        case 8 => indices := indices + [ToUint32(ReadIndex(data, 8, i))];
        case _ =>
      }
      i := i + 1;
    }
  }

  /** Lays out `xs` as consecutive little-endian integers of `width` bytes,
      the way an index accessor stores them. */
  function EncodeIndices(xs: seq<nat>, width: nat): (r: seq<byte>)
    ensures |r| == |xs| * width
  {
    if |xs| == 0 then []
    else EncodeIndices(xs[..|xs| - 1], width) + LeBytes(xs[|xs| - 1], width)
  }

  lemma MulSucc(a: nat, s: nat)
    ensures (a + 1) * s == a * s + s
  {
  }

  lemma SliceOfFront(a: seq<byte>, b: seq<byte>, lo: nat, hi: nat)
    requires lo <= hi <= |a|
    ensures (a + b)[lo..hi] == a[lo..hi]
  {
  }

  /** The bounds of the `i`-th slice of an `n`-element encoding. */
  lemma SliceBounds(i: nat, n: nat, width: nat)
    requires i < n
    ensures 0 <= i * width
    ensures (i + 1) * width == i * width + width
    ensures (n - 1) * width + width == n * width
    ensures i < n - 1 ==> (i + 1) * width <= (n - 1) * width
  {
    MulSucc(i, width);
    MulSucc(n - 1, width);
    if i < n - 1 {
      MulMono(i + 1, n - 1, width);
    }
  }

  lemma {:induction false} EncodeSlice(xs: seq<nat>, width: nat, i: nat)
    requires i < |xs|
    ensures (i + 1) * width <= |EncodeIndices(xs, width)|
    ensures EncodeIndices(xs, width)[i * width .. (i + 1) * width] == LeBytes(xs[i], width)
  {
    var n := |xs|;
    var front := EncodeIndices(xs[..n - 1], width);
    var last := LeBytes(xs[n - 1], width);
    assert EncodeIndices(xs, width) == front + last;
    SliceBounds(i, n, width);
    if i == n - 1 {
      assert (front + last)[|front|..|front| + |last|] == last;
    } else {
      EncodeSlice(xs[..n - 1], width, i);
      assert xs[..n - 1][i] == xs[i];
      SliceOfFront(front, last, i * width, (i + 1) * width);
    }
  }

  /** Round trip: encoding indices at any supported width and widening them
      back yields each index modulo 2^32, and exactly the original sequence
      for the 1-, 2- and 4-byte widths. */
  lemma {:induction false} IndexRoundTrip(xs: seq<nat>, width: nat)
    requires SupportedStride(width)
    requires forall k :: 0 <= k < |xs| ==> xs[k] < Pow256(width)
    ensures forall k :: 0 <= k < |xs| ==> Widen(EncodeIndices(xs, width), width, |xs|)[k] == ToUint32(xs[k])
    ensures width <= 4 ==> Widen(EncodeIndices(xs, width), width, |xs|) == xs
  {
    var data := EncodeIndices(xs, width);
    var r := Widen(data, width, |xs|);
    WidenElements(data, width, |xs|);
    forall k | 0 <= k < |xs|
      ensures ReadIndex(data, width, k) == xs[k]
    {
      EncodeSlice(xs, width, k);
      LeRoundTrip(xs[k], width);
    }
    if width <= 4 {
      assert Pow256(1) == 0x100;
      assert Pow256(2) == 0x1_0000;
      assert Pow256(4) == 0x1_0000_0000;
      assert forall k :: 0 <= k < |xs| ==> r[k] == xs[k];
    }
  }
}
