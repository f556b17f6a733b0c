/** Fixed-width integers, an Option type and little-endian byte encoding,
    shared by every other module of the model. C++ integer widths are
    modelled as subset types of `int`; every implicit narrowing conversion
    of the source is written out with `ToUint16`, `ToUint32` or `ToInt32`. */
module Types {

  type byte = x: int | 0 <= x < 0x100
  type uint16 = x: int | 0 <= x < 0x1_0000
  type uint32 = x: int | 0 <= x < 0x1_0000_0000
  type int32 = x: int | -0x8000_0000 <= x < 0x8000_0000

  datatype Option<+T> = None | Some(value: T)

  /** Conversion of any integer to `uint16_t` (keeps the low 16 bits). */
  function ToUint16(x: int): (r: uint16)
    ensures 0 <= x < 0x1_0000 ==> r == x
    ensures (x - r) % 0x1_0000 == 0
  {
    x % 0x1_0000
  }

  /** Conversion of any integer to `uint32_t` (keeps the low 32 bits). */
  function ToUint32(x: int): (r: uint32)
    ensures 0 <= x < 0x1_0000_0000 ==> r == x
    ensures (x - r) % 0x1_0000_0000 == 0
  {
    x % 0x1_0000_0000
  }

  /** Conversion of any integer to `int32_t`: two's complement wrap-around. */
  function ToInt32(x: int): (r: int32)
    ensures -0x8000_0000 <= x < 0x8000_0000 ==> r == x
    ensures (x - r) % 0x1_0000_0000 == 0
  {
    var u := x % 0x1_0000_0000;
    if u < 0x8000_0000 then u else u - 0x1_0000_0000
  }

  /** Reading a `uint32_t` back as `int` and storing an `int` into a
      `uint32_t` are inverse to each other. */
  lemma Int32Uint32RoundTrip(w: int32, u: uint32)
    ensures ToUint32(ToInt32(u)) == u
    ensures ToInt32(ToUint32(w)) == w
    ensures ToInt32(u) == w <==> u == ToUint32(w)
  {
  }

  function Pow256(n: nat): (r: nat)
    ensures r > 0
  {
    if n == 0 then 1 else 256 * Pow256(n - 1)
  }

  /** The value of a little-endian byte string (the byte order of every
      target the demo is built for). */
  function LeValue(bs: seq<byte>): nat
  {
    if |bs| == 0 then 0 else bs[0] + 256 * LeValue(bs[1..])
  }

  /** The `n` low bytes of `v`, least significant first. */
  function LeBytes(v: nat, n: nat): (r: seq<byte>)
    ensures |r| == n
  {
    if n == 0 then [] else [v % 256] + LeBytes(v / 256, n - 1)
  }

  lemma {:induction false} LeValueBound(bs: seq<byte>)
    ensures LeValue(bs) < Pow256(|bs|)
  {
    if |bs| > 0 {
      LeValueBound(bs[1..]);
      var rest := LeValue(bs[1..]);
      assert rest + 1 <= Pow256(|bs| - 1);
      assert 256 * rest + 256 <= 256 * Pow256(|bs| - 1);
    }
  }

  /** Encoding a value that fits into `n` bytes and reading it back is the
      identity. */
  lemma {:induction false} LeRoundTrip(v: nat, n: nat)
    requires v < Pow256(n)
    ensures LeValue(LeBytes(v, n)) == v
  {
    if n > 0 {
      var bs := LeBytes(v, n);
      assert bs[1..] == LeBytes(v / 256, n - 1);
      assert v / 256 < Pow256(n - 1);
      LeRoundTrip(v / 256, n - 1);
    }
  }
}
