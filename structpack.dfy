/** The part of Python's `struct` module the core uses: unsigned integer
    fields of 1, 2, 4 and 8 bytes (`B`, `H`, `I`, `Q`) and the 16-byte text
    field `16s`. Byte order is little-endian: `'<I'` asks for it explicitly,
    and the format strings without a prefix are packed in the host's order,
    which this model takes to be little-endian (every record laid out here
    is naturally aligned, so native alignment inserts no padding). */
module StructPack {
  import opened Outcomes
  import opened PyInt

  /** `n` little-endian bytes of `v`: byte `k` is `(v >> 8k) & 0xFF`. */
  function LE(v: nat, n: nat): (r: seq<Byte>)
    ensures |r| == n
  {
    if n == 0 then [] else [v % 256] + LE(v / 256, n - 1)
  }

  /** Reads little-endian bytes back into an integer. */
  function FromLE(b: seq<Byte>): nat {
    if |b| == 0 then 0 else b[0] + 256 * FromLE(b[1..])
  }

  /** `struct.pack` of one unsigned field of `n` bytes: struct.error unless
      `0 <= v < 2^(8n)`. */
  function PackUnsigned(v: int, n: nat): (r: Result<seq<Byte>>)
    ensures r.Ok? <==> 0 <= v < Pow2(8 * n)
    ensures r.Ok? ==> |r.value| == n
    ensures r.Err? ==> r.error == StructError
  {
    if 0 <= v < Pow2(8 * n) then Ok(LE(v, n)) else Err(StructError)
  }

  /** Reading the packed bytes back gives the value. */
  lemma PackUnsignedRoundTrip(v: int, n: nat)
    requires PackUnsigned(v, n).Ok?
    ensures FromLE(PackUnsigned(v, n).value) == v
  {
    LEFromLE(v, n);
  }

  /** Byte `k` of the packing is bits `8k .. 8k+7` of the value. */
  lemma {:induction false} LEByte(v: nat, n: nat, k: nat)
    requires k < n
    ensures LE(v, n)[k] == (v / Pow2(8 * k)) % 256
    decreases k
  {
    if k > 0 {
      LEByte(v / 256, n - 1, k - 1);
      assert Pow2(8 * k) == 256 * Pow2(8 * (k - 1)) by { Pow2Add(8, 8 * (k - 1)); }
      DivDiv(v, 256, Pow2(8 * (k - 1)));
    }
  }

  lemma {:induction false} LEFromLE(v: nat, n: nat)
    requires v < Pow2(8 * n)
    ensures FromLE(LE(v, n)) == v
  {
    if n > 0 {
      var p := Pow2(8 * (n - 1));
      assert Pow2(8 * n) == 256 * p by { Pow2Add(8, 8 * (n - 1)); }
      DivBelow(v, 256, p);
      LEFromLE(v / 256, n - 1);
      var b := LE(v, n);
      assert b[0] == v % 256 && b[1..] == LE(v / 256, n - 1);
    }
  }

  /** A value below `d * p` has quotient below `p`. */
  lemma DivBelow(v: nat, d: nat, p: nat)
    requires d > 0 && v < d * p
    ensures v / d < p
  {
    if v / d >= p {
      assert d * (v / d) >= d * p by { MulMonotone(d, p, v / d); }
    }
  }

  lemma MulMonotone(d: nat, a: nat, b: nat)
    requires a <= b
    ensures d * a <= d * b
  {
    assert d * b == d * a + d * (b - a);
  }

  /** `struct.pack('16s', s.encode())`: the UTF-8 bytes cut to 16 and padded
      with zero bytes. Over-long text is truncated without an error. */
  function PackChar16(text: seq<Byte>): (r: seq<Byte>)
    ensures |r| == 16
    ensures forall i :: 0 <= i < 16 ==> r[i] == if i < |text| then text[i] else 0
  {
    if |text| >= 16 then text[..16] else text + seq(16 - |text|, _ => 0)
  }
}
