/** Fixed-width little-endian fields and presence bits, as the snapshot formats use them. */
module LittleEndian {
  import opened Basics

  const U32: nat := 0x1_0000_0000
  const U64: nat := 0x1_0000_0000_0000_0000

  function Pow256(width: nat): nat {
    if width == 0 then 1 else 256 * Pow256(width - 1)
  }

  lemma PowConstants()
    ensures Pow256(4) == U32 && Pow256(8) == U64
  {
    assert Pow256(2) == 65536 && Pow256(4) == U32 && Pow256(6) == 65536 * U32;
  }

  function Le(value: nat, width: nat): (s: Bytes)
    ensures |s| == width
  {
    if width == 0 then [] else [value % 256] + Le(value / 256, width - 1)
  }

  function FromLe(s: Bytes): nat {
    if s == [] then 0 else s[0] + 256 * FromLe(s[1..])
  }

  lemma {:induction false} LeRoundTrip(value: nat, width: nat)
    requires value < Pow256(width)
    ensures FromLe(Le(value, width)) == value
  {
    if width > 0 {
      LeRoundTrip(value / 256, width - 1);
      assert Le(value, width)[1..] == Le(value / 256, width - 1);
    }
  }

  lemma {:induction false} FromLeRoundTrip(s: Bytes)
    ensures FromLe(s) < Pow256(|s|) && Le(FromLe(s), |s|) == s
  {
    if s != [] {
      FromLeRoundTrip(s[1..]);
      assert FromLe(s) % 256 == s[0] && FromLe(s) / 256 == FromLe(s[1..]);
    }
  }

  // ------------------------------------------------------------------- fields

  /** Where field `k` starts. */
  function Offset(widths: seq<nat>, k: nat): nat
    requires k <= |widths|
  {
    if k == 0 then 0 else Offset(widths, k - 1) + widths[k - 1]
  }

  /** The first `n` fields, one after the other. */
  function Fields(widths: seq<nat>, values: seq<nat>, n: nat): (s: Bytes)
    requires n <= |widths| && n <= |values|
    ensures |s| == Offset(widths, n)
  {
    if n == 0 then [] else Fields(widths, values, n - 1) + Le(values[n - 1], widths[n - 1])
  }

  lemma {:induction false} OffsetGrows(widths: seq<nat>, k: nat, n: nat)
    requires k <= n <= |widths|
    ensures Offset(widths, k) <= Offset(widths, n)
    decreases n - k
  {
    if k < n {
      OffsetGrows(widths, k, n - 1);
    }
  }

  /** The value of field `k`, or zero when the bytes end before it. */
  function Field(s: Bytes, widths: seq<nat>, k: nat): nat
    requires k < |widths|
  {
    if Offset(widths, k + 1) <= |s| then FromLe(s[Offset(widths, k)..Offset(widths, k + 1)]) else 0
  }

  lemma {:induction false} FieldOf(widths: seq<nat>, values: seq<nat>, n: nat, k: nat)
    requires k < n <= |widths| && n <= |values| && values[k] < Pow256(widths[k])
    ensures Field(Fields(widths, values, n), widths, k) == values[k]
    decreases n
  {
    OffsetGrows(widths, k + 1, n);
    var s := Fields(widths, values, n);
    if k == n - 1 {
      assert s[Offset(widths, k)..Offset(widths, k + 1)] == Le(values[k], widths[k]);
      LeRoundTrip(values[k], widths[k]);
    } else {
      OffsetGrows(widths, k + 1, n - 1);
      FieldOf(widths, values, n - 1, k);
      assert s[Offset(widths, k)..Offset(widths, k + 1)]
          == Fields(widths, values, n - 1)[Offset(widths, k)..Offset(widths, k + 1)];
    }
  }

  /** Where field `k` of a header is, whatever follows the header. */
  lemma {:induction false} FieldBytes(widths: seq<nat>, values: seq<nat>, n: nat, k: nat, rest: Bytes)
    requires k < n <= |widths| && n <= |values|
    ensures Offset(widths, k + 1) == Offset(widths, k) + widths[k] <= Offset(widths, n)
    ensures (Fields(widths, values, n) + rest)[Offset(widths, k)..Offset(widths, k) + widths[k]] == Le(values[k], widths[k])
    decreases n
  {
    OffsetGrows(widths, k + 1, n);
    var last := Le(values[n - 1], widths[n - 1]);
    assert Fields(widths, values, n) + rest == Fields(widths, values, n - 1) + (last + rest);
    if k < n - 1 {
      FieldBytes(widths, values, n - 1, k, last + rest);
    }
  }

  /** A word that fits in a byte. */
  lemma SmallWord(value: nat)
    requires value < 256
    ensures Le(value, 4) == [value, 0, 0, 0]
  {
    assert Le(0, 1) == [0];
    assert Le(0, 2) == [0, 0];
    assert Le(0, 3) == [0, 0, 0];
  }

  lemma SlicesJoin(s: Bytes, a: nat, b: nat)
    requires a <= b <= |s|
    ensures s[..b] == s[..a] + s[a..b]
  {
  }

  /** Reading the fields of anything and writing them back changes nothing. */
  lemma {:induction false} FieldsOf(s: Bytes, widths: seq<nat>, values: seq<nat>, n: nat)
    requires n <= |widths| && n <= |values| && Offset(widths, n) <= |s|
    requires forall k | 0 <= k < n :: values[k] == Field(s, widths, k)
    ensures Fields(widths, values, n) == s[..Offset(widths, n)]
  {
    if n > 0 {
      var a, b := Offset(widths, n - 1), Offset(widths, n);
      FieldsOf(s, widths, values, n - 1);
      FromLeRoundTrip(s[a..b]);
      SlicesJoin(s, a, b);
    }
  }

  /** Appends one field to those already written. */
  method PutField(written: Bytes, value: nat, width: nat, ghost widths: seq<nat>, ghost values: seq<nat>, ghost n: nat)
    returns (s: Bytes)
    requires n < |widths| && n < |values| && written == Fields(widths, values, n)
    requires value == values[n] && width == widths[n]
    ensures s == Fields(widths, values, n + 1)
  {
    s := written + Le(value, width);
  }

  // --------------------------------------------------------------------- bits

  function Pow2(k: nat): nat {
    if k == 0 then 1 else 2 * Pow2(k - 1)
  }

  function PackBits(flags: seq<bool>): nat {
    if flags == [] then 0 else (if flags[0] then 1 else 0) + 2 * PackBits(flags[1..])
  }

  /** `(bits & (1 << k)) != 0` */
  predicate BitSet(bits: nat, k: nat) {
    if k == 0 then bits % 2 == 1 else BitSet(bits / 2, k - 1)
  }

  lemma {:induction false} PackedBit(flags: seq<bool>, k: nat)
    requires k < |flags|
    ensures BitSet(PackBits(flags), k) == flags[k]
  {
    assert PackBits(flags) % 2 == (if flags[0] then 1 else 0) && PackBits(flags) / 2 == PackBits(flags[1..]);
    if k > 0 {
      PackedBit(flags[1..], k - 1);
    }
  }

  lemma {:induction false} PackedFits(flags: seq<bool>)
    ensures PackBits(flags) < Pow2(|flags|)
  {
    if flags != [] {
      PackedFits(flags[1..]);
    }
  }

  lemma {:induction false} PackAppend(flags: seq<bool>, flag: bool)
    ensures PackBits(flags + [flag]) == PackBits(flags) + if flag then Pow2(|flags|) else 0
  {
    if flags == [] {
      assert flags + [flag] == [flag];
    } else {
      assert (flags + [flag])[1..] == flags[1..] + [flag];
      PackAppend(flags[1..], flag);
    }
  }

  /** Bits within range are determined by their tests. */
  lemma {:induction false} BitsPack(bits: nat, flags: seq<bool>)
    requires bits < Pow2(|flags|)
    requires forall k | 0 <= k < |flags| :: flags[k] == BitSet(bits, k)
    ensures PackBits(flags) == bits
  {
    if flags != [] {
      assert flags[0] == BitSet(bits, 0);
      forall k | 0 <= k < |flags| - 1 ensures flags[1..][k] == BitSet(bits / 2, k) {
        assert flags[k + 1] == BitSet(bits, k + 1);
      }
      BitsPack(bits / 2, flags[1..]);
    }
  }
}
