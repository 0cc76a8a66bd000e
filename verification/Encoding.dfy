/** Machine integers, little-endian fields and unsigned LEB128 integers. */
module Encoding {
  type byte = x: int | 0 <= x < 0x100
  type u16 = x: int | 0 <= x < 0x1_0000
  type u32 = x: int | 0 <= x < 0x1_0000_0000
  type u64 = x: int | 0 <= x < 0x1_0000_0000_0000_0000

  type Bytes = seq<byte>

  const TWO_64 := 0x1_0000_0000_0000_0000

  function Pow(b: nat, n: nat): nat { if n == 0 then 1 else b * Pow(b, n - 1) }

  // ----- little-endian fields

  function LittleEndian(width: nat, v: nat): (bs: Bytes)
    ensures |bs| == width
  {
    if width == 0 then [] else [v % 256] + LittleEndian(width - 1, v / 256)
  }

  function FromLittleEndian(bs: Bytes): nat {
    if bs == [] then 0 else bs[0] + 256 * FromLittleEndian(bs[1..])
  }

  lemma {:induction false} LittleEndianRoundTrip(width: nat, v: nat)
    requires v < Pow(256, width)
    ensures FromLittleEndian(LittleEndian(width, v)) == v
  {
    if width > 0 {
      assert v / 256 < Pow(256, width - 1);
      LittleEndianRoundTrip(width - 1, v / 256);
      assert LittleEndian(width, v)[1..] == LittleEndian(width - 1, v / 256);
    }
  }

  lemma {:induction false} ByteAndRest(b: byte, rest: nat, limit: nat)
    requires rest < limit
    ensures (b + 256 * rest) % 256 == b && (b + 256 * rest) / 256 == rest && b + 256 * rest < 256 * limit
  {}

  /** Reading a field and writing it again restores its bytes. */
  lemma {:induction false} LittleEndianRestores(bs: Bytes)
    ensures FromLittleEndian(bs) < Pow(256, |bs|)
    ensures LittleEndian(|bs|, FromLittleEndian(bs)) == bs
  {
    if bs != [] {
      LittleEndianRestores(bs[1..]);
      ByteAndRest(bs[0], FromLittleEndian(bs[1..]), Pow(256, |bs| - 1));
      assert bs == [bs[0]] + bs[1..];
    }
  }

  lemma {:induction false} FieldWidths()
    ensures Pow(256, 2) == 0x1_0000
    ensures Pow(256, 4) == 0x1_0000_0000
    ensures Pow(256, 8) == TWO_64
  {
    assert Pow(256, 2) == 256 * Pow(256, 1) && Pow(256, 4) == 256 * (256 * Pow(256, 2));
    assert Pow(256, 8) == 256 * (256 * (256 * (256 * Pow(256, 4))));
  }

  // ----- unsigned LEB128

  function Varint(v: nat): (bs: Bytes)
    decreases v
  {
    if v < 0x80 then [v] else [v % 0x80 + 0x80] + Varint(v / 0x80)
  }

  /** The number spelled by the low seven bits of each byte, least significant first. */
  function LebValue(bs: Bytes): nat {
    if bs == [] then 0 else bs[0] % 0x80 + 0x80 * LebValue(bs[1..])
  }

  /** A nonempty run of continuation bytes closed by one byte below 0x80. */
  predicate IsVarint(bs: Bytes) {
    && bs != []
    && bs[|bs| - 1] < 0x80
    && forall i :: 0 <= i < |bs| - 1 ==> bs[i] >= 0x80
  }

  lemma {:induction false} VarintSpells(v: nat)
    ensures IsVarint(Varint(v))
    ensures LebValue(Varint(v)) == v
    decreases v
  {
    if v >= 0x80 {
      VarintSpells(v / 0x80);
      var rest := Varint(v / 0x80);
      assert Varint(v)[1..] == rest;
      forall i | 1 <= i < |Varint(v)| - 1 ensures Varint(v)[i] >= 0x80 {
        assert Varint(v)[i] == rest[i - 1];
      }
    }
  }

  lemma {:induction false} VarintLength(v: nat, k: nat)
    requires k > 0 && v < Pow(0x80, k)
    ensures |Varint(v)| <= k
    decreases k
  {
    if v >= 0x80 {
      assert v / 0x80 < Pow(0x80, k - 1);
      VarintLength(v / 0x80, k - 1);
    }
  }

  lemma {:induction false} Pow128()
    ensures Pow(0x80, 9) == 0x8000_0000_0000_0000
    ensures Pow(0x80, 10) > TWO_64
  {
    assert Pow(0x80, 3) == 0x80 * (0x80 * (0x80 * Pow(0x80, 0)));
    assert Pow(0x80, 6) == 0x80 * (0x80 * (0x80 * Pow(0x80, 3)));
    assert Pow(0x80, 9) == 0x80 * (0x80 * (0x80 * Pow(0x80, 6)));
  }

  /** A 64-bit value never needs more than ten bytes. */
  lemma {:induction false} VarintFits(v: u64)
    ensures 1 <= |Varint(v)| <= 10
  {
    Pow128();
    VarintLength(v, 10);
  }

  /** Appends `value` to `output`, seven bits at a time. */
  method EncodeVarint(value: u64, output: Bytes) returns (r: Bytes)
    ensures r == output + Varint(value)
  {
    var v: nat := value;
    r := output;
    while v >= 0x80
      invariant r + Varint(v) == output + Varint(value)
    {
      assert Varint(v) == [v % 0x80 + 0x80] + Varint(v / 0x80);
      r := r + [v % 0x80 + 0x80];
      v := v / 0x80;
    }
    r := r + [v];
  }

  datatype VarintResult = Value(value: u64, next: nat) | VarintTooLong | VarintTruncated

  /** The position of the first byte below 0x80 at or after `from`, or the end. */
  function VarintEnd(bytes: Bytes, from: nat): (e: nat)
    requires from <= |bytes|
    ensures from <= e <= |bytes|
    ensures forall i :: from <= i < e ==> bytes[i] >= 0x80
    ensures e < |bytes| ==> bytes[e] < 0x80
    decreases |bytes| - from
  {
    if from == |bytes| || bytes[from] < 0x80 then from else VarintEnd(bytes, from + 1)
  }

  /** What a varint at `cursor` means: at most ten bytes, and only the low 64 bits of what they spell. */
  function DecodeVarint(bytes: Bytes, cursor: nat): (r: VarintResult)
    requires cursor <= |bytes|
    ensures r.Value? ==> cursor < r.next <= |bytes| && r.next - cursor <= 10
  {
    var e := VarintEnd(bytes, cursor);
    if e - cursor >= 10 then VarintTooLong
    else if e == |bytes| then VarintTruncated
    else Value(LebValue(bytes[cursor..e + 1]) % TWO_64, e + 1)
  }

  lemma {:induction false} LebEmpty()
    ensures LebValue([]) == 0
  {}

  lemma {:induction false} LebAppend(bs: Bytes, b: byte)
    ensures LebValue(bs + [b]) == LebValue(bs) + (b % 0x80) * Pow(0x80, |bs|)
    ensures LebValue(bs) < Pow(0x80, |bs|)
  {
    if bs == [] {
      assert bs + [b] == [b] && [b][1..] == [];
    } else {
      LebAppend(bs[1..], b);
      assert (bs + [b])[1..] == bs[1..] + [b];
      var p := Pow(0x80, |bs| - 1);
      assert Pow(0x80, |bs|) == 0x80 * p;
      GroupAndRest(bs[0] % 0x80, LebValue(bs[1..]), b % 0x80, p);
    }
  }

  lemma {:induction false} GroupAndRest(g: nat, rest: nat, next: nat, p: nat)
    requires g < 0x80 && rest < p
    ensures g + 0x80 * (rest + next * p) == g + 0x80 * rest + next * (0x80 * p)
    ensures g + 0x80 * rest < 0x80 * p
  {}

  lemma {:induction false} ShiftIsScale(k: nat)
    ensures Pow(2, 7 * k) == Pow(0x80, k)
  {
    if k > 0 {
      ShiftIsScale(k - 1);
      var e := 7 * (k - 1);
      assert Pow(2, e + 2) == 2 * Pow(2, e + 1) && Pow(2, e + 1) == 2 * Pow(2, e);
      assert Pow(2, e + 4) == 2 * Pow(2, e + 3) && Pow(2, e + 3) == 2 * Pow(2, e + 2);
      assert Pow(2, e + 6) == 2 * Pow(2, e + 5) && Pow(2, e + 5) == 2 * Pow(2, e + 4);
      assert Pow(2, e + 7) == 2 * Pow(2, e + 6);
    }
  }

  lemma {:induction false} PowMonotone(b: nat, m: nat, n: nat)
    requires b >= 1 && m <= n
    ensures 1 <= Pow(b, m) <= Pow(b, n)
    decreases n
  {
    if n == 0 {
    } else if m == n {
      PowMonotone(b, n - 1, n - 1);
      assert b * Pow(b, n - 1) >= Pow(b, n - 1);
    } else {
      PowMonotone(b, m, n - 1);
      assert b * Pow(b, n - 1) >= Pow(b, n - 1);
    }
  }

  lemma {:induction false} MulMonotone(a: nat, b: nat, c: nat)
    requires a <= b
    ensures a * c <= b * c
  {
    assert b * c - a * c == (b - a) * c;
  }

  /** Below bit 63 nothing is shifted out. */
  lemma {:induction false} ShiftLow(low: nat, m: nat, scale: nat)
    requires m < 0x80 && low < scale && 0x80 * scale <= 0x8000_0000_0000_0000
    ensures low + m * scale < TWO_64 && m * scale < TWO_64
  {
    MulMonotone(m, 0x7f, scale);
  }

  /** At bit 63 only the lowest of the seven bits stays. */
  lemma {:induction false} ShiftHigh(low: nat, m: nat)
    requires low < 0x8000_0000_0000_0000
    ensures (low + m * 0x8000_0000_0000_0000) % TWO_64 == low + (m * 0x8000_0000_0000_0000) % TWO_64 < TWO_64
  {
    var q, r := m / 2, m % 2;
    assert m * 0x8000_0000_0000_0000 == q * TWO_64 + r * 0x8000_0000_0000_0000;
  }

  /** One more payload byte, with the bits shifted past bit 63 dropped. */
  lemma {:induction false} ShiftStep(bs: Bytes, b: byte)
    requires |bs| <= 9
    ensures LebValue(bs) + ((b % 0x80) * Pow(2, 7 * |bs|)) % TWO_64 < TWO_64
    ensures LebValue(bs + [b]) % TWO_64 == LebValue(bs) + ((b % 0x80) * Pow(2, 7 * |bs|)) % TWO_64
    ensures |bs| <= 8 ==> LebValue(bs + [b]) < TWO_64
  {
    hide LebValue;
    LebAppend(bs, b);
    ShiftIsScale(|bs|);
    Pow128();
    if |bs| <= 8 {
      PowMonotone(0x80, |bs| + 1, 9);
      assert Pow(0x80, |bs| + 1) == 0x80 * Pow(0x80, |bs|);
      ShiftLow(LebValue(bs), b % 0x80, Pow(0x80, |bs|));
    } else {
      ShiftHigh(LebValue(bs), b % 0x80);
    }
  }

  /** The decoding loop computes `DecodeVarint`. */
  method ReadVarint(bytes: Bytes, cursor: nat) returns (r: VarintResult)
    requires cursor <= |bytes|
    ensures r == DecodeVarint(bytes, cursor)
  {
    hide LebValue, Pow;
    LebEmpty();
    var c, value: u64, shift := cursor, 0, 0;
    assert bytes[cursor..cursor] == [];
    while c < |bytes|
      invariant cursor <= c <= |bytes|
      invariant shift == 7 * (c - cursor) && shift < 64
      invariant value == LebValue(bytes[cursor..c])
      invariant VarintEnd(bytes, cursor) == VarintEnd(bytes, c)
    {
      var b := bytes[c];
      ghost var seen := bytes[cursor..c];
      assert bytes[cursor..c + 1] == seen + [b];
      ShiftStep(seen, b);
      c := c + 1;
      value := value + ((b % 0x80) * Pow(2, shift)) % TWO_64;
      if b < 0x80 {
        return Value(value, c);
      }
      shift := shift + 7;
      if shift >= 64 {
        return VarintTooLong;
      }
    }
    r := VarintTruncated;
  }

  lemma {:induction false} VarintEndUnique(bytes: Bytes, from: nat, e: nat)
    requires from <= e < |bytes|
    requires bytes[e] < 0x80
    requires forall i :: from <= i < e ==> bytes[i] >= 0x80
    ensures VarintEnd(bytes, from) == e
    decreases e - from
  {
    if from < e { VarintEndUnique(bytes, from + 1, e); }
  }

  /** Decoding at the place where a value was written gives that value back and stops after it. */
  lemma {:induction false} VarintRoundTrip(bytes: Bytes, at: nat, v: u64)
    requires at + |Varint(v)| <= |bytes| && bytes[at..at + |Varint(v)|] == Varint(v)
    ensures DecodeVarint(bytes, at) == Value(v, at + |Varint(v)|)
  {
    hide Varint, LebValue, VarintEnd;
    var bs := Varint(v);
    VarintSpells(v);
    VarintFits(v);
    var e := at + |bs| - 1;
    forall i | at <= i <= e ensures bytes[i] == bs[i - at] {}
    VarintEndUnique(bytes, at, e);
    assert bytes[at..e + 1] == bs;
  }
}
