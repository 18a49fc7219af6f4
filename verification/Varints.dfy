// The variable-length integers of ByteArray: unsigned LEB128 (DWARF 5, section 7.6) and the
// zigzag code for signed values, on bytes and on the block list.
module Varints {
  import opened FlatBytes
  import opened ByteArrays
  import opened Options

  const TWO_31: int := 0x8000_0000
  const TWO_32: int := 0x1_0000_0000
  const TWO_63: int := 0x8000_0000_0000_0000
  const TWO_64: int := 0x1_0000_0000_0000_0000

  // ---- unsigned values ----

  // What the write loop emits: seven bits a byte, low bits first, the high bit set on all
  // bytes but the last.
  function Leb(v: nat): (d: seq<Byte>)
    ensures d != []
  {
    if v < 128 then [v] else [v % 128 + 128] + Leb(v / 128)
  }

  // The number that a group of bytes stands for, high bits dropped.
  ghost function LebValue(d: seq<Byte>): nat {
    if d == [] then 0 else d[0] % 128 + 128 * LebValue(d[1..])
  }

  function Power(k: nat): (p: nat)
    ensures 0 < p
  {
    if k == 0 then 1 else 128 * Power(k - 1)
  }

  // How many bytes a read of at most max bytes consumes; None when the data end first.
  ghost function ReadLength(d: seq<Byte>, max: nat): (k: Option<nat>)
    ensures k.Some? ==> k.value <= |d| && k.value <= max
  {
    if max == 0 then Some(0)
    else if d == [] then None
    else if d[0] < 128 then Some(1)
    else
      var rest := ReadLength(d[1..], max - 1);
      if rest.Some? then Some(1 + rest.value) else None
  }

  lemma {:induction false} LebLength(v: nat, k: nat)
    requires v < Power(k)
    ensures |Leb(v)| <= if k == 0 then 1 else k
  {
    if v >= 128 {
      LebLength(v / 128, k - 1);
    }
  }

  lemma LebLengths()
    ensures Power(5) >= TWO_32 && Power(10) >= TWO_64
    ensures Power(4) == 0x1000_0000 && Power(9) == 0x8000_0000_0000_0000
  {
    assert Power(3) == 0x20_0000;
    assert Power(6) == 128 * Power(5);
    assert Power(8) == 128 * Power(7);
  }

  // Reading what was written gives the value back and stops right after it.
  lemma {:induction false} LebRoundTrip(v: nat, rest: seq<Byte>, max: nat)
    requires |Leb(v)| <= max
    ensures LebValue(Leb(v)) == v
    ensures ReadLength(Leb(v) + rest, max) == Some(|Leb(v)|)
  {
    if v >= 128 {
      LebRoundTrip(v / 128, rest, max - 1);
      assert (Leb(v) + rest)[1..] == Leb(v / 128) + rest;
    }
  }

  lemma {:induction false} LebValueSnoc(d: seq<Byte>, b: Byte)
    ensures LebValue(d + [b]) == LebValue(d) + b % 128 * Power(|d|)
  {
    if d == [] {
      assert [b][1..] == [];
    } else {
      assert (d + [b])[1..] == d[1..] + [b];
      LebValueSnoc(d[1..], b);
    }
  }

  lemma {:induction false} LebValueBound(d: seq<Byte>)
    ensures LebValue(d) < Power(|d|)
  {
    if d != [] {
      LebValueBound(d[1..]);
    }
  }

  // One more continuation byte moves the end of the read along.
  lemma {:induction false} ReadLengthStep(d: seq<Byte>, k: nat, max: nat)
    requires k <= |d| && k < max && forall i :: 0 <= i < k ==> d[i] >= 128
    ensures k == |d| ==> ReadLength(d, max) == None
    ensures k < |d| && (d[k] < 128 || k + 1 == max) ==> ReadLength(d, max) == Some(k + 1)
  {
    if k > 0 {
      ReadLengthStep(d[1..], k - 1, max - 1);
    }
  }

  // r holds the bits below p; adding a multiple of p, cut to the width m, is or-ing it in.
  lemma Accumulate(r: nat, x: nat, p: nat, q: nat)
    requires r < p && 0 < q
    ensures r + x * p % (p * q) == (r + x * p) % (p * q)
  {
    var h, l := x / q, x % q;
    assert x == h * q + l;
    assert x * p == h * (p * q) + l * p;
    assert 0 <= l * p + r < p * q by {
      assert l + 1 <= q;
      MulMonotone(l + 1, q, p);
    }
    ModUnique(x * p, h, l * p, p * q);
    ModUnique(r + x * p, h, r + l * p, p * q);
  }

  lemma ModUnique(n: int, h: int, l: nat, m: nat)
    requires n == h * m + l && l < m
    ensures n % m == l
  {
    var q, r := n / m, n % m;
    assert n == q * m + r;
    MulDiff(q, h, m);
    MulDiff(h, q, m);
    if q > h {
      MulAtLeast(q - h, m);
    } else if q < h {
      MulAtLeast(h - q, m);
    }
  }

  // ---- zigzag ----

  // half is 2^31 or 2^63; the unsigned arithmetic wraps at twice that.
  function EncodeZigzag(v: int, half: nat): nat
    requires 0 < half && 0 - half <= v < half
  {
    var m := 2 * half;
    if v < 0 then ((-v) % m * 2 - 1) % m else v * 2 % m
  }

  // (v >> 1) ^ -(v & 1), converted to the signed type of the same width.
  function DecodeZigzag(v: nat, half: nat): int
    requires 0 < half && v < 2 * half
  {
    var m := 2 * half;
    var x := if v % 2 == 1 then m - 1 - v / 2 else v / 2;
    if x < half then x else x - m
  }

  // The code is the bijection 0, -1, 1, -2, 2, ... of the signed values on the unsigned ones.
  lemma ZigzagRoundTrip(v: int, half: nat)
    requires 0 < half && 0 - half <= v < half
    ensures EncodeZigzag(v, half) == if v < 0 then -2 * v - 1 else 2 * v
    ensures EncodeZigzag(v, half) < 2 * half && DecodeZigzag(EncodeZigzag(v, half), half) == v
  {
    var m := 2 * half;
    if v < 0 {
      ModUnique(-v, 0, -v, m);
      if v + half == 0 {
        assert (-v) % m * 2 - 1 == m - 1;
      }
      ModUnique(-v * 2 - 1, 0, -v * 2 - 1, m);
    } else {
      ModUnique(v * 2, 0, v * 2, m);
    }
  }

  lemma ZigzagOnto(u: nat, half: nat)
    requires 0 < half && u < 2 * half
    ensures 0 - half <= DecodeZigzag(u, half) < half
    ensures EncodeZigzag(DecodeZigzag(u, half), half) == u
  {
    ZigzagRoundTrip(DecodeZigzag(u, half), half);
  }

  // ---- on the block list ----

  datatype Decoded = Value(value: nat) | Thrown

  lemma LebStep(v: nat)
    ensures Leb(v) == if v < 128 then [v] else [v % 128 + 128] + Leb(v / 128)
  {
  }

  // The loop of writeUint32 and writeUint64; tmp is the code's buffer of 5 or 10 bytes.
  method Emit(value: nat, room: nat) returns (d: seq<Byte>)
    requires value < Power(room) && 0 < room
    ensures d == Leb(value) && |d| <= room
  {
    hide Leb, Power;
    LebLength(value, room);
    var tmp := new Byte[room](_ => 0);
    var i, v := 0, value;
    while v >= 0x80
      invariant 0 <= i < room && i + |Leb(v)| <= room
      invariant tmp[..i] + Leb(v) == Leb(value)
      decreases v
    {
      ghost var before := tmp[..i];
      LebStep(v);
      tmp[i] := v % 0x80 + 0x80;
      assert tmp[..i + 1] == before + [v % 0x80 + 0x80];
      assert before + ([v % 0x80 + 0x80] + Leb(v / 0x80)) == tmp[..i + 1] + Leb(v / 0x80);
      i := i + 1;
      v := v / 0x80;
    }
    LebStep(v);
    ghost var before := tmp[..i];
    tmp[i] := v;
    assert tmp[..i + 1] == before + [v];
    return tmp[..i + 1];
  }

  method WriteUint(ba: ByteArray, value: nat, room: nat)
    requires ba.Valid() && value < Power(room) && 0 < room
    modifies ba, ba.Repr
    ensures ba.Valid() && fresh(ba.Repr - old(ba.Repr)) && old(ba.Repr) <= ba.Repr
    ensures ba.position == old(ba.position) + |Leb(value)|
    ensures ba.size == if ba.position > old(ba.size) then ba.position else old(ba.size)
    ensures ba.Data() == Overwrite(old(ba.Data()), old(ba.position), Leb(value))
  {
    hide Overwrite, Leb, ByteArray.Data;
    var d := Emit(value, room);
    ba.Write(d);
  }

  lemma {:induction false} PowerSplit(j: nat, k: nat)
    ensures Power(j + k) == Power(j) * Power(k)
  {
    if j > 0 {
      PowerSplit(j - 1, k);
    }
  }

  // The width divided by the k bytes already read.
  lemma WidthSplit(k: nat, max: nat, q: nat) returns (c: nat)
    requires k < max && 0 < q
    ensures Width(max, q) == Power(k) * c && 0 < c
    ensures k + 1 < max ==> Power(k + 1) <= Power(k) * c
  {
    hide Power;
    var e := Power(max - 1 - k);
    c := e * q;
    PowerSplit(k, max - 1 - k);
    WidthIs(max, q);
    TimesAssoc(Power(k), e, q);
    AtLeastFactor(e, q);
    if k + 1 < max {
      PowerSplit(k + 1, max - 2 - k);
      AtLeastFactor(Power(k + 1), Power(max - 2 - k));
      AtLeastFactor(Power(max - 1), q);
    }
  }

  lemma WidthIs(max: nat, q: nat)
    requires 0 < max && 0 < q
    ensures Width(max, q) == Power(max - 1) * q
  {
  }

  lemma AtLeastFactor(a: nat, b: nat)
    requires 0 < b
    ensures a <= a * b
  {
    MulMonotone(1, b, a);
  }

  // The low seven bits of a byte in their place, cut to the width.
  function Shifted(b: Byte, p: nat, m: nat): nat
    requires 0 < m
  {
    b % 128 * p % m
  }

  // 28 + 4 bits or 63 + 1.
  function Width(max: nat, q: nat): (m: nat)
    requires 0 < max && 0 < q
    ensures 0 < m
  {
    MulMonotone(1, q, Power(max - 1));
    Power(max - 1) * q
  }

  lemma TimesAssoc(a: nat, b: nat, c: nat)
    ensures a * b * c == a * (b * c)
  {
  }

  // One byte more in the accumulator of the read loop.
  lemma AccumulateByte(d: seq<Byte>, k: nat, max: nat, q: nat)
    requires k < |d| && k < max && 0 < q
    ensures var m := Width(max, q);
      && LebValue(d[..k]) + Shifted(d[k], Power(k), m) == LebValue(d[..k + 1]) % m
      && (k + 1 < max ==> LebValue(d[..k + 1]) < m)
  {
    hide Power, LebValue;
    assert d[..k + 1] == d[..k] + [d[k]];
    LebValueSnoc(d[..k], d[k]);
    LebValueBound(d[..k]);
    LebValueBound(d[..k + 1]);
    var c := WidthSplit(k, max, q);
    Accumulate(LebValue(d[..k]), d[k] % 128, Power(k), c);
    MulMonotone(1, c, Power(k));
  }

  // readFuint8.
  method ReadByte(ba: ByteArray) returns (b: Option<Byte>)
    requires ba.Valid()
    modifies ba`cur, ba`at, ba`position
    ensures ba.Valid() && ba.Data() == old(ba.Data())
    ensures if old(ba.position) < ba.size then b == Some(old(ba.Data()[ba.position])) else b == None
    ensures ba.position == old(ba.position) + if b.Some? then 1 else 0
  {
    hide ByteArray.Data, ByteArray.Chained, ByteArray.CursorFits;
    var byte := ba.Read(1);
    b := if byte.Bytes? then Some(byte.data[0]) else None;
  }

  // readUint32 and readUint64: a width of 7 * (max - 1) bits and those counted by q. The
  // exception of a read past the end leaves the bytes consumed so far consumed.
  method ReadUint(ba: ByteArray, max: nat, q: nat) returns (r: Decoded)
    requires ba.Valid() && 0 < max && 0 < q
    modifies ba`cur, ba`at, ba`position
    ensures ba.Valid() && ba.Data() == old(ba.Data())
    ensures var rest := old(ba.Data()[ba.position..]);
      match ReadLength(rest, max)
      case Some(k) => r == Value(LebValue(rest[..k]) % Width(max, q)) && ba.position == old(ba.position) + k
      case None => r == Thrown && ba.position == ba.size
  {
    hide Power, LebValue, ReadLength, Shifted, Width, ByteArray.Data, ByteArray.Valid, ByteArray.Chained;
    ghost var rest := ba.Data()[ba.position..];
    var m := Width(max, q);
    var result, k, p := 0, 0, 1;
    PowerZero();
    while k < max
      invariant 0 <= k <= max && ba.Valid() && ba.Data() == old(ba.Data())
      invariant k <= |rest| && ba.position == old(ba.position) + k && p == Power(k)
      invariant forall i :: 0 <= i < k ==> rest[i] >= 128
      invariant k < max ==> result == LebValue(rest[..k])
      invariant k == max ==> result == LebValue(rest[..k]) % m && ReadLength(rest, max) == Some(k)
    {
      ReadLengthStep(rest, k, max);
      var byte := ReadByte(ba);
      if byte == None {
        return Thrown;
      }
      var b := byte.value;
      AccumulateByte(rest, k, max, q);
      PowerSplit(1, k);
      result := result + Shifted(b, p, m);
      if b < 0x80 {
        return Value(result);
      }
      p := p * 128;
      k := k + 1;
    }
    r := Value(result);
  }

  lemma PowerZero()
    ensures Power(0) == 1 && Power(1) == 128 && LebValue([]) == 0
  {
  }

  // ---- typed values, one after another ----

  datatype Item = U32(u: nat) | I32(i: int) | U64(u: nat) | I64(i: int) {
    predicate Fits() {
      match this
      case U32(u) => u < TWO_32
      case I32(i) => -TWO_31 <= i < TWO_31
      case U64(u) => u < TWO_64
      case I64(i) => -TWO_63 <= i < TWO_63
    }

    function Code(): nat
      requires Fits()
    {
      match this
      case U32(u) => u
      case I32(i) => EncodeZigzag(i, TWO_31)
      case U64(u) => u
      case I64(i) => EncodeZigzag(i, TWO_63)
    }

    function Kind(): Kind {
      match this
      case U32(_) => UInt32
      case I32(_) => Int32
      case U64(_) => UInt64
      case I64(_) => Int64
    }
  }

  datatype Kind = UInt32 | Int32 | UInt64 | Int64 {
    predicate Wide() { UInt64? || Int64? }

    function MaxBytes(): nat { if Wide() then 10 else 5 }

    function Spare(): nat { if Wide() then 2 else 16 }

    function Decode(v: nat): Item
      requires v < if Wide() then TWO_64 else TWO_32
    {
      match this
      case UInt32 => U32(v)
      case Int32 => I32(DecodeZigzag(v, TWO_31))
      case UInt64 => U64(v)
      case Int64 => I64(DecodeZigzag(v, TWO_63))
    }
  }

  predicate AllFit(xs: seq<Item>) {
    forall i :: 0 <= i < |xs| ==> xs[i].Fits()
  }

  function Encoded(xs: seq<Item>): seq<Byte>
    requires AllFit(xs)
  {
    if xs == [] then [] else Leb(xs[0].Code()) + Encoded(xs[1..])
  }

  function Kinds(xs: seq<Item>): (ks: seq<Kind>)
    ensures |ks| == |xs|
  {
    if xs == [] then [] else [xs[0].Kind()] + Kinds(xs[1..])
  }

  // The ranges of the four types, in numbers.
  lemma RangesExact(x: Item)
    ensures x.U32? ==> (x.Fits() <==> x.u <= 0xFFFF_FFFF)
    ensures x.I32? ==> (x.Fits() <==> -0x8000_0000 <= x.i <= 0x7FFF_FFFF)
    ensures x.U64? ==> (x.Fits() <==> x.u <= 0xFFFF_FFFF_FFFF_FFFF)
    ensures x.I64? ==> (x.Fits() <==> -0x8000_0000_0000_0000 <= x.i <= 0x7FFF_FFFF_FFFF_FFFF)
    ensures x.Kind().MaxBytes() == if x.U64? || x.I64? then 10 else 5
  {
  }

  // The low seven bits come first: 300 is AC 02.
  lemma LowBitsFirst()
    ensures Leb(300) == [0xAC, 0x02] && Leb(127) == [0x7F] && Leb(128) == [0x80, 0x01]
    ensures LebValue([0xAC, 0x02]) == 300
  {
    assert LebValue([0x02]) == 2;
    assert [0xAC, 0x02][1..] == [0x02];
  }

  // The code of a value fits its kind's buffer, and decoding undoes it.
  lemma CodeFits(x: Item)
    requires x.Fits()
    ensures x.Code() < Power(x.Kind().MaxBytes())
    ensures x.Code() < Width(x.Kind().MaxBytes(), x.Kind().Spare()) == if x.Kind().Wide() then TWO_64 else TWO_32
    ensures x.Kind().Decode(x.Code()) == x
  {
    hide Power, EncodeZigzag, DecodeZigzag;
    LebLengths();
    if x.I32? {
      ZigzagRoundTrip(x.i, TWO_31);
    } else if x.I64? {
      ZigzagRoundTrip(x.i, TWO_63);
    }
  }

  // A value takes at most 5 or 10 bytes, and reading it stops right after them.
  lemma ItemRoundTrip(x: Item, rest: seq<Byte>)
    requires x.Fits()
    ensures var max, d := x.Kind().MaxBytes(), Leb(x.Code());
      && |d| <= max
      && ReadLength(d + rest, max) == Some(|d|)
      && LebValue((d + rest)[..|d|]) % Width(max, x.Kind().Spare()) == x.Code()
  {
    hide Power, Leb, LebValue, ReadLength, Width;
    var d := Leb(x.Code());
    CodeFits(x);
    LebLength(x.Code(), x.Kind().MaxBytes());
    LebRoundTrip(x.Code(), rest, x.Kind().MaxBytes());
    assert (d + rest)[..|d|] == d;
    ModUnique(x.Code(), 0, x.Code(), Width(x.Kind().MaxBytes(), x.Kind().Spare()));
  }

  // writeUint32, writeInt32, writeUint64 and writeInt64.
  method WriteItem(ba: ByteArray, x: Item)
    requires ba.Valid() && x.Fits()
    modifies ba, ba.Repr
    ensures ba.Valid() && fresh(ba.Repr - old(ba.Repr)) && old(ba.Repr) <= ba.Repr
    ensures ba.position == old(ba.position) + |Leb(x.Code())|
    ensures ba.Data() == Overwrite(old(ba.Data()), old(ba.position), Leb(x.Code()))
  {
    hide Power, Leb, Overwrite, Width, ByteArray.Data, ByteArray.Valid, ByteArray.Chained;
    CodeFits(x);
    WriteUint(ba, x.Code(), x.Kind().MaxBytes());
  }

  // readUint32, readInt32, readUint64 and readInt64 where such a value was written.
  method ReadItem(ba: ByteArray, kind: Kind, ghost x: Item) returns (r: Item)
    requires ba.Valid() && x.Fits() && kind == x.Kind()
    requires Leb(x.Code()) <= ba.Data()[ba.position..]
    modifies ba`cur, ba`at, ba`position
    ensures ba.Valid() && ba.Data() == old(ba.Data())
    ensures r == x && ba.position == old(ba.position) + |Leb(x.Code())|
  {
    hide Power, Leb, LebValue, ReadLength, Width, ByteArray.Data, ByteArray.Valid, ByteArray.Chained;
    ghost var d, rest := Leb(x.Code()), ba.Data()[ba.position..];
    assert rest == d + rest[|d|..];
    ItemRoundTrip(x, rest[|d|..]);
    CodeFits(x);
    var v := ReadUint(ba, kind.MaxBytes(), kind.Spare());
    r := kind.Decode(v.value);
  }

  lemma {:induction false} EncodedSnoc(xs: seq<Item>, x: Item)
    requires AllFit(xs) && x.Fits()
    ensures AllFit(xs + [x]) && Encoded(xs + [x]) == Encoded(xs) + Leb(x.Code())
  {
    hide Leb, Encoded;
    EncodedHead(xs);
    EncodedHead(xs + [x]);
    EncodedHead([]);
    if xs == [] {
      assert ([] + [x])[1..] == [] && ([] + [x])[0] == x;
    } else {
      assert (xs + [x])[1..] == xs[1..] + [x];
      EncodedSnoc(xs[1..], x);
      Associate(Leb(xs[0].Code()), Encoded(xs[1..]), Leb(x.Code()));
    }
  }

  // Writing the values in turn overwrites with their encodings joined.
  method WriteAll(ba: ByteArray, xs: seq<Item>)
    requires ba.Valid() && AllFit(xs)
    modifies ba, ba.Repr
    ensures ba.Valid() && fresh(ba.Repr - old(ba.Repr)) && old(ba.Repr) <= ba.Repr
    ensures ba.position == old(ba.position) + |Encoded(xs)|
    ensures ba.Data() == Overwrite(old(ba.Data()), old(ba.position), Encoded(xs))
  {
    hide Leb, Overwrite, Encoded, ByteArray.Data, ByteArray.Valid, ByteArray.Chained;
    ghost var p, data := ba.position, ba.Data();
    NothingWritten(data, p);
    var i := 0;
    while i < |xs|
      invariant 0 <= i <= |xs|
      invariant ba.Valid() && fresh(ba.Repr - old(ba.Repr)) && old(ba.Repr) <= ba.Repr
      invariant ba.position == p + |Encoded(xs[..i])|
      invariant ba.Data() == Overwrite(data, p, Encoded(xs[..i]))
    {
      assert xs[..i + 1] == xs[..i] + [xs[i]];
      EncodedSnoc(xs[..i], xs[i]);
      OverwriteGrowing(data, p, Encoded(xs[..i]), Leb(xs[i].Code()));
      WriteItem(ba, xs[i]);
      i := i + 1;
    }
    assert xs[..i] == xs;
  }

  lemma NothingWritten(d: seq<Byte>, p: nat)
    requires p <= |d|
    ensures Encoded([]) == [] && Overwrite(d, p, []) == d
  {
  }

  lemma OverwriteGrowing(d: seq<Byte>, p: nat, x: seq<Byte>, y: seq<Byte>)
    requires p <= |d|
    ensures p + |x| <= |Overwrite(d, p, x)|
    ensures Overwrite(Overwrite(d, p, x), p + |x|, y) == Overwrite(d, p, x + y)
  {
  }

  lemma ReadBackHead(xs: seq<Item>, data: seq<Byte>)
    requires AllFit(xs) && xs != [] && Encoded(xs) <= data
    ensures var n := |Leb(xs[0].Code())|;
      n <= |data| && Leb(xs[0].Code()) <= data && Encoded(xs[1..]) <= data[n..]
  {
    hide Leb, Encoded;
    EncodedHead(xs);
    PrefixSplit(Leb(xs[0].Code()), Encoded(xs[1..]), data);
  }

  lemma PrefixSplit(a: seq<Byte>, b: seq<Byte>, data: seq<Byte>)
    requires a + b <= data
    ensures a <= data && b <= data[|a|..]
  {
    assert data[|a|..][..|b|] == data[|a|..|a| + |b|] == b;
    assert data[..|a|] == a;
  }

  // Reading values of the same kinds where their encodings lie gives them back.
  method ReadAll(ba: ByteArray, kinds: seq<Kind>, ghost xs: seq<Item>) returns (ys: seq<Item>)
    requires ba.Valid() && AllFit(xs) && kinds == Kinds(xs)
    requires Encoded(xs) <= ba.Data()[ba.position..]
    modifies ba`cur, ba`at, ba`position
    ensures ba.Valid() && ba.Data() == old(ba.Data())
    ensures ys == xs && ba.position == old(ba.position) + |Encoded(xs)|
  {
    hide Leb, Encoded, ByteArray.Data, ByteArray.Valid, ByteArray.Chained;
    ghost var data, end := ba.Data(), ba.position + |Encoded(xs)|;
    ys := [];
    ghost var left := xs;
    var i := 0;
    while i < |kinds|
      invariant 0 <= i <= |kinds| && left == xs[i..] && ys == xs[..i]
      invariant kinds[i..] == Kinds(left) && AllFit(left)
      invariant ba.Valid() && ba.Data() == data
      invariant Encoded(left) <= data[ba.position..] && ba.position + |Encoded(left)| == end
    {
      ReadBackHead(left, data[ba.position..]);
      ghost var p := ba.position;
      assert kinds[i] == kinds[i..][0] && kinds[i..][1..] == kinds[i + 1..];
      var x := ReadItem(ba, kinds[i], left[0]);
      EncodedHead(left);
      assert data[p..][ba.position - p..] == data[ba.position..];
      ys := ys + [x];
      left := left[1..];
      i := i + 1;
    }
    EncodedHead(left);
  }

  lemma EncodedHead(xs: seq<Item>)
    requires AllFit(xs)
    ensures if xs == [] then Encoded(xs) == [] else Encoded(xs) == Leb(xs[0].Code()) + Encoded(xs[1..])
  {
  }

  // Typed values written in sequence, rewound and read back, are the same values, and the
  // read consumes exactly the bytes written, for every block size and starting position.
  method RoundTrip(ba: ByteArray, xs: seq<Item>) returns (ys: seq<Item>)
    requires ba.Valid() && AllFit(xs)
    modifies ba, ba.Repr
    ensures ba.Valid() && ys == xs
    ensures ba.position == old(ba.position) + |Encoded(xs)|
    ensures ba.Data() == Overwrite(old(ba.Data()), old(ba.position), Encoded(xs))
  {
    hide Encoded, ByteArray.Valid, ByteArray.Chained;
    var p := ba.position;
    WriteAll(ba, xs);
    ghost var data := ba.Data();
    var ok := ba.SetPosition(p);
    assert ba.Data() == data;
    assert data[p..][..|Encoded(xs)|] == Encoded(xs);
    ys := ReadAll(ba, Kinds(xs), xs);
  }
}
