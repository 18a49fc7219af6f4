// base64encode and base64decode (RFC 4648, section 4), on bytes.
module Base64 {
  import opened FlatBytes
  import opened Options

  const PAD: Byte := 61

  // ---- the alphabet ----

  function Symbol(v: int): Byte
    requires 0 <= v < 64
  {
    if v < 26 then 65 + v
    else if v < 52 then 97 + v - 26
    else if v < 62 then 48 + v - 52
    else if v == 62 then 43
    else 47
  }

  // The decoder's chain of range tests; None is an invalid character.
  function Value(c: Byte): (v: Option<nat>)
    ensures v.Some? ==> v.value < 64
  {
    if 65 <= c <= 90 then Some(c - 65)
    else if 97 <= c <= 122 then Some(c - 97 + 26)
    else if 48 <= c <= 57 then Some(c - 48 + 52)
    else if c == 43 then Some(62)
    else if c == 47 then Some(63)
    else None
  }

  lemma SymbolValue(v: int)
    requires 0 <= v < 64
    ensures Value(Symbol(v)) == Some(v) && Symbol(v) != PAD
  {
  }

  // ---- encoding ----

  // One, two or three bytes as 24 bits, missing ones zero.
  function Pack(d: seq<Byte>): (p: nat)
    requires 1 <= |d| <= 3
    ensures p < 0x100_0000
  {
    d[0] as int * 0x1_0000 + (if |d| > 1 then d[1] as int * 0x100 else 0) + (if |d| > 2 then d[2] as int else 0)
  }

  function Quad(d: seq<Byte>): (q: seq<Byte>)
    requires 1 <= |d| <= 3
    ensures |q| == 4
  {
    var p := Pack(d);
    [Symbol(p / 0x4_0000), Symbol(p / 0x1000 % 64),
     if |d| > 1 then Symbol(p / 64 % 64) else PAD,
     if |d| > 2 then Symbol(p % 64) else PAD]
  }

  function Encode(d: seq<Byte>): (s: seq<Byte>)
    ensures |s| == (|d| + 2) / 3 * 4
  {
    if |d| == 0 then [] else if |d| <= 3 then Quad(d) else Quad(d[..3]) + Encode(d[3..])
  }

  // ---- decoding ----

  // Up to four characters read into the accumulator: the bits and the number of paddings.
  // None: an invalid character, or one after a padding.
  function Scan(g: seq<Byte>): (r: Option<(nat, nat)>)
    ensures r.Some? ==> r.value.1 <= |g|
  {
    if g == [] then Some((0, 0))
    else
      var c, before := g[|g| - 1], Scan(g[..|g| - 1]);
      if before.None? then None
      else if c == PAD then Some((before.value.0 * 64, before.value.1 + 1))
      else if before.value.1 > 0 || Value(c).None? then None
      else Some((before.value.0 * 64 + Value(c).value, 0))
  }

  function Unpack(packed: nat, padding: nat): (d: seq<Byte>)
    ensures |d| == if padding == 0 then 3 else if padding == 2 then 1 else 2
  {
    [packed / 0x1_0000 % 256]
    + (if padding != 2 then [packed / 0x100 % 256] else [])
    + (if padding == 0 then [packed % 256] else [])
  }

  // None stands for the empty string that base64decode returns for malformed input.
  function Decode(s: seq<Byte>): (r: Option<seq<Byte>>)
    ensures r.Some? ==> |r.value| * 4 <= |s| * 3
  {
    if s == [] then Some([])
    else if |s| < 4 then None
    else
      var g := Scan(s[..4]);
      if g.None? || g.value.1 > 2 || (g.value.1 > 0 && |s| > 4) then None
      else
        var rest := Decode(s[4..]);
        if rest.None? then None else Some(Unpack(g.value.0, g.value.1) + rest.value)
  }

  // ---- round trip ----

  lemma ScanSnoc(g: seq<Byte>, c: Byte)
    ensures Scan(g + [c]) ==
      if Scan(g).None? then None
      else if c == PAD then Some((Scan(g).value.0 * 64, Scan(g).value.1 + 1))
      else if Scan(g).value.1 > 0 || Value(c).None? then None
      else Some((Scan(g).value.0 * 64 + Value(c).value, 0))
  {
    assert (g + [c])[..|g|] == g;
  }

  lemma QuadScans(d: seq<Byte>)
    requires 1 <= |d| <= 3
    ensures Scan(Quad(d)) == Some((Pack(d), 3 - |d|))
  {
    hide Scan, Value, Symbol;
    var p := Pack(d);
    var a, b, c, e := p / 0x4_0000, p / 0x1000 % 64, p / 64 % 64, p % 64;
    var q := Quad(d);
    SymbolValue(a);
    SymbolValue(b);
    SymbolValue(c);
    SymbolValue(e);
    ScanNothing();
    ScanSnoc([], q[0]);
    ScanSnoc([q[0]], q[1]);
    ScanSnoc([q[0], q[1]], q[2]);
    ScanSnoc([q[0], q[1], q[2]], q[3]);
    assert [] + [q[0]] == [q[0]] && [q[0]] + [q[1]] == [q[0], q[1]] && [q[0], q[1]] + [q[2]] == [q[0], q[1], q[2]];
    assert q == [q[0], q[1], q[2]] + [q[3]];
    Sextets(p);
    LowZeros(d);
  }

  lemma ScanNothing()
    ensures Scan([]) == Some((0, 0))
  {
  }

  lemma Sextets(p: nat)
    requires p < 0x100_0000
    ensures p / 0x4_0000 < 64
    ensures ((p / 0x4_0000 * 64 + p / 0x1000 % 64) * 64 + p / 64 % 64) * 64 + p % 64 == p
  {
    assert p / 0x1000 / 64 == p / 0x4_0000 && p / 64 / 64 == p / 0x1000;
  }

  lemma LowZeros(d: seq<Byte>)
    requires 1 <= |d| <= 3
    ensures |d| < 3 ==> Pack(d) % 64 == 0
    ensures |d| < 2 ==> Pack(d) / 64 % 64 == 0
  {
    if |d| == 1 {
      assert Pack(d) == 64 * (64 * (16 * (d[0] as int)));
    } else if |d| == 2 {
      assert Pack(d) == 64 * (0x400 * (d[0] as int) + 4 * (d[1] as int));
    }
  }

  lemma PackUnpack(d: seq<Byte>)
    requires 1 <= |d| <= 3
    ensures Unpack(Pack(d), 3 - |d|) == d
  {
    var p := Pack(d);
    assert p / 0x1_0000 == d[0];
    if |d| > 1 {
      assert p / 0x100 == d[0] as int * 0x100 + d[1] as int;
    }
  }

  // Decoding undoes encoding, for all data.
  lemma {:induction false} RoundTrip(d: seq<Byte>)
    ensures Decode(Encode(d)) == Some(d)
    decreases |d|
  {
    hide Scan, Quad, Pack, Unpack;
    if d != [] {
      var n := if |d| <= 3 then |d| else 3;
      QuadScans(d[..n]);
      PackUnpack(d[..n]);
      var s, rest := Encode(d), d[n..];
      assert d == d[..n] + rest;
      EncodeHead(d);
      assert s[..4] == Quad(d[..n]) && s[4..] == Encode(rest);
      RoundTrip(rest);
    }
  }

  lemma EncodeHead(d: seq<Byte>)
    requires d != []
    ensures var n := if |d| <= 3 then |d| else 3; Encode(d) == Quad(d[..n]) + Encode(d[n..])
    ensures |d| <= 3 ==> |Encode(d)| == 4
  {
    hide Quad;
    if |d| <= 3 {
      assert d[..|d|] == d && d[|d|..] == [];
    }
  }

  // ---- what the decoder accepts ----

  ghost predicate Padded(s: seq<Byte>, k: nat) {
    && k <= |s|
    && (forall i :: 0 <= i < |s| - k ==> Value(s[i]).Some?)
    && (forall i :: |s| - k <= i < |s| ==> s[i] == PAD)
  }

  // Groups of four, symbols of the alphabet, and at most two paddings, all at the end.
  ghost predicate WellFormed(s: seq<Byte>) {
    |s| % 4 == 0 && (Padded(s, 0) || Padded(s, 1) || Padded(s, 2))
  }

  lemma {:induction false} ScanExact(g: seq<Byte>, k: nat)
    ensures Scan(g).Some? && Scan(g).value.1 == k <==> Padded(g, k)
    decreases |g|
  {
    hide Value;
    PadIsNoSymbol();
    if g != [] {
      var h, c := g[..|g| - 1], g[|g| - 1];
      ScanExact(h, k);
      if k > 0 {
        ScanExact(h, k - 1);
      }
      ScanExact(h, 0);
      assert g == h + [c];
      if Padded(g, k) {
        assert Padded(h, if k > 0 then k - 1 else 0);
      }
    }
  }

  lemma PadIsNoSymbol()
    ensures Value(PAD).None?
  {
  }

  // The decoder yields data exactly on well-formed input.
  lemma {:induction false} DecodesExactly(s: seq<Byte>)
    ensures Decode(s).Some? <==> WellFormed(s)
    decreases |s|
  {
    hide Scan, Value, Unpack;
    if |s| >= 4 {
      var g, rest := s[..4], s[4..];
      DecodesExactly(rest);
      ScanExact(g, 0);
      ScanExact(g, 1);
      ScanExact(g, 2);
      assert s == g + rest;
      PadIsNoSymbol();
      if rest != [] {
        SplitPadding(g, rest);
      }
    }
  }

  lemma SplitPadding(g: seq<Byte>, rest: seq<Byte>)
    requires |g| == 4 && |rest| > 0
    ensures |rest| % 4 == 0 ==> (WellFormed(g + rest) <==> Padded(g, 0) && WellFormed(rest))
    ensures |rest| % 4 != 0 ==> !WellFormed(g + rest) && !WellFormed(rest)
  {
    hide Value;
    var s := g + rest;
    if |rest| % 4 == 0 {
      forall k: nat | k <= 2 ensures Padded(s, k) <==> Padded(g, 0) && Padded(rest, k) {
        assert forall i :: 0 <= i < 4 ==> s[i] == g[i];
        assert forall i :: 0 <= i < |rest| ==> s[4 + i] == rest[i];
        if Padded(s, k) {
          assert forall i :: 0 <= i < |rest| ==> rest[i] == s[4 + i];
        }
      }
    }
  }

  // ---- the standard's own words ----

  // Table 1 of RFC 4648, both ways; '=' pads and is in no other place of it.
  lemma AlphabetExact(v: nat, c: Byte)
    ensures v < 26 ==> Symbol(v) == 'A' as int + v
    ensures 26 <= v < 52 ==> Symbol(v) == 'a' as int + v - 26
    ensures 52 <= v < 62 ==> Symbol(v) == '0' as int + v - 52
    ensures Symbol(62) == '+' as int && Symbol(63) == '/' as int && PAD == '=' as int
    ensures Value(c).Some? <==>
      || 'A' as int <= c <= 'Z' as int || 'a' as int <= c <= 'z' as int || '0' as int <= c <= '9' as int
      || c == '+' as int || c == '/' as int
    ensures Value(c).Some? ==> Symbol(Value(c).value) == c
  {
  }

  // A group of four symbols is a number in base 64, and the bytes it stands for are that number
  // in base 256, high digits first.
  lemma GroupMeans(d: seq<Byte>)
    requires |d| == 3
    ensures var q := Quad(d);
      && Value(q[0]).Some? && Value(q[1]).Some? && Value(q[2]).Some? && Value(q[3]).Some?
      && Value(q[0]).value * 0x4_0000 + Value(q[1]).value * 0x1000 + Value(q[2]).value * 64 + Value(q[3]).value
         == d[0] as int * 0x1_0000 + d[1] as int * 0x100 + d[2] as int
  {
    hide Symbol, Value, Scan;
    var q := Quad(d);
    PadIsNoSymbol();
    QuadValues(d);
    QuadScans(d);
    GroupScans(q[0], q[1], q[2], q[3]);
    assert q == [q[0], q[1], q[2], q[3]];
  }

  lemma QuadValues(d: seq<Byte>)
    requires |d| == 3
    ensures var q := Quad(d); Value(q[0]).Some? && Value(q[1]).Some? && Value(q[2]).Some? && Value(q[3]).Some?
  {
    hide Symbol, Value;
    var p := Pack(d);
    SymbolValue(p / 0x4_0000);
    SymbolValue(p / 0x1000 % 64);
    SymbolValue(p / 64 % 64);
    SymbolValue(p % 64);
  }

  // What the decoder makes of any first group it accepts, canonical or not: with no padding its
  // 24 bits, with one padding the first 16 of 18, with two the first 8 of 12.
  lemma DecodeMeans(a: Byte, b: Byte, c: Byte, e: Byte, rest: seq<Byte>)
    requires Value(a).Some? && Value(b).Some? && Value(c).Some? && Value(e).Some? && Decode(rest).Some?
    ensures var n := Value(a).value * 0x4_0000 + Value(b).value * 0x1000 + Value(c).value * 64 + Value(e).value;
      && n < 0x100_0000
      && Decode([a, b, c, e] + rest) == Some([n / 0x1_0000, n / 0x100 % 256, n % 256] + Decode(rest).value)
  {
    hide Value, Decode, Scan, Unpack;
    PadIsNoSymbol();
    GroupScans(a, b, c, e);
    DecodeFirst([a, b, c, e], rest);
    UnpackExact(Value(a).value * 0x4_0000 + Value(b).value * 0x1000 + Value(c).value * 64 + Value(e).value);
  }

  lemma DecodeMeansPadded(a: Byte, b: Byte, c: Byte)
    requires Value(a).Some? && Value(b).Some? && Value(c).Some?
    ensures var n := Value(a).value * 0x1000 + Value(b).value * 64 + Value(c).value;
      n < 0x4_0000 && Decode([a, b, c, '=' as int]) == Some([n / 4 / 256, n / 4 % 256])
  {
    hide Value, Decode, Scan, Unpack;
    PadIsNoSymbol();
    var n := Value(a).value * 0x1000 + Value(b).value * 64 + Value(c).value;
    GroupScans(a, b, c, PAD);
    DecodeFirst([a, b, c, PAD], []);
    UnpackExact(n);
    assert [a, b, c, PAD] + [] == [a, b, c, PAD];
    assert Unpack(n * 64, 1) + [] == Unpack(n * 64, 1);
  }

  lemma DecodeMeansTwicePadded(a: Byte, b: Byte)
    requires Value(a).Some? && Value(b).Some?
    ensures var n := Value(a).value * 64 + Value(b).value;
      n < 0x1000 && Decode([a, b, '=' as int, '=' as int]) == Some([n / 16])
  {
    hide Value, Decode, Scan, Unpack;
    PadIsNoSymbol();
    var n := Value(a).value * 64 + Value(b).value;
    GroupScans(a, b, PAD, PAD);
    DecodeFirst([a, b, PAD, PAD], []);
    UnpackExact(n);
    assert [a, b, PAD, PAD] + [] == [a, b, PAD, PAD];
    assert Unpack(n * 0x1000, 2) + [] == Unpack(n * 0x1000, 2);
  }

  lemma UnpackExact(n: nat)
    ensures n < 0x100_0000 ==> Unpack(n, 0) == [n / 0x1_0000, n / 0x100 % 256, n % 256]
    ensures n < 0x4_0000 ==> Unpack(n * 64, 1) == [n / 4 / 256, n / 4 % 256]
    ensures n < 0x1000 ==> Unpack(n * 0x1000, 2) == [n / 16]
  {
    if n < 0x4_0000 {
      assert n * 64 / 0x100 == n / 4 && n * 64 / 0x1_0000 == n / 4 / 256;
    }
    if n < 0x1000 {
      assert n * 0x1000 / 0x1_0000 == n / 16;
    }
  }

  lemma DecodeFirst(g: seq<Byte>, rest: seq<Byte>)
    requires |g| == 4
    ensures Decode([]) == Some([])
    ensures Scan(g).Some? && Scan(g).value.1 <= 2 && (Scan(g).value.1 > 0 ==> rest == []) && Decode(rest).Some? ==>
      Decode(g + rest) == Some(Unpack(Scan(g).value.0, Scan(g).value.1) + Decode(rest).value)
  {
    hide Scan, Unpack;
    assert (g + rest)[..4] == g && (g + rest)[4..] == rest;
  }

  lemma GroupScans(a: Byte, b: Byte, c: Byte, e: Byte)
    requires Value(a).Some? && Value(b).Some? && (Value(c).Some? || c == PAD) && (Value(e).Some? || e == PAD)
    requires c == PAD ==> e == PAD
    ensures Scan([a, b, c, e]).Some?
    ensures Scan([a, b, c, e]).value.1 == if c == PAD then 2 else if e == PAD then 1 else 0
    ensures Scan([a, b, c, e]).value.0
      == Value(a).value * 0x4_0000 + Value(b).value * 0x1000 + (if c == PAD then 0 else Value(c).value * 64)
         + if e == PAD then 0 else Value(e).value
  {
    hide Scan, Value;
    PadIsNoSymbol();
    ScanNothing();
    assert [] + [a] == [a] && [a] + [b] == [a, b] && [a, b] + [c] == [a, b, c] && [a, b, c] + [e] == [a, b, c, e];
    ScanSnoc([], a);
    ScanSnoc([a], b);
    ScanSnoc([a, b], c);
    ScanSnoc([a, b, c], e);
  }

  // Test vectors of RFC 4648, section 10: "f", "fo" and "foobar".
  lemma TestVectors()
    ensures Encode(['f' as int]) == ['Z' as int, 'g' as int, '=' as int, '=' as int]
    ensures Encode(['f' as int, 'o' as int]) == ['Z' as int, 'm' as int, '8' as int, '=' as int]
    ensures Encode(['f' as int, 'o' as int, 'o' as int, 'b' as int, 'a' as int, 'r' as int])
      == ['Z' as int, 'm' as int, '9' as int, 'v' as int, 'Y' as int, 'm' as int, 'F' as int, 'y' as int]
  {
    hide Encode, Symbol, Pack;
    var foo: seq<Byte> := ['f' as int, 'o' as int, 'o' as int];
    var bar: seq<Byte> := ['b' as int, 'a' as int, 'r' as int];
    EncodeFirst(['f' as int], []);
    EncodeFirst(['f' as int, 'o' as int], []);
    EncodeFirst(foo, bar);
    EncodeFirst(bar, []);
    TestQuads();
    TestTriples();
    assert foo + bar == ['f' as int, 'o' as int, 'o' as int, 'b' as int, 'a' as int, 'r' as int];
  }

  lemma EncodeFirst(d: seq<Byte>, rest: seq<Byte>)
    requires 1 <= |d| <= 3
    ensures rest == [] ==> Encode(d) == Quad(d)
    ensures |d| == 3 && rest != [] ==> Encode(d + rest) == Quad(d) + Encode(rest)
  {
    hide Quad;
    if |d| == 3 {
      assert (d + rest)[..3] == d && (d + rest)[3..] == rest;
    }
  }

  lemma TestQuads()
    ensures Quad(['f' as int]) == ['Z' as int, 'g' as int, '=' as int, '=' as int]
    ensures Quad(['f' as int, 'o' as int]) == ['Z' as int, 'm' as int, '8' as int, '=' as int]
  {
  }

  lemma TestTriples()
    ensures Quad(['f' as int, 'o' as int, 'o' as int]) == ['Z' as int, 'm' as int, '9' as int, 'v' as int]
    ensures Quad(['b' as int, 'a' as int, 'r' as int]) == ['Y' as int, 'm' as int, 'F' as int, 'y' as int]
  {
    assert Pack(['f' as int, 'o' as int, 'o' as int]) == 0x66_6f6f;
    assert Pack(['b' as int, 'a' as int, 'r' as int]) == 0x62_6172;
  }

  // ---- the loops ----

  // Bits of the bytes read so far by the encoder's inner loop.
  function Bits(d: seq<Byte>): nat {
    if d == [] then 0 else Bits(d[..|d| - 1]) * 256 + d[|d| - 1] as int
  }

  lemma BitsPack(d: seq<Byte>)
    requires 1 <= |d| <= 3
    ensures Pack(d) == if |d| == 1 then Bits(d) * 0x1_0000 else if |d| == 2 then Bits(d) * 256 else Bits(d)
  {
    assert Bits(d[..1]) == d[0] as int by { assert d[..1][..0] == []; }
    if |d| > 1 {
      assert d[..2][..1] == d[..1];
      assert Bits(d[..2]) == Bits(d[..1]) * 256 + d[1] as int;
    }
    if |d| > 2 {
      assert d[..3][..2] == d[..2];
      assert Bits(d[..3]) == Bits(d[..2]) * 256 + d[2] as int;
    }
    assert d[..|d|] == d;
  }

  method Base64Encode(data: seq<Byte>) returns (ret: seq<Byte>)
    ensures ret == Encode(data)
  {
    hide Pack, Encode, Bits, Symbol;
    ret := [];
    var ptr := 0;
    assert data[0..] == data;
    while ptr < |data|
      invariant 0 <= ptr <= |data|
      invariant Encode(data) == ret + Encode(data[ptr..])
    {
      ghost var rest := data[ptr..];
      var packed, i, padding := 0, 0, 0;
      BitsOfNothing();
      ghost var from := ptr;
      while i < 3 && ptr < |data|
        invariant 0 <= i <= 3 && ptr == from + i <= |data|
        invariant packed == Bits(rest[..i])
      {
        BitsSnoc(rest, i);
        packed := packed * 256 + data[ptr] as int;
        i, ptr := i + 1, ptr + 1;
      }
      ghost var d := rest[..i];
      BitsPack(d);
      if i == 2 {
        padding := 1;
      } else if i == 1 {
        padding := 2;
      }
      while i < 3
        invariant |d| <= i <= 3
        invariant Pack(d) == if i == 1 then packed * 0x1_0000 else if i == 2 then packed * 256 else packed
      {
        packed := packed * 256;
        i := i + 1;
      }
      ghost var before := ret;
      ret := ret + [Symbol(packed / 0x4_0000)] + [Symbol(packed / 0x1000 % 64)];
      if padding != 2 {
        ret := ret + [Symbol(packed / 64 % 64)];
      }
      if padding == 0 {
        ret := ret + [Symbol(packed % 64)];
      }
      ret := ret + (if padding == 2 then [PAD, PAD] else if padding == 1 then [PAD] else []);
      assert ret == before + Quad(d);
      EncodeHead(rest);
      assert rest[|d|..] == data[ptr..];
    }
    NothingCoded();
    assert data[ptr..] == [];
  }

  lemma BitsOfNothing()
    ensures Bits([]) == 0
  {
  }

  lemma BitsSnoc(rest: seq<Byte>, i: nat)
    requires i < |rest|
    ensures Bits(rest[..i + 1]) == Bits(rest[..i]) * 256 + rest[i] as int
  {
    assert rest[..i + 1][..i] == rest[..i];
  }

  lemma NothingCoded()
    ensures Encode([]) == [] && Decode([]) == Some([])
  {
  }

  // An invalid start of a group spoils everything from there on.
  lemma {:induction false} ScanPrefix(g: seq<Byte>, i: nat)
    requires i <= |g| && Scan(g[..i]).None?
    ensures Scan(g).None?
    decreases |g| - i
  {
    if i < |g| {
      assert g[..i + 1][..i] == g[..i];
      ScanPrefix(g, i + 1);
    } else {
      assert g[..i] == g;
    }
  }

  lemma Spoilt(rest: seq<Byte>, i: nat)
    requires i < |rest| && i < 4 && Scan(rest[..i + 1]).None?
    ensures Decode(rest).None?
  {
    hide Scan, Unpack;
    if |rest| >= 4 {
      assert rest[..4][..i + 1] == rest[..i + 1];
      ScanPrefix(rest[..4], i + 1);
    }
  }

  lemma DecodeHead(rest: seq<Byte>, packed: nat, padding: nat)
    requires |rest| >= 4 && Scan(rest[..4]) == Some((packed, padding))
    ensures padding > 2 || (padding > 0 && |rest| > 4) ==> Decode(rest).None?
    ensures padding <= 2 && (padding > 0 ==> |rest| == 4) ==>
      Decode(rest) == if Decode(rest[4..]).None? then None else Some(Unpack(packed, padding) + Decode(rest[4..]).value)
  {
    hide Scan, Unpack;
  }

  ghost function Prepend(d: seq<Byte>, r: Option<seq<Byte>>): Option<seq<Byte>> {
    if r.None? then None else Some(d + r.value)
  }

  // The inner loop of the decoder: four characters from ptr on, or the reason to give up.
  method ReadQuad(src: seq<Byte>, ptr: nat) returns (ok: bool, packed: nat, padding: nat)
    requires ptr < |src|
    ensures !ok ==> Decode(src[ptr..]).None?
    ensures ok ==> ptr + 4 <= |src| && Scan(src[ptr..ptr + 4]) == Some((packed, padding))
  {
    hide Scan, Decode, Value;
    ghost var rest := src[ptr..];
    ScanNothing();
    assert rest[..0] == [];
    var i := 0;
    packed, padding, ok := 0, 0, false;
    while i < 4 && ptr + i < |src|
      invariant 0 <= i <= 4 && ptr + i <= |src|
      invariant Scan(rest[..i]) == Some((packed, padding))
    {
      var c := src[ptr + i];
      assert rest[..i + 1] == rest[..i] + [c];
      ScanSnoc(rest[..i], c);
      i := i + 1;
      if c == PAD {
        padding := padding + 1;
        packed := packed * 64;
        continue;
      }
      if padding > 0 {
        Spoilt(rest, i - 1);
        return;
      }
      var val := Value(c);
      if val.None? {
        Spoilt(rest, i - 1);
        return;
      }
      packed := packed * 64 + val.value;
    }
    if i != 4 {
      ShortQuad(rest);
      return;
    }
    ok := true;
    assert rest[..4] == src[ptr..ptr + 4];
  }

  lemma ShortQuad(rest: seq<Byte>)
    requires 0 < |rest| < 4
    ensures Decode(rest).None?
  {
  }

  // The result is written into a buffer of three quarters of the input's size, which is
  // always enough; malformed input gives the empty string.
  method Base64Decode(src: seq<Byte>) returns (result: seq<Byte>)
    ensures result == if Decode(src).Some? then Decode(src).value else []
  {
    hide Scan, Decode, Unpack;
    var buf := new Byte[|src| * 3 / 4](_ => 0);
    var ptr, w := 0, 0;
    NothingCoded();
    assert src[0..] == src && buf[..0] == [];
    PrependNothing(Decode(src));
    while ptr < |src|
      invariant 0 <= ptr <= |src| && 0 <= w && w * 4 <= ptr * 3
      invariant Decode(src) == Prepend(buf[..w], Decode(src[ptr..]))
    {
      ghost var rest := src[ptr..];
      var ok, packed, padding := ReadQuad(src, ptr);
      if !ok {
        return [];
      }
      assert rest[..4] == src[ptr..ptr + 4];
      ptr := ptr + 4;
      DecodeHead(rest, packed, padding);
      if padding > 0 && ptr != |src| {
        return [];
      }
      if padding > 2 {
        return [];
      }
      ghost var done := buf[..w];
      ghost var d := Unpack(packed, padding);
      UnpackParts(packed, padding);
      buf[w] := packed / 0x1_0000 % 256;
      w := w + 1;
      if padding != 2 {
        buf[w] := packed / 0x100 % 256;
        w := w + 1;
      }
      if padding == 0 {
        buf[w] := packed % 256;
        w := w + 1;
      }
      assert buf[..w] == done + d;
      assert rest[4..] == src[ptr..];
      PrependTwice(done, d, Decode(src[ptr..]));
    }
    assert src[ptr..] == [];
    result := buf[..w];
  }

  lemma UnpackParts(packed: nat, padding: nat)
    requires padding <= 2
    ensures var d := Unpack(packed, padding);
      && d[0] == packed / 0x1_0000 % 256
      && (padding != 2 ==> |d| > 1 && d[1] == packed / 0x100 % 256)
      && (padding == 0 ==> |d| > 2 && d[2] == packed % 256)
      && |d| == 3 - padding
  {
  }

  lemma PrependNothing(r: Option<seq<Byte>>)
    ensures Prepend([], r) == r
  {
    if r.Some? {
      assert [] + r.value == r.value;
    }
  }

  lemma PrependTwice(a: seq<Byte>, d: seq<Byte>, r: Option<seq<Byte>>)
    ensures Prepend(a, Prepend(d, r)) == Prepend(a + d, r)
  {
    if r.Some? {
      assert a + (d + r.value) == a + d + r.value;
    }
  }
}
