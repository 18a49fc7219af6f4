// UrlEncode and UrlDecode (RFC 3986, section 2.1), on bytes.
module Percent {
  import opened FlatBytes
  import opened Options

  const PLUS: Byte := 43
  const SPACE: Byte := 32
  const PERCENT: Byte := 37
  const EQUALS: Byte := 61
  const AMP: Byte := 38

  // The table uri_chars. It holds '=' besides the characters that its comment lists.
  predicate Unreserved(c: Byte) {
    || c == 45 || c == 46 || 48 <= c <= 57 || c == EQUALS
    || 65 <= c <= 90 || c == 95 || 97 <= c <= 122 || c == 126
  }

  function HexDigit(v: int): Byte
    requires 0 <= v < 16
  {
    if v < 10 then 48 + v else 65 + v - 10
  }

  predicate IsHex(c: Byte) {
    48 <= c <= 57 || 65 <= c <= 70 || 97 <= c <= 102
  }

  // The table xdigit_chars.
  function HexValue(c: Byte): (v: nat)
    ensures v < 16
  {
    if 48 <= c <= 57 then c - 48
    else if 65 <= c <= 70 then c - 65 + 10
    else if 97 <= c <= 102 then c - 97 + 10
    else 0
  }

  function EncodeByte(c: Byte, plus: bool): (d: seq<Byte>)
    ensures d != []
  {
    if Unreserved(c) then [c]
    else if c == SPACE && plus then [PLUS]
    else [PERCENT, HexDigit(c / 16), HexDigit(c % 16)]
  }

  function Encode(s: seq<Byte>, plus: bool): seq<Byte> {
    if s == [] then [] else EncodeByte(s[0], plus) + Encode(s[1..], plus)
  }

  predicate Escape(d: seq<Byte>) {
    |d| > 2 && d[0] == PERCENT && IsHex(d[1]) && IsHex(d[2])
  }

  // A percent sign that no two hexadecimal digits follow stands for itself.
  function Decode(d: seq<Byte>, plus: bool): seq<Byte> {
    if d == [] then []
    else if d[0] == PLUS && plus then [SPACE] + Decode(d[1..], plus)
    else if Escape(d) then [HexValue(d[1]) * 16 + HexValue(d[2])] + Decode(d[3..], plus)
    else [d[0]] + Decode(d[1..], plus)
  }

  // ---- round trip ----

  lemma HexRoundTrip(v: int)
    requires 0 <= v < 16
    ensures IsHex(HexDigit(v)) && HexValue(HexDigit(v)) == v
  {
  }

  lemma DecodeOne(c: Byte, rest: seq<Byte>, plus: bool)
    ensures Decode(EncodeByte(c, plus) + rest, plus) == [c] + Decode(rest, plus)
  {
    HexRoundTrip(c / 16);
    HexRoundTrip(c % 16);
    var e := EncodeByte(c, plus);
    assert (e + rest)[|e|..] == rest;
    assert c == c / 16 * 16 + c % 16;
  }

  // Decoding undoes encoding, for every string and both settings of the flag.
  lemma {:induction false} RoundTrip(s: seq<Byte>, plus: bool)
    ensures Decode(Encode(s, plus), plus) == s
  {
    hide EncodeByte;
    if s != [] {
      DecodeOne(s[0], Encode(s[1..], plus), plus);
      RoundTrip(s[1..], plus);
    }
  }

  lemma {:induction false} EncodeConcat(a: seq<Byte>, b: seq<Byte>, plus: bool)
    ensures Encode(a + b, plus) == Encode(a, plus) + Encode(b, plus)
  {
    hide EncodeByte;
    if a == [] {
      assert a + b == b;
    } else {
      assert (a + b)[1..] == a[1..] + b;
      EncodeConcat(a[1..], b, plus);
    }
  }

  // Only characters that need no escaping in a query come out, and '=' only from '='.
  lemma {:induction false} EncodeAlphabet(s: seq<Byte>, plus: bool)
    ensures forall i :: 0 <= i < |Encode(s, plus)| ==>
      var c := Encode(s, plus)[i]; Unreserved(c) || c == PERCENT || c == PLUS
    ensures EQUALS in Encode(s, plus) <==> EQUALS in s
    ensures AMP !in Encode(s, plus)
  {
    if s != [] {
      EncodeAlphabet(s[1..], plus);
      var e := EncodeByte(s[0], plus);
      HexIsUnreserved(s[0] / 16);
      HexIsUnreserved(s[0] % 16);
      assert EQUALS in e <==> s[0] == EQUALS;
      assert s == [s[0]] + s[1..];
    }
  }

  lemma HexIsUnreserved(v: int)
    requires 0 <= v < 16
    ensures Unreserved(HexDigit(v)) && HexDigit(v) != EQUALS
  {
  }

  // ---- the tables in the standard's words ----

  // The unreserved characters of RFC 3986, section 2.3, and '='; hexadecimal digits of either
  // case; what stands for a space.
  lemma TablesExact(c: Byte)
    ensures Unreserved(c) <==>
      || 'A' as int <= c <= 'Z' as int || 'a' as int <= c <= 'z' as int || '0' as int <= c <= '9' as int
      || c == '-' as int || c == '.' as int || c == '_' as int || c == '~' as int || c == '=' as int
    ensures IsHex(c) <==> '0' as int <= c <= '9' as int || 'A' as int <= c <= 'F' as int || 'a' as int <= c <= 'f' as int
    ensures '0' as int <= c <= '9' as int ==> HexValue(c) == c - '0' as int
    ensures 'A' as int <= c <= 'F' as int ==> HexValue(c) == c - 'A' as int + 10
    ensures 'a' as int <= c <= 'f' as int ==> HexValue(c) == c - 'a' as int + 10
    ensures PLUS == '+' as int && SPACE == ' ' as int && PERCENT == '%' as int && EQUALS == '=' as int && AMP == '&' as int
  {
  }

  // One character: itself, a plus sign for a space if so asked, or a percent sign and its two
  // digits in upper case.
  lemma EncodeOne(c: Byte, plus: bool)
    ensures Encode([c], plus) ==
      if Unreserved(c) then [c]
      else if c == ' ' as int && plus then ['+' as int]
      else ['%' as int, "0123456789ABCDEF"[c / 16] as int, "0123456789ABCDEF"[c % 16] as int]
  {
    assert [c][1..] == [];
    UpperDigit(c / 16);
    UpperDigit(c % 16);
  }

  lemma UpperDigit(v: nat)
    requires v < 16
    ensures HexDigit(v) == "0123456789ABCDEF"[v] as int
  {
  }

  // What the decoder makes of the front of any string: an escape in digits of either case is
  // one byte, a plus sign is a space if so asked, and anything else stands for itself, a percent
  // sign without two digits behind it included.
  lemma DecodeFront(d: seq<Byte>, plus: bool)
    requires d != []
    ensures d[0] == '+' as int ==> Decode(d, plus) == [if plus then ' ' as int else '+' as int] + Decode(d[1..], plus)
    ensures |d| > 2 && d[0] == '%' as int && IsHex(d[1]) && IsHex(d[2]) ==>
      Decode(d, plus) == [16 * HexValue(d[1]) + HexValue(d[2])] + Decode(d[3..], plus)
    ensures d[0] == '%' as int && !(|d| > 2 && IsHex(d[1]) && IsHex(d[2])) ==> Decode(d, plus) == [d[0]] + Decode(d[1..], plus)
    ensures d[0] != '%' as int && d[0] != '+' as int ==> Decode(d, plus) == [d[0]] + Decode(d[1..], plus)
  {
  }

  // So "%2f" and "%2F" are both a slash.
  lemma EitherCase(digit: Byte, rest: seq<Byte>, plus: bool)
    requires digit == 'f' as int || digit == 'F' as int
    ensures Decode(['%' as int, '2' as int, digit] + rest, plus) == ['/' as int] + Decode(rest, plus)
  {
    hide Decode;
    var d: seq<Byte> := ['%' as int, '2' as int, digit];
    DecodeFront(d + rest, plus);
    assert (d + rest)[3..] == rest;
  }

  // ---- the loops ----

  // ss is the output buffer, made only when the output starts to differ from the input.
  method UrlEncode(str: seq<Byte>, plus: bool) returns (r: seq<Byte>)
    ensures r == Encode(str, plus)
  {
    hide Encode, EncodeByte, Unreserved, HexDigit;
    var ss: Option<seq<Byte>> := None;
    var c := 0;
    assert str[0..] == str && str[..0] == [];
    while c < |str|
      invariant 0 <= c <= |str|
      invariant Encode(str, plus) == Output(ss, str, c) + Encode(str[c..], plus)
    {
      ghost var before := Output(ss, str, c);
      EncodeHead(str[c..], plus);
      EncodeCases(str[c], plus);
      assert str[c..][1..] == str[c + 1..] && str[..c + 1] == str[..c] + [str[c]];
      if !Unreserved(str[c]) {
        if ss.None? {
          ss := Some(str[..c]);
        }
        if str[c] == SPACE && plus {
          ss := Some(ss.value + [PLUS]);
        } else {
          ss := Some(ss.value + [PERCENT, HexDigit(str[c] / 16), HexDigit(str[c] % 16)]);
        }
      } else if ss.Some? {
        ss := Some(ss.value + [str[c]]);
      }
      assert Output(ss, str, c + 1) == before + EncodeByte(str[c], plus);
      Reassociate(before, EncodeByte(str[c], plus), Encode(str[c + 1..], plus));
      c := c + 1;
    }
    EncodeEnd(plus);
    assert str[c..] == [] && str[..c] == str;
    r := if ss.None? then str else ss.value;
  }

  // What the loop has produced: the input itself as long as there is no buffer.
  function Output(ss: Option<seq<Byte>>, str: seq<Byte>, c: nat): seq<Byte>
    requires c <= |str|
  {
    if ss.None? then str[..c] else ss.value
  }

  lemma Reassociate(a: seq<Byte>, b: seq<Byte>, c: seq<Byte>)
    ensures a + (b + c) == (a + b) + c
  {
  }

  lemma EncodeCases(c: Byte, plus: bool)
    ensures EncodeByte(c, plus) ==
      if Unreserved(c) then [c]
      else if c == SPACE && plus then [PLUS]
      else [PERCENT, HexDigit(c / 16), HexDigit(c % 16)]
  {
  }

  lemma EncodeHead(s: seq<Byte>, plus: bool)
    requires s != []
    ensures Encode(s, plus) == EncodeByte(s[0], plus) + Encode(s[1..], plus)
  {
  }

  lemma EncodeEnd(plus: bool)
    ensures Encode([], plus) == [] && Decode([], plus) == []
  {
  }

  method UrlDecode(str: seq<Byte>, plus: bool) returns (r: seq<Byte>)
    ensures r == Decode(str, plus)
  {
    hide Decode, HexValue, IsHex, Escape;
    var ss: Option<seq<Byte>> := None;
    var c := 0;
    ghost var out: seq<Byte> := [];
    assert str[0..] == str && str[..0] == [];
    while c < |str|
      invariant 0 <= c <= |str|
      invariant out == Output(ss, str, c) && Decode(str, plus) == out + Decode(str[c..], plus)
    {
      DecodeAt(str, c, plus);
      TakeOne(str, c);
      if str[c] == PLUS && plus {
        if ss.None? {
          ss := Some(str[..c]);
        }
        ss := Some(ss.value + [SPACE]);
        Reassociate(out, [SPACE], Decode(str[c + 1..], plus));
        out := out + [SPACE];
      } else if str[c] == PERCENT && c + 2 < |str| && IsHex(str[c + 1]) && IsHex(str[c + 2]) {
        if ss.None? {
          ss := Some(str[..c]);
        }
        var byte := HexValue(str[c + 1]) * 16 + HexValue(str[c + 2]);
        ss := Some(ss.value + [byte]);
        Reassociate(out, [byte], Decode(str[c + 3..], plus));
        out := out + [byte];
        c := c + 2;
      } else {
        if ss.Some? {
          ss := Some(ss.value + [str[c]]);
        }
        Reassociate(out, [str[c]], Decode(str[c + 1..], plus));
        out := out + [str[c]];
      }
      c := c + 1;
    }
    EncodeEnd(plus);
    assert str[c..] == [] && str[..c] == str;
    r := if ss.None? then str else ss.value;
  }

  lemma TakeOne(str: seq<Byte>, c: nat)
    requires c < |str|
    ensures str[..c + 1] == str[..c] + [str[c]]
  {
  }

  // The decoder's next step, by positions.
  lemma DecodeAt(str: seq<Byte>, c: nat, plus: bool)
    requires c < |str|
    ensures Decode(str[c..], plus) ==
      if str[c] == PLUS && plus then [SPACE] + Decode(str[c + 1..], plus)
      else if str[c] == PERCENT && c + 2 < |str| && IsHex(str[c + 1]) && IsHex(str[c + 2]) then
        [HexValue(str[c + 1]) * 16 + HexValue(str[c + 2])] + Decode(str[c + 3..], plus)
      else [str[c]] + Decode(str[c + 1..], plus)
  {
    hide HexValue, IsHex;
    var d := str[c..];
    assert d[0] == str[c] && d[1..] == str[c + 1..];
    if c + 2 < |str| {
      assert d[1] == str[c + 1] && d[2] == str[c + 2] && d[3..] == str[c + 3..];
    }
  }
}
