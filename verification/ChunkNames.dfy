// The names of chunk files: std::to_string and std::stoi.
module ChunkNames {
  import opened Options

  const INT_MIN: int := -0x8000_0000
  const INT_MAX: int := 0x7fff_ffff

  predicate IsDigit(c: char) { '0' <= c <= '9' }

  predicate IsSpace(c: char) { c == ' ' || 9 as char <= c <= 13 as char }

  predicate AllDigits(s: string) { forall i :: 0 <= i < |s| ==> IsDigit(s[i]) }

  function DigitOf(c: char): (d: int)
    requires IsDigit(c)
    ensures 0 <= d < 10
  {
    c as int - '0' as int
  }

  function CharOf(d: int): (c: char)
    requires 0 <= d < 10
    ensures IsDigit(c) && DigitOf(c) == d
  {
    (d + '0' as int) as char
  }

  function Number(s: string): (n: nat)
    requires AllDigits(s)
  {
    if s == "" then 0 else Number(s[..|s| - 1]) * 10 + DigitOf(s[|s| - 1])
  }

  // The length of the leading run of digits.
  function DigitRun(s: string): (n: nat)
    ensures n <= |s| && AllDigits(s[..n]) && (n < |s| ==> !IsDigit(s[n]))
  {
    if s == "" || !IsDigit(s[0]) then 0
    else
      var n := DigitRun(s[1..]);
      assert s[..n + 1] == [s[0]] + s[1..][..n];
      1 + n
  }

  // std::stoi: leading spaces, a sign, the longest run of digits, whatever follows. None is
  // an exception: no digits, or a value that does not fit an int.
  function Stoi(s: string): (v: Option<int>)
    ensures v.Some? ==> INT_MIN <= v.value <= INT_MAX
  {
    if s != "" && IsSpace(s[0]) then Stoi(s[1..])
    else
      var negative := s != "" && s[0] == '-';
      var signed := negative || (s != "" && s[0] == '+');
      var digits := if signed then s[1..] else s;
      var n := DigitRun(digits);
      var v: int := if negative then 0 - Number(digits[..n]) else Number(digits[..n]);
      if n == 0 || v < INT_MIN || v > INT_MAX then None else Some(v)
  }

  function Digits(n: nat): (s: string)
    ensures s != "" && AllDigits(s)
  {
    if n < 10 then [CharOf(n)] else Digits(n / 10) + [CharOf(n % 10)]
  }

  function ToString(i: int): string {
    if i < 0 then "-" + Digits(-i) else Digits(i)
  }

  lemma {:induction false} DigitsNumber(n: nat)
    ensures Number(Digits(n)) == n
  {
    var s := Digits(n);
    if n < 10 {
      assert s[..0] == "";
    } else {
      DigitsNumber(n / 10);
      assert s[..|s| - 1] == Digits(n / 10);
    }
  }

  lemma {:induction false} RunOfDigits(s: string)
    requires AllDigits(s)
    ensures DigitRun(s) == |s|
  {
    if s != "" {
      RunOfDigits(s[1..]);
    }
  }

  // A chunk's number is read back from its file name.
  lemma NameRoundTrip(i: int)
    requires INT_MIN <= i <= INT_MAX
    ensures Stoi(ToString(i)) == Some(i)
  {
    var n := if i < 0 then -i else i;
    var d := Digits(n);
    DigitsNumber(n);
    RunOfDigits(d);
    assert IsDigit(d[0]);
    assert d[..|d|] == d;
    if i < 0 {
      assert ToString(i)[0] == '-' && ToString(i)[1..] == d;
    }
  }

  // ---- decimal notation ----

  // One digit stands for itself, and a longer number is its tens, then its units; a minus sign
  // comes before the digits of a negative one.
  lemma DecimalExact(n: nat, d: nat)
    requires d < 10
    ensures ToString(d) == ["0123456789"[d]]
    ensures n > 0 ==> ToString(10 * n + d) == ToString(n) + ["0123456789"[d]]
    ensures n > 0 ==> ToString(0 - n) == "-" + ToString(n)
  {
    if n > 0 {
      assert (10 * n + d) / 10 == n && (10 * n + d) % 10 == d;
    }
  }

  predicate AllSpaces(s: string) {
    forall i :: 0 <= i < |s| ==> s[i] in {' ', '\t', '\n', '\r', 11 as char, 12 as char}
  }

  // stoi reads spaces, at most one sign and the longest run of digits behind it, and stops
  // there: the number, if it fits an int.
  lemma {:induction false} StoiExact(spaces: string, sign: string, digits: string, rest: string)
    requires AllSpaces(spaces) && sign in {"", "+", "-"}
    requires digits != "" && AllDigits(digits) && (rest != "" ==> !IsDigit(rest[0]))
    ensures var v: int := if sign == "-" then 0 - Number(digits) else Number(digits);
      Stoi(spaces + sign + digits + rest) == if -0x8000_0000 <= v < 0x8000_0000 then Some(v) else None
    decreases |spaces|
  {
    hide Stoi, DigitRun, Number;
    if spaces == "" {
      assert "" + sign + digits + rest == sign + (digits + rest);
      StoiNumber(sign, digits, rest);
    } else {
      Regroup(spaces, sign, digits, rest);
      StoiSkips(spaces[0], spaces[1..] + sign + digits + rest);
      StoiExact(spaces[1..], sign, digits, rest);
    }
  }

  lemma Regroup(spaces: string, sign: string, digits: string, rest: string)
    requires spaces != ""
    ensures spaces + sign + digits + rest == [spaces[0]] + (spaces[1..] + sign + digits + rest)
  {
  }

  lemma StoiSkips(c: char, s: string)
    requires c in {' ', '\t', '\n', '\r', 11 as char, 12 as char}
    ensures Stoi([c] + s) == Stoi(s)
  {
    assert ([c] + s)[1..] == s && ([c] + s)[0] == c;
  }

  lemma StoiNumber(sign: string, digits: string, rest: string)
    requires sign in {"", "+", "-"}
    requires digits != "" && AllDigits(digits) && (rest != "" ==> !IsDigit(rest[0]))
    ensures var v: int := if sign == "-" then 0 - Number(digits) else Number(digits);
      Stoi(sign + (digits + rest)) == if -0x8000_0000 <= v < 0x8000_0000 then Some(v) else None
  {
    hide Number, DigitRun;
    var tail := digits + rest;
    RunStops(digits, rest);
    assert tail[..|digits|] == digits && tail[0] == digits[0] && IsDigit(digits[0]);
    if sign == "" {
      assert sign + tail == tail;
    } else {
      assert (sign + tail)[0] == sign[0] && (sign + tail)[1..] == tail;
    }
  }

  // Without a digit behind the spaces and the sign there is no number.
  lemma {:induction false} StoiNone(spaces: string, sign: string, rest: string)
    requires AllSpaces(spaces) && sign in {"", "+", "-"} && (rest != "" ==> !IsDigit(rest[0]))
    requires sign == "" && rest != "" ==> rest[0] != '+' && rest[0] != '-' && !IsSpace(rest[0])
    ensures Stoi(spaces + sign + rest) == None
    decreases |spaces|
  {
    var s := spaces + sign + rest;
    if spaces != "" {
      assert s[0] == spaces[0] && IsSpace(s[0]) && s[1..] == spaces[1..] + sign + rest;
      StoiNone(spaces[1..], sign, rest);
    } else {
      assert s == sign + rest;
      assert (if sign == "" then s else s[1..]) == rest;
    }
  }

  lemma {:induction false} RunStops(digits: string, rest: string)
    requires AllDigits(digits) && (rest != "" ==> !IsDigit(rest[0]))
    ensures DigitRun(digits + rest) == |digits|
  {
    if digits == "" {
      assert digits + rest == rest;
    } else {
      assert (digits + rest)[1..] == digits[1..] + rest && (digits + rest)[0] == digits[0];
      RunStops(digits[1..], rest);
    }
  }

  // The value of a run of digits, read from the left.
  lemma NumberExact(s: string, c: char)
    requires AllDigits(s) && '0' <= c <= '9'
    ensures AllDigits(s + [c]) && Number("") == 0 && Number(s + [c]) == 10 * Number(s) + (c as int - '0' as int)
  {
    assert (s + [c])[..|s|] == s;
  }
}
