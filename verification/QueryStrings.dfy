// parseQuery on percent-encoded parameters.
module QueryStrings {
  import opened FlatBytes
  import opened Options
  import opened Percent

  // Where c first occurs in s at or after from; None is npos.
  function Find(s: seq<Byte>, c: Byte, from: nat): (r: Option<nat>)
    requires from <= |s|
    ensures r.Some? ==> from <= r.value < |s| && s[r.value] == c && forall i :: from <= i < r.value ==> s[i] != c
    ensures r.None? ==> forall i :: from <= i < |s| ==> s[i] != c
    decreases |s| - from
  {
    if from == |s| then None else if s[from] == c then Some(from) else Find(s, c, from + 1)
  }

  type Params = map<seq<Byte>, seq<Byte>>

  // The map after the parameters of q, with m the one before them.
  function Parse(q: seq<Byte>, m: Params): Params
    decreases |q|
  {
    if q == [] then m
    else
      var eq := Find(q, EQUALS, 0);
      if eq.None? then m
      else
        var next := Find(q, AMP, eq.value);
        var amp := if next.None? then |q| else next.value;
        var after := m[Decode(q[..eq.value], true) := Decode(q[eq.value + 1..amp], true)];
        if amp >= |q| then after else Parse(q[amp + 1..], after)
  }

  method ParseQuery(query: seq<Byte>) returns (m: Params)
    ensures m == Parse(query, map[])
  {
    hide Parse, Decode;
    m := map[];
    var pos := 0;
    assert query[0..] == query;
    while pos < |query|
      invariant 0 <= pos <= |query| + 1
      invariant Parse(query, map[]) == if pos <= |query| then Parse(query[pos..], m) else m
    {
      var eq := Find(query, EQUALS, pos);
      ParseStep(query, pos, m);
      if eq.None? {
        return;
      }
      var found := Find(query, AMP, eq.value);
      var amp := if found.None? then |query| else found.value;
      var key := UrlDecode(query[pos..eq.value], true);
      var value := UrlDecode(query[eq.value + 1..amp], true);
      m := m[key := value];
      pos := amp + 1;
    }
    ParseEnd(m);
    assert pos == |query| ==> query[pos..] == [];
  }

  lemma ParseEnd(m: Params)
    ensures Parse([], m) == m
  {
  }

  // Finding in a suffix is finding from its start.
  lemma {:induction false} FindShift(q: seq<Byte>, c: Byte, pos: nat, from: nat)
    requires pos + from <= |q|
    ensures Find(q, c, pos + from) ==
      if Find(q[pos..], c, from).None? then None else Some(pos + Find(q[pos..], c, from).value)
    decreases |q| - from
  {
    if pos + from < |q| && q[pos + from] != c {
      FindShift(q, c, pos, from + 1);
    }
  }

  // One parameter, then the rest.
  lemma ParseHead(q: seq<Byte>, m: Params)
    requires q != []
    ensures var eq := Find(q, EQUALS, 0);
      if eq.None? then Parse(q, m) == m
      else
        var next := Find(q, AMP, eq.value);
        var amp := if next.None? then |q| else next.value;
        var after := m[Decode(q[..eq.value], true) := Decode(q[eq.value + 1..amp], true)];
        Parse(q, m) == if amp < |q| then Parse(q[amp + 1..], after) else after
  {
    hide Decode;
  }

  // One round of the loop, in terms of the rest of the query.
  lemma ParseStep(q: seq<Byte>, pos: nat, m: Params)
    requires pos < |q|
    ensures var eq := Find(q, EQUALS, pos);
      if eq.None? then Parse(q[pos..], m) == m
      else
        var next := Find(q, AMP, eq.value);
        var amp := if next.None? then |q| else next.value;
        var after := m[Decode(q[pos..eq.value], true) := Decode(q[eq.value + 1..amp], true)];
        Parse(q[pos..], m) == if amp + 1 <= |q| then Parse(q[amp + 1..], after) else after
  {
    hide Decode, Parse, Find;
    FindShift(q, EQUALS, pos, 0);
    ParseHead(q[pos..], m);
    var eq := Find(q, EQUALS, pos);
    if eq.Some? {
      FindShift(q, AMP, pos, eq.value - pos);
      var rest := q[pos..];
      var next := Find(rest, AMP, eq.value - pos);
      var amp := if next.None? then |rest| else next.value;
      SuffixSlice(q, pos, 0, eq.value - pos);
      SuffixSlice(q, pos, eq.value - pos + 1, amp);
      if amp < |rest| {
        assert rest[amp + 1..] == q[pos + amp + 1..];
      }
    }
  }

  lemma SuffixSlice(q: seq<Byte>, pos: nat, a: nat, b: nat)
    requires a <= b && pos + b <= |q|
    ensures q[pos..][a..b] == q[pos + a..pos + b]
  {
  }

  // ---- rendering parameters ----

  datatype Param = Param(key: seq<Byte>, value: seq<Byte>)

  function Segment(p: Param): seq<Byte> {
    Percent.Encode(p.key, true) + [EQUALS] + Percent.Encode(p.value, true)
  }

  function Render(ps: seq<Param>): seq<Byte> {
    if ps == [] then []
    else if |ps| == 1 then Segment(ps[0])
    else Segment(ps[0]) + [AMP] + Render(ps[1..])
  }

  // The later of two parameters of the same name counts.
  function Assigned(ps: seq<Param>, m: Params): Params {
    if ps == [] then m else Assigned(ps[1..], m[ps[0].key := ps[0].value])
  }

  // What reading makes of a parameter: the key ends at its first '=', the rest goes to the
  // value.
  function Cut(p: Param): Param {
    var i := Find(p.key, EQUALS, 0);
    if i.None? then p else Param(p.key[..i.value], p.key[i.value + 1..] + [EQUALS] + p.value)
  }

  function CutAll(ps: seq<Param>): (r: seq<Param>)
    ensures |r| == |ps| && forall i :: 0 <= i < |ps| ==> r[i] == Cut(ps[i])
  {
    if ps == [] then [] else [Cut(ps[0])] + CutAll(ps[1..])
  }

  lemma EncodeEquals()
    ensures Percent.Encode([EQUALS], true) == [EQUALS]
  {
    assert [EQUALS][1..] == [];
  }

  // A cut parameter renders to the same text, and its key has no '='.
  lemma CutSegment(p: Param)
    ensures Segment(Cut(p)) == Segment(p)
    ensures EQUALS !in Cut(p).key
  {
    hide Percent.Encode;
    var i := Find(p.key, EQUALS, 0);
    if i.Some? {
      var a, b := p.key[..i.value], p.key[i.value + 1..];
      assert p.key == a + [EQUALS] + b;
      EncodeConcat(a + [EQUALS], b, true);
      EncodeConcat(a, [EQUALS], true);
      EncodeConcat(b + [EQUALS], p.value, true);
      EncodeConcat(b, [EQUALS], true);
      EncodeEquals();
      assert Segment(p) == Percent.Encode(a, true) + [EQUALS] + (Percent.Encode(b, true) + [EQUALS] + Percent.Encode(p.value, true));
    }
  }

  lemma FoundAt(s: seq<Byte>, c: Byte, from: nat, i: nat)
    requires from <= i < |s| && s[i] == c && forall j :: from <= j < i ==> s[j] != c
    ensures Find(s, c, from) == Some(i)
  {
  }

  // Reading one segment: everything up to the first '=' and up to the next '&'.
  lemma ParseSegment(p: Param, tail: seq<Byte>, m: Params)
    requires EQUALS !in p.key && (tail == [] || tail[0] == AMP)
    ensures Parse(Segment(p) + tail, m) ==
      if tail == [] then m[p.key := p.value] else Parse(tail[1..], m[p.key := p.value])
  {
    hide Percent.Encode, Decode, Parse, Find;
    var k, v := Percent.Encode(p.key, true), Percent.Encode(p.value, true);
    var q := Segment(p) + tail;
    EncodeAlphabet(p.key, true);
    EncodeAlphabet(p.value, true);
    SegmentEnds(k, v, tail, q);
    ParseHead(q, m);
    var amp := |k| + 1 + |v|;
    assert q[..|k|] == k && q[|k| + 1..amp] == v;
    Percent.RoundTrip(p.key, true);
    Percent.RoundTrip(p.value, true);
    if tail != [] {
      assert q[amp + 1..] == tail[1..];
    }
  }

  lemma SegmentEnds(k: seq<Byte>, v: seq<Byte>, tail: seq<Byte>, q: seq<Byte>)
    requires EQUALS !in k && AMP !in v && (tail == [] || tail[0] == AMP)
    requires q == k + [EQUALS] + v + tail
    ensures Find(q, EQUALS, 0) == Some(|k|)
    ensures Find(q, AMP, |k|) == if tail == [] then None else Some(|k| + 1 + |v|)
  {
    hide Find;
    assert |q| == |k| + 1 + |v| + |tail|;
    assert tail != [] ==> q[|k| + 1 + |v|] == tail[0];
    forall i | 0 <= i < |k| ensures q[i] != EQUALS {
      SegmentByte(k, v, tail, q, i);
    }
    forall i | |k| <= i < |k| + 1 + |v| ensures q[i] != AMP {
      SegmentByte(k, v, tail, q, i);
    }
    SegmentByte(k, v, tail, q, |k|);
    FoundAt(q, EQUALS, 0, |k|);
    if tail == [] {
      NotFound(q, AMP, |k|);
    } else {
      FoundAt(q, AMP, |k|, |k| + 1 + |v|);
    }
  }

  lemma SegmentByte(k: seq<Byte>, v: seq<Byte>, tail: seq<Byte>, q: seq<Byte>, i: nat)
    requires EQUALS !in k && AMP !in v && q == k + [EQUALS] + v + tail && i <= |k| + |v|
    ensures i < |k| ==> q[i] != EQUALS
    ensures i == |k| ==> q[i] == EQUALS
    ensures i >= |k| ==> q[i] != AMP
  {
    if i < |k| {
      assert q[i] == k[i];
    } else if i > |k| {
      assert q[i] == v[i - |k| - 1];
    }
  }

  lemma NotFound(s: seq<Byte>, c: Byte, from: nat)
    requires from <= |s| && forall i :: from <= i < |s| ==> s[i] != c
    ensures Find(s, c, from) == None
  {
  }

  // What parseQuery makes of any rendered parameters.
  lemma {:induction false} ParseExact(ps: seq<Param>, m: Params)
    ensures Parse(Render(ps), m) == Assigned(CutAll(ps), m)
    decreases |ps|
  {
    hide Segment, Cut, Parse;
    if ps == [] {
      ParseEnd(m);
    } else {
      var p := Cut(ps[0]);
      CutSegment(ps[0]);
      var after := m[p.key := p.value];
      ParseExact(ps[1..], after);
      if |ps| == 1 {
        ParseSegment(p, [], m);
        assert Segment(p) + [] == Segment(p);
        ParseEnd(after);
      } else {
        var tail := [AMP] + Render(ps[1..]);
        ParseSegment(p, tail, m);
        assert Segment(p) + tail == Render(ps);
        assert tail[1..] == Render(ps[1..]);
      }
    }
  }

  ghost predicate PlainKeys(ps: seq<Param>) {
    forall i :: 0 <= i < |ps| ==> EQUALS !in ps[i].key
  }

  // Percent-encoded parameters come back as the map they stand for exactly when no key
  // contains '=', the one reserved character that the encoder lets through.
  lemma ParseReturnsMap(ps: seq<Param>)
    ensures Parse(Render(ps), map[]) == Assigned(ps, map[]) <==> PlainKeys(ps)
  {
    hide Parse, Render, Cut;
    ParseExact(ps, map[]);
    AssignedKeys(ps, map[]);
    AssignedKeys(CutAll(ps), map[]);
    if PlainKeys(ps) {
      forall i | 0 <= i < |ps| ensures Cut(ps[i]) == ps[i] {
        CutPlain(ps[i]);
      }
      assert CutAll(ps) == ps;
    } else {
      var i :| 0 <= i < |ps| && EQUALS in ps[i].key;
      assert ps[i].key in Assigned(ps, map[]);
      if ps[i].key in Assigned(CutAll(ps), map[]) {
        var j :| 0 <= j < |ps| && CutAll(ps)[j].key == ps[i].key;
        CutSegment(ps[j]);
      }
    }
  }

  lemma CutPlain(p: Param)
    requires EQUALS !in p.key
    ensures Cut(p) == p
  {
  }

  lemma {:induction false} AssignedKeys(ps: seq<Param>, m: Params)
    ensures forall k :: k in Assigned(ps, m) <==> k in m || exists i :: 0 <= i < |ps| && ps[i].key == k
    decreases |ps|
  {
    if ps != [] {
      var after := m[ps[0].key := ps[0].value];
      AssignedKeys(ps[1..], after);
      assert Assigned(ps, m) == Assigned(ps[1..], after);
      forall k ensures k in Assigned(ps, m) <==> k in m || exists i :: 0 <= i < |ps| && ps[i].key == k {
        if k in Assigned(ps, m) && k !in m && k != ps[0].key {
          var j :| 0 <= j < |ps[1..]| && ps[1..][j].key == k;
          assert ps[j + 1].key == k;
        }
        if i :| 0 <= i < |ps| && ps[i].key == k {
          assert i > 0 ==> ps[1..][i - 1].key == k;
        }
      }
    }
  }

  lemma FoundBetween(a: seq<Byte>, c: Byte, b: seq<Byte>, from: nat)
    requires from <= |a| && forall i :: from <= i < |a| ==> a[i] != c
    ensures Find(a + [c] + b, c, from) == Some(|a|)
  {
    var s := a + [c] + b;
    assert s[|a|] == c && forall i :: from <= i < |a| ==> s[i] == a[i];
  }

  lemma FoundNowhere(a: seq<Byte>, c: Byte, from: nat)
    requires from <= |a| && forall i :: from <= i < |a| ==> a[i] != c
    ensures Find(a, c, from) == None
  {
  }

  // A parameter ends at '&' or with the string, and its key at '='; both are decoded. What has
  // no '=' is ignored.
  lemma ParseOne(key: seq<Byte>, value: seq<Byte>, rest: seq<Byte>, m: Params)
    requires (forall i :: 0 <= i < |key| ==> key[i] != '=' as int) && forall i :: 0 <= i < |value| ==> value[i] != '&' as int
    ensures Parse(key + ['=' as int] + value, m) == m[Percent.Decode(key, true) := Percent.Decode(value, true)]
    ensures Parse(key + ['=' as int] + value + ['&' as int] + rest, m)
      == Parse(rest, m[Percent.Decode(key, true) := Percent.Decode(value, true)])
    ensures Parse(key, m) == m
  {
    hide Percent.Decode, Find, Parse;
    var one := key + ['=' as int] + value;
    FoundBetween(key, '=' as int, value, 0);
    FoundBetween(key, '=' as int, value + ['&' as int] + rest, 0);
    FoundNowhere(key, '=' as int, 0);
    forall i | |key| <= i < |one| ensures one[i] != '&' as int {
      assert i > |key| ==> one[i] == value[i - |key| - 1];
    }
    FoundNowhere(one, '&' as int, |key|);
    FoundBetween(one, '&' as int, rest, |key|);
    assert one + ['&' as int] + rest == key + ['=' as int] + (value + ['&' as int] + rest);
    ParseTurn(one, m);
    ParseTurn(one + ['&' as int] + rest, m);
    ParseTurn(key, m);
    assert one[..|key|] == key && one[|key| + 1..|one|] == value;
    assert (one + ['&' as int] + rest)[..|key|] == key && (one + ['&' as int] + rest)[|key| + 1..|one|] == value;
    assert (one + ['&' as int] + rest)[|one| + 1..] == rest;
    ParseNothing(m[Percent.Decode(key, true) := Percent.Decode(value, true)]);
  }

  lemma ParseNothing(m: Params)
    ensures Parse([], m) == m
  {
  }

  lemma ParseTurn(q: seq<Byte>, m: Params)
    ensures Parse(q, m) ==
      if q == [] then m
      else
        var eq := Find(q, '=' as int, 0);
        if eq.None? then m
        else
          var next := Find(q, '&' as int, eq.value);
          var amp := if next.None? then |q| else next.value;
          var after := m[Percent.Decode(q[..eq.value], true) := Percent.Decode(q[eq.value + 1..amp], true)];
          if amp >= |q| then after else Parse(q[amp + 1..], after)
  {
  }
}
