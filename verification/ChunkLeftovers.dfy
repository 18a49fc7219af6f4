// Upload directories in which a merged file was left behind, and the clean-up of old files.
module ChunkLeftovers {
  import opened FlatBytes
  import opened Options
  import opened ChunkNames
  import opened Chunks

  // ---- ranges of numbers ----

  function Range(a: nat, b: nat): (s: seq<int>)
    requires a <= b
    ensures |s| == b - a && forall i :: 0 <= i < b - a ==> s[i] == a + i
    decreases b
  {
    if a == b then [] else Range(a, b - 1) + [b - 1]
  }

  lemma RangeSplit(a: nat, b: nat, c: nat)
    requires a <= b <= c
    ensures Range(a, c) == Range(a, b) + Range(b, c)
  {
  }

  lemma RangeSplit3(a: nat, b: nat, c: nat)
    requires a <= b <= c
    ensures Range(0, c) == Range(0, a) + Range(a, b) + Range(b, c)
  {
  }

  function Times(s: seq<int>, x: int): nat { multiset(s)[x] }

  function Unit(b: bool): nat { if b then 1 else 0 }

  lemma RangeCount(a: nat, b: nat, c: nat, x: int)
    requires a <= b <= c
    ensures Times(Range(a, c), x) == Times(Range(a, b), x) + Times(Range(b, c), x)
    ensures Times(Range(a, c + 1), x) == Times(Range(a, c), x) + Unit(x == c)
  {
    RangeSplit(a, b, c);
  }

  // 0 to total - 1 without m and with v twice, in order.
  function Doubled(m: nat, v: nat, total: nat): (s: seq<int>)
    requires m < total && v < total && v != m
    ensures forall i :: 0 <= i < |s| ==> 0 <= s[i] < total
  {
    if v < m then Range(0, v + 1) + Range(v, m) + Range(m + 1, total)
    else Range(0, m) + Range(m + 1, v + 1) + Range(v, total)
  }

  lemma DoubledBag(m: nat, v: nat, total: nat)
    requires m < total && v < total && v != m
    ensures multiset(Doubled(m, v, total)) + multiset{m} == multiset(UpTo(total)) + multiset{v}
  {
    hide Doubled, UpTo;
    var (d, u) := (multiset(Doubled(m, v, total)), multiset(UpTo(total)));
    forall x ensures (d + multiset{m})[x] == (u + multiset{v})[x] {
      DoubledCount(m, v, total, x);
    }
  }

  lemma ConcatCount(a: seq<int>, b: seq<int>, c: seq<int>, x: int)
    ensures Times(a + b + c, x) == Times(a, x) + Times(b, x) + Times(c, x)
  {
  }

  lemma DoubledCount(m: nat, v: nat, total: nat, x: int)
    requires m < total && v < total && v != m
    ensures Times(Doubled(m, v, total), x) + Unit(x == m) == Times(UpTo(total), x) + Unit(x == v)
  {
    hide Range, UpTo, Times, Unit;
    UpToRange(total);
    RangeCount(0, m + 1, total, x);
    RangeCount(0, m, m, x);
    if v < m {
      RangeCount(0, v, m, x);
      RangeCount(0, v, v, x);
      ConcatCount(Range(0, v + 1), Range(v, m), Range(m + 1, total), x);
    } else {
      RangeCount(m + 1, v, total, x);
      RangeCount(m + 1, v, v, x);
      ConcatCount(Range(0, m), Range(m + 1, v + 1), Range(v, total), x);
    }
  }

  lemma UpToRange(total: nat)
    ensures UpTo(total) == Range(0, total)
  {
  }

  lemma DoubledAt(m: nat, v: nat, total: nat, i: nat)
    requires m < total && v < total && v != m && i < |Doubled(m, v, total)|
    ensures Doubled(m, v, total)[i] == if v < i <= m then i - 1 else if m <= i < v then i + 1 else i
  {
  }

  lemma DoubledAscending(m: nat, v: nat, total: nat)
    requires m < total && v < total && v != m
    ensures Ascending(Doubled(m, v, total))
    ensures forall i :: 0 <= i < |Doubled(m, v, total)| ==> Doubled(m, v, total)[i] != m
  {
    hide Doubled;
    var s := Doubled(m, v, total);
    forall i | 0 <= i < |s| ensures s[i] == if v < i <= m then i - 1 else if m <= i < v then i + 1 else i {
      DoubledAt(m, v, total, i);
    }
  }

  // Ascending sequences are equal when they have the same elements.
  lemma {:induction false} SortedUnique(s: seq<int>, t: seq<int>)
    requires Ascending(s) && Ascending(t) && multiset(s) == multiset(t)
    ensures s == t
    decreases |s|
  {
    assert |s| == |multiset(s)| && |t| == |multiset(t)|;
    if s != [] {
      assert s[0] in multiset(t) && t[0] in multiset(s);
      assert s[0] == t[0];
      assert s == [s[0]] + s[1..] && t == [t[0]] + t[1..];
      assert multiset(s[1..]) == multiset(s) - multiset{s[0]};
      assert multiset(t[1..]) == multiset(t) - multiset{s[0]};
      SortedUnique(s[1..], t[1..]);
    }
  }

  // ---- one more name in the listing ----

  lemma {:induction false} NumbersConcat(a: seq<string>, b: seq<string>)
    ensures Numbers(a + b) == Numbers(a) + Numbers(b)
    decreases |b|
  {
    hide Stoi;
    if b == [] {
      assert a + b == a;
    } else {
      var rest := b[..|b| - 1];
      NumbersConcat(a, rest);
      assert (a + b)[..|a + b| - 1] == a + rest;
    }
  }

  lemma OneNumber(x: string)
    ensures Numbers([x]) == if Stoi(x).Some? then [Stoi(x).value] else []
  {
    assert [x][..0] == [];
  }

  lemma OneNumberMore(names: seq<string>, k: nat)
    requires k < |names|
    ensures var rest := names[..k] + names[k + 1..];
      multiset(Numbers(names)) == multiset(Numbers(rest)) + multiset(Numbers([names[k]]))
    ensures Stoi(names[k]).None? ==> Numbers(names) == Numbers(names[..k] + names[k + 1..])
  {
    hide Stoi, Numbers;
    assert names == names[..k] + [names[k]] + names[k + 1..];
    NumbersConcat(names[..k], names[k + 1..]);
    NumbersConcat(names[..k], [names[k]]);
    NumbersConcat(names[..k] + [names[k]], names[k + 1..]);
    OneNumber(names[k]);
  }

  lemma OthersList(dir: Directory, names: seq<string>, target: string, leftover: seq<Byte>, k: nat)
    requires k < |names| && names[k] == target && target !in dir && Lists(names, dir[target := leftover])
    ensures Lists(names[..k] + names[k + 1..], dir)
  {
    var rest := names[..k] + names[k + 1..];
    forall x ensures x in rest <==> x in dir {
      if x in dir {
        assert x in names;
        var j :| 0 <= j < |names| && names[j] == x;
        assert rest[if j < k then j else j - 1] == x;
      }
      if x in rest {
        assert x in names;
        assert x in dir[target := leftover];
      }
    }
  }

  // ---- which slices are there ----

  ghost predicate AllThere(dir: Directory, total: nat) {
    forall i :: 0 <= i < total ==> ToString(i) in dir
  }

  ghost predicate OnlyMissing(dir: Directory, total: nat, m: nat) {
    m < total && ToString(m) !in dir && forall i :: 0 <= i < total && i != m ==> ToString(i) in dir
  }

  // A listing of one name too few misses exactly one chunk.
  lemma OneMissing(dir: Directory, rest: seq<string>, total: nat)
    requires ChunksOnly(dir, total) && Lists(rest, dir) && total <= INT_MAX
    ensures |rest| + 1 == total <==> exists m: nat :: OnlyMissing(dir, total, m)
  {
    hide ToString, NumberOf, NameSet, OnlyMissing;
    NameSetExact(total);
    DistinctCount(rest);
    var there := set x | x in rest;
    assert there <= NameSet(total);
    var gone := NameSet(total) - there;
    Remainder(there, NameSet(total));
    assert forall x :: x in there <==> x in dir;
    forall m: nat | OnlyMissing(dir, total, m) ensures gone == {ToString(m)} {
      MissingName(dir, total, m, gone);
    }
    if |gone| == 1 {
      var x := Single(gone);
      assert IsChunk(x, total);
      NameMissing(dir, total, NumberOf(x), gone);
    }
  }

  lemma Remainder(there: set<string>, all: set<string>)
    requires there <= all
    ensures |all - there| == |all| - |there|
  {
  }

  lemma Single(gone: set<string>) returns (x: string)
    requires |gone| == 1
    ensures gone == {x}
  {
    x :| x in gone;
    assert |gone - {x}| == 0;
  }

  lemma MissingName(dir: Directory, total: nat, m: nat, gone: set<string>)
    requires total <= INT_MAX && OnlyMissing(dir, total, m)
    requires forall x :: x in gone <==> IsChunk(x, total) && x !in dir
    ensures gone == {ToString(m)}
  {
    hide ToString, NumberOf;
    NumberRoundTrip(m);
    forall x ensures x in gone <==> x == ToString(m) {
      if x in gone {
        assert x == ToString(NumberOf(x));
      }
    }
  }

  lemma NameMissing(dir: Directory, total: nat, m: nat, gone: set<string>)
    requires m < total <= INT_MAX && gone == {ToString(m)}
    requires forall x :: x in gone <==> IsChunk(x, total) && x !in dir
    ensures OnlyMissing(dir, total, m)
  {
    hide ToString, NumberOf;
    NumberRoundTrip(m);
    assert ToString(m) in gone;
    forall i | 0 <= i < total && i != m ensures ToString(i) in dir {
      NumberRoundTrip(i);
      assert IsChunk(ToString(i), total) && ToString(i) !in gone;
    }
  }

  // The numbers listed are all but the missing one.
  lemma RestNumbers(dir: Directory, rest: seq<string>, total: nat, m: nat)
    requires ChunksOnly(dir, total) && Lists(rest, dir) && total <= INT_MAX && OnlyMissing(dir, total, m)
    ensures multiset(Numbers(rest)) + multiset{m} == multiset(UpTo(total))
  {
    hide Stoi, ToString, Numbers, Sorted, NumberOf;
    var x := ToString(m);
    var full := dir[x := []];
    var names := rest + [x];
    NumberRoundTrip(m);
    assert ChunksOnly(full, total) && Lists(names, full);
    ReadyExact(full, names, total);
    ReadyIndices(full, names, total);
    SortedExact(Numbers(names));
    NumbersConcat(rest, [x]);
    NameRoundTrip(m);
    OneNumber(x);
  }

  // ---- what such a directory merges to ----

  // The slices of these numbers, one after another.
  function Glued(data: seq<Byte>, chunk: nat, s: seq<int>): seq<Byte>
    requires forall i :: 0 <= i < |s| ==> 0 <= s[i]
  {
    if s == [] then []
    else Glued(data, chunk, s[..|s| - 1]) + Slice(data, chunk, s[|s| - 1])
  }

  lemma {:induction false} GluedConcat(data: seq<Byte>, chunk: nat, s: seq<int>, t: seq<int>)
    requires (forall i :: 0 <= i < |s| ==> 0 <= s[i]) && (forall i :: 0 <= i < |t| ==> 0 <= t[i])
    ensures Glued(data, chunk, s + t) == Glued(data, chunk, s) + Glued(data, chunk, t)
    decreases |t|
  {
    hide Slice;
    if t == [] {
      assert s + t == s;
    } else {
      GluedConcat(data, chunk, s, t[..|t| - 1]);
      assert (s + t)[..|s + t| - 1] == s + t[..|t| - 1];
    }
  }

  lemma StartMonotone(data: seq<Byte>, chunk: nat, a: nat, b: nat)
    requires a <= b
    ensures SliceStart(data, chunk, a) <= SliceStart(data, chunk, b)
  {
    MulMonotone(a, b, chunk);
  }

  lemma Adjacent(data: seq<Byte>, x: nat, y: nat, z: nat)
    requires x <= y <= z <= |data|
    ensures data[x..y] + data[y..z] == data[x..z]
  {
  }

  lemma {:induction false} GluedRange(data: seq<Byte>, chunk: nat, a: nat, b: nat)
    requires a <= b
    ensures SliceStart(data, chunk, a) <= SliceStart(data, chunk, b)
    ensures Glued(data, chunk, Range(a, b)) == data[SliceStart(data, chunk, a)..SliceStart(data, chunk, b)]
    decreases b
  {
    hide SliceStart, Glued;
    StartMonotone(data, chunk, a, b);
    if a == b {
      GluedEmpty(data, chunk);
    } else {
      GluedRange(data, chunk, a, b - 1);
      GluedSnoc(data, chunk, a, b - 1);
      StartMonotone(data, chunk, b - 1, b);
      Adjacent(data, SliceStart(data, chunk, a), SliceStart(data, chunk, b - 1), SliceStart(data, chunk, b));
    }
  }

  lemma {:induction false} MergedGlued(dir: Directory, data: seq<Byte>, chunk: nat, s: seq<int>)
    requires forall i :: 0 <= i < |s| ==> 0 <= s[i]
    requires forall i :: 0 <= i < |s| ==> ToString(s[i]) in dir && dir[ToString(s[i])] == Slice(data, chunk, s[i])
    ensures Merged(dir, s) == Some(Glued(data, chunk, s))
  {
    hide ToString, Slice;
    if s != [] {
      MergedGlued(dir, data, chunk, s[..|s| - 1]);
    }
  }

  // All slices but the last are full.
  lemma FullStart(data: seq<Byte>, chunk: nat, i: nat)
    requires 0 < chunk && i < TotalChunks(|data|, chunk)
    ensures SliceStart(data, chunk, i) == i * chunk < |data|
  {
    var t := TotalChunks(|data|, chunk);
    assert |data| + chunk - 1 == t * chunk + (|data| + chunk - 1) % chunk;
    MulMonotone(i + 1, t, chunk);
    assert (i + 1) * chunk == i * chunk + chunk;
  }

  ghost predicate SlicesEqual(data: seq<Byte>, chunk: nat, lo: nat, hi: nat) {
    forall i :: lo <= i < hi ==> Slice(data, chunk, i) == Slice(data, chunk, i + 1)
  }

  // A stretch equals itself one slice later exactly when its slices are all equal.
  lemma {:induction false} ShiftExact(data: seq<Byte>, chunk: nat, lo: nat, hi: nat)
    requires 0 < chunk && lo <= hi < TotalChunks(|data|, chunk)
    ensures Glued(data, chunk, Range(lo, hi)) == Glued(data, chunk, Range(lo + 1, hi + 1))
      <==> SlicesEqual(data, chunk, lo, hi)
    decreases hi
  {
    hide Slice, TotalChunks, Glued;
    if lo == hi {
      GluedEmpty(data, chunk);
    } else {
      var (a, b) := (Glued(data, chunk, Range(lo, hi - 1)), Glued(data, chunk, Range(lo + 1, hi)));
      var (p, q) := (Slice(data, chunk, hi - 1), Slice(data, chunk, hi));
      ShiftExact(data, chunk, lo, hi - 1);
      GluedSnoc(data, chunk, lo, hi - 1);
      GluedSnoc(data, chunk, lo + 1, hi);
      SameLength(data, chunk, lo, hi - 1);
      SplitEqual(a, p, b, q);
      assert SlicesEqual(data, chunk, lo, hi) <==> SlicesEqual(data, chunk, lo, hi - 1) && p == q;
    }
  }

  lemma GluedEmpty(data: seq<Byte>, chunk: nat)
    ensures Glued(data, chunk, []) == []
  {
  }

  lemma GluedSnoc(data: seq<Byte>, chunk: nat, a: nat, b: nat)
    requires a <= b
    ensures Glued(data, chunk, Range(a, b + 1)) == Glued(data, chunk, Range(a, b)) + Slice(data, chunk, b)
  {
    hide Slice;
    assert Range(a, b + 1)[..b - a] == Range(a, b);
  }

  lemma SameLength(data: seq<Byte>, chunk: nat, lo: nat, hi: nat)
    requires 0 < chunk && lo <= hi && hi + 1 < TotalChunks(|data|, chunk)
    ensures |Glued(data, chunk, Range(lo, hi))| == |Glued(data, chunk, Range(lo + 1, hi + 1))|
  {
    hide Slice, TotalChunks, Glued;
    GluedRange(data, chunk, lo, hi);
    GluedRange(data, chunk, lo + 1, hi + 1);
    FullStart(data, chunk, lo);
    FullStart(data, chunk, hi);
    FullStart(data, chunk, lo + 1);
    FullStart(data, chunk, hi + 1);
    assert (lo + 1) * chunk - lo * chunk == chunk && (hi + 1) * chunk - hi * chunk == chunk;
  }

  lemma SplitEqual(a: seq<Byte>, p: seq<Byte>, b: seq<Byte>, q: seq<Byte>)
    requires |a| == |b|
    ensures a + p == b + q <==> a == b && p == q
  {
    if a + p == b + q {
      assert a == (a + p)[..|a|] && b == (b + q)[..|b|];
      assert p == (a + p)[|a|..] && q == (b + q)[|b|..];
    }
  }

  // With v doubled in place of m the merge gives the data exactly when all slices from the one
  // to the other are equal.
  lemma DoubledExact(data: seq<Byte>, chunk: nat, m: nat, v: nat)
    requires 0 < chunk && m < TotalChunks(|data|, chunk) && v < TotalChunks(|data|, chunk) && v != m
    ensures var total := TotalChunks(|data|, chunk);
      Glued(data, chunk, Doubled(m, v, total)) == data
      <==> SlicesEqual(data, chunk, if v < m then v else m, if v < m then m else v)
  {
    hide Slice, TotalChunks, Glued, Range;
    var total := TotalChunks(|data|, chunk);
    var (lo, hi) := if v < m then (v, m) else (m, v);
    ShiftExact(data, chunk, lo, hi);
    var (a, b) := (Glued(data, chunk, Range(lo, hi)), Glued(data, chunk, Range(lo + 1, hi + 1)));
    AllOfIt(data, chunk, total);
    RangeSplit3(lo + 1, hi + 1, total);
    RangeSplit3(lo, hi, total);
    if v < m {
      Replaced(data, chunk, Range(0, lo + 1), Range(lo, hi), Range(lo + 1, hi + 1), Range(hi + 1, total));
    } else {
      Replaced(data, chunk, Range(0, lo), Range(lo + 1, hi + 1), Range(lo, hi), Range(hi, total));
    }
  }

  lemma AllOfIt(data: seq<Byte>, chunk: nat, total: nat)
    requires 0 < chunk && total == TotalChunks(|data|, chunk)
    ensures Glued(data, chunk, Range(0, total)) == data
  {
    GluedRange(data, chunk, 0, total);
    SlicesCover(data, chunk);
  }

  // Exchanging the middle of a concatenation.
  lemma Replaced(data: seq<Byte>, chunk: nat, a: seq<int>, b: seq<int>, c: seq<int>, d: seq<int>)
    requires forall i :: 0 <= i < |a| ==> 0 <= a[i]
    requires forall i :: 0 <= i < |b| ==> 0 <= b[i]
    requires forall i :: 0 <= i < |c| ==> 0 <= c[i]
    requires forall i :: 0 <= i < |d| ==> 0 <= d[i]
    ensures Glued(data, chunk, a + b + d) == Glued(data, chunk, a + c + d)
      <==> Glued(data, chunk, b) == Glued(data, chunk, c)
  {
    hide Slice, Glued;
    GluedConcat(data, chunk, a, b);
    GluedConcat(data, chunk, a + b, d);
    GluedConcat(data, chunk, a, c);
    GluedConcat(data, chunk, a + c, d);
    Cancelled(Glued(data, chunk, a), Glued(data, chunk, b), Glued(data, chunk, c), Glued(data, chunk, d));
  }

  lemma Cancelled(a: seq<Byte>, b: seq<Byte>, c: seq<Byte>, d: seq<Byte>)
    ensures a + b + d == a + c + d <==> b == c
  {
    if a + b + d == a + c + d {
      assert |b| == |c|;
      assert b == (a + b + d)[|a|..|a| + |b|] && c == (a + c + d)[|a|..|a| + |c|];
    }
  }

  // ---- the merged file left behind ----

  // A directory of slices in which a merged file was left. When stoi rejects the file's name it
  // does not matter: ready exactly with all slices, and then the data. When stoi reads a number
  // the directory counts as ready exactly when one slice is missing.
  lemma LeftoverExact(dir: Directory, names: seq<string>, data: seq<Byte>, chunk: nat,
        target: string, leftover: seq<Byte>)
    requires 0 < chunk && TotalChunks(|data|, chunk) <= INT_MAX
    requires HoldsSlices(dir, data, chunk, TotalChunks(|data|, chunk))
    requires target !in dir && !IsChunk(target, TotalChunks(|data|, chunk))
    requires Lists(names, dir[target := leftover])
    ensures var total := TotalChunks(|data|, chunk);
      if Stoi(target).None? then
        && (Ready(names, total) <==> AllThere(dir, total))
        && (Ready(names, total) ==> Merge(dir[target := leftover], names, target, total) == Some(data))
      else Ready(names, total) <==> exists m: nat :: OnlyMissing(dir, total, m)
  {
    hide Stoi, ToString, IsChunk, TotalChunks, Sorted, Merged, Numbers, Slice, OnlyMissing;
    var total := TotalChunks(|data|, chunk);
    var rest := Others(dir, names, target, leftover);
    ReadyExact(dir, rest, total);
    SortedExact(Numbers(rest));
    SortedExact(Numbers(names));
    if Stoi(target).None? {
      if Ready(names, total) {
        SlicesArePieces(dir, data, chunk, total);
        MergeExact(dir, rest, data, chunk, target);
        assert dir[target := leftover][target := []] == dir[target := []];
      }
    } else {
      OneMissing(dir, rest, total);
      AllNumbers(dir, rest, total);
      BagSizes(Numbers(names), Numbers(rest), Stoi(target).value);
    }
  }

  lemma BagSizes(s: seq<int>, t: seq<int>, v: int)
    requires multiset(s) == multiset(t) + multiset{v}
    ensures |s| == |t| + 1
  {
    assert |multiset(s)| == |s| && |multiset(t)| == |t|;
  }

  lemma SlicesArePieces(dir: Directory, data: seq<Byte>, chunk: nat, total: nat)
    requires HoldsSlices(dir, data, chunk, total)
    ensures HoldsPieces(dir, data, chunk, total)
  {
  }

  lemma AllNumbers(dir: Directory, rest: seq<string>, total: nat)
    requires ChunksOnly(dir, total) && Lists(rest, dir)
    ensures |Numbers(rest)| == |rest|
  {
    hide IsChunk;
    forall i | 0 <= i < |rest| ensures IsChunk(rest[i], total) {
      assert rest[i] in dir;
    }
    NumbersExact(rest, total);
  }

  // The listing without the merged file.
  lemma Others(dir: Directory, names: seq<string>, target: string, leftover: seq<Byte>) returns (rest: seq<string>)
    requires target !in dir && Lists(names, dir[target := leftover])
    ensures Lists(rest, dir)
    ensures if Stoi(target).None? then Numbers(names) == Numbers(rest)
            else multiset(Numbers(names)) == multiset(Numbers(rest)) + multiset{Stoi(target).value}
  {
    hide Stoi, Numbers;
    assert target in dir[target := leftover];
    var k :| 0 <= k < |names| && names[k] == target;
    rest := names[..k] + names[k + 1..];
    OthersList(dir, names, target, leftover, k);
    OneNumberMore(names, k);
    OneNumber(target);
  }

  // r is the slices with v glued in twice and m left out: the data exactly when all slices from
  // the one to the other are equal.
  ghost predicate Glues(r: Option<seq<Byte>>, data: seq<Byte>, chunk: nat, m: nat, v: int)
    requires 0 < chunk && m < TotalChunks(|data|, chunk)
  {
    && 0 <= v < TotalChunks(|data|, chunk) && v != m
    && r == Some(Glued(data, chunk, Doubled(m, v, TotalChunks(|data|, chunk))))
    && (r == Some(data) <==> SlicesEqual(data, chunk, if v < m then v else m, if v < m then m else v))
  }

  // With slice m missing and a merged file that reads as the number v: the merge fails exactly
  // when v is no saved slice. Otherwise it glues slice v in twice and leaves m out.
  lemma LeftoverMerges(dir: Directory, names: seq<string>, data: seq<Byte>, chunk: nat,
        target: string, leftover: seq<Byte>, m: nat)
    requires 0 < chunk && TotalChunks(|data|, chunk) <= INT_MAX
    requires HoldsSlices(dir, data, chunk, TotalChunks(|data|, chunk))
    requires target !in dir && !IsChunk(target, TotalChunks(|data|, chunk))
    requires Stoi(target).Some? && ToString(Stoi(target).value) != target
    requires Lists(names, dir[target := leftover]) && OnlyMissing(dir, TotalChunks(|data|, chunk), m)
    ensures Ready(names, TotalChunks(|data|, chunk))
    ensures Merge(dir[target := leftover], names, target, TotalChunks(|data|, chunk)).Some?
      <==> ToString(Stoi(target).value) in dir
    ensures ToString(Stoi(target).value) in dir ==>
      Glues(Merge(dir[target := leftover], names, target, TotalChunks(|data|, chunk)), data, chunk, m, Stoi(target).value)
  {
    hide Stoi, ToString, TotalChunks, Sorted, Merged, Numbers, Slice, Doubled, Glued, NumberOf, UpTo, SlicesEqual;
    var (total, v) := (TotalChunks(|data|, chunk), Stoi(target).value);
    LeftoverExact(dir, names, data, chunk, target, leftover);
    var rest := Others(dir, names, target, leftover);
    RestNumbers(dir, rest, total, m);
    SortedExact(Numbers(names));
    var began := dir[target := []];
    assert dir[target := leftover][target := []] == began;
    if ToString(v) in dir {
      NameRoundTrip(v);
      IsSlice(dir, total, v);
      DoubledBag(m, v, total);
      DoubledAscending(m, v, total);
      BagsCancel(Indices(names), Doubled(m, v, total), UpTo(total), multiset(Numbers(rest)), m, v);
      SortedUnique(Indices(names), Doubled(m, v, total));
      forall i | 0 <= i < |Doubled(m, v, total)|
        ensures var x := ToString(Doubled(m, v, total)[i]);
          x in began && began[x] == Slice(data, chunk, Doubled(m, v, total)[i])
      {
        NumberRoundTrip(Doubled(m, v, total)[i]);
        assert ToString(Doubled(m, v, total)[i]) in dir;
      }
      MergedGlued(began, data, chunk, Doubled(m, v, total));
      DoubledExact(data, chunk, m, v);
    } else {
      assert v in multiset(Indices(names));
      var k :| 0 <= k < |Indices(names)| && Indices(names)[k] == v;
      MergedNeeds(began, Indices(names), k);
    }
  }

  lemma IsSlice(dir: Directory, total: nat, v: int)
    requires ChunksOnly(dir, total) && ToString(v) in dir && Stoi(ToString(v)) == Some(v)
    ensures 0 <= v < total
  {
    hide Stoi, ToString;
    assert IsChunk(ToString(v), total);
  }

  lemma BagsCancel(s: seq<int>, d: seq<int>, u: seq<int>, r: multiset<int>, m: int, v: int)
    requires multiset(s) == r + multiset{v} && r + multiset{m} == multiset(u)
    requires multiset(d) + multiset{m} == multiset(u) + multiset{v}
    ensures multiset(s) == multiset(d)
  {
    forall x ensures multiset(s)[x] == multiset(d)[x] {
      assert (multiset(d) + multiset{m})[x] == (multiset(u) + multiset{v})[x];
    }
  }

  // ---- a directory over time ----

  // What happens to an upload directory: a slice is saved, the chunks are merged into the file
  // of the checksum's name, as far as they are there, or the clean-up task removes the files that
  // are old by then.
  datatype Event =
    | Put(s: Save)
    | Join(names: seq<string>)
    | Clean(aged: set<string>)

  function Happen(dir: Directory, e: Event, target: string, total: int): Directory {
    match e
    case Put(s) => SaveContent(dir, s).0
    case Join(names) =>
      if !Ready(names, total) then dir
      else dir[target := Progress(dir[target := []], Indices(names))]
    case Clean(aged) => dir - aged
  }

  function HappenAll(dir: Directory, events: seq<Event>, target: string, total: int): Directory
    decreases |events|
  {
    if events == [] then dir else HappenAll(Happen(dir, events[0], target, total), events[1..], target, total)
  }

  // Every save is of a slice and written whole.
  ghost predicate Honest(e: Event, data: seq<Byte>, chunk: nat, total: nat) {
    e.Put? ==> 0 <= e.s.index < total && e.s.content == Slice(data, chunk, e.s.index) && !e.s.disk.CutShort?
  }

  // Whatever happened, beside the merged file there are only slices: what the lemmas on
  // leftovers ask for.
  lemma {:induction false} OnlySlicesBeside(dir: Directory, events: seq<Event>, data: seq<Byte>, chunk: nat,
        target: string, total: nat)
    requires HoldsSlices(dir - {target}, data, chunk, total) && total <= INT_MAX && !IsChunk(target, total)
    requires forall i :: 0 <= i < |events| ==> Honest(events[i], data, chunk, total)
    ensures HoldsSlices(HappenAll(dir, events, target, total) - {target}, data, chunk, total)
    decreases |events|
  {
    hide Slice, ToString, Stoi, Ready, Progress;
    if events != [] {
      if events[0].Put? {
        NumberRoundTrip(events[0].s.index);
      }
      OnlySlicesBeside(Happen(dir, events[0], target, total), events[1..], data, chunk, target, total);
    }
  }

  // stoi stops at the first character that is no digit, so any checksum that goes on with a
  // letter behind a leading 1 reads as 1.
  lemma ReadsAsOne(rest: string)
    requires rest != "" && !IsDigit(rest[0])
    ensures Stoi("1" + rest) == Some(1)
  {
    var s := "1" + rest;
    assert s[0] == '1' && s[1..] == rest;
    assert DigitRun(rest) == 0 && DigitRun(s) == 1;
    assert s[..1] == "1" && "1"[..0] == "";
    assert Number("1") == 1;
  }

  // Two slices of one byte each under a checksum that reads as 1. Both are saved and merged; the
  // clean-up removes the older one. The directory counts as ready again and merges to twice the
  // second byte.
  lemma LeftoverMergesWrong(data: seq<Byte>, target: string, names: seq<string>)
    requires |data| == 2 && data[0] != data[1] && Stoi(target) == Some(1) && target != "0" && target != "1"
    requires names == ["1", target]
    ensures var (s0, s1) := (Put(Save(0, [data[0]], Whole)), Put(Save(1, [data[1]], Whole)));
      var dir := HappenAll(map[], [s0, s1, Join(["0", "1"]), Clean({"0"})], target, 2);
      && Lists(names, dir) && Ready(names, 2) && Merge(dir, names, target, 2) == Some([data[1], data[1]])
  {
    hide Stoi, Ready, Merge, Progress, HappenAll, ToString;
    var (s0, s1) := (Put(Save(0, [data[0]], Whole)), Put(Save(1, [data[1]], Whole)));
    var join, clean := Join(["0", "1"]), Clean({"0"});
    Names01();
    var d1 := map["0" := [data[0]]];
    var d2 := d1["1" := [data[1]]];
    BothReady(d2);
    var d3 := Happen(d2, join, target, 2);
    var d4 := Happen(d3, clean, target, 2);
    HappenFour(map[], [s0, s1, join, clean], target, 2);
    assert Happen(map[], s0, target, 2) == d1 && Happen(d1, s1, target, 2) == d2;
    var left := map["1" := [data[1]]];
    assert d4 == left[target := d3[target]];
    MergesLeft(left, names, data, target, d3[target]);
  }

  lemma Names01()
    ensures ToString(0) == "0" && ToString(1) == "1" && "0" != "1"
  {
    assert "0"[0] != "1"[0];
  }

  lemma HappenFour(dir: Directory, es: seq<Event>, target: string, total: int)
    requires |es| == 4
    ensures HappenAll(dir, es, target, total) ==
      Happen(Happen(Happen(Happen(dir, es[0], target, total), es[1], target, total), es[2], target, total), es[3], target, total)
  {
    hide Happen;
    var d1 := Happen(dir, es[0], target, total);
    var d2 := Happen(d1, es[1], target, total);
    var d3 := Happen(d2, es[2], target, total);
    assert HappenAll(d3, es[3..], target, total) == Happen(d3, es[3], target, total);
    assert HappenAll(d2, es[2..], target, total) == HappenAll(d3, es[3..], target, total);
    assert es[1..][1..] == es[2..];
  }

  lemma BothReady(dir: Directory)
    requires dir.Keys == {"0", "1"}
    ensures Ready(["0", "1"], 2)
  {
    hide Stoi, ToString, Ready;
    Names01();
    NumberRoundTrip(0);
    NumberRoundTrip(1);
    ReadyExact(dir, ["0", "1"], 2);
  }

  lemma MergesLeft(left: Directory, names: seq<string>, data: seq<Byte>, target: string, leftover: seq<Byte>)
    requires |data| == 2 && Stoi(target) == Some(1) && target != "0" && target != "1"
    requires left == map["1" := [data[1]]] && names == ["1", target]
    ensures Lists(names, left[target := leftover]) && Ready(names, 2)
    ensures Merge(left[target := leftover], names, target, 2) == Some([data[1], data[1]])
  {
    hide Stoi, ToString, Ready, Merge, Glued;
    Names01();
    NumberRoundTrip(0);
    NumberRoundTrip(1);
    assert TotalChunks(2, 1) == 2;
    assert Slice(data, 1, 1) == [data[1]];
    assert IsChunk(target, 2) ==> target == "1";
    LeftoverMerges(left, names, data, 1, target, leftover, 0);
    assert Doubled(0, 1, 2) == [1, 1];
    GluedTwice(data);
  }

  lemma GluedTwice(data: seq<Byte>)
    requires |data| == 2
    ensures Glued(data, 1, [1, 1]) == [data[1], data[1]]
  {
    assert [1, 1][..1] == [1] && [1][..0] == [];
    assert Slice(data, 1, 1) == [data[1]];
    assert Glued(data, 1, [1]) == [data[1]];
  }
}
