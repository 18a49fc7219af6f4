// Chunked uploads: slices saved one by one in an upload directory, counted, and merged.
module Chunks {
  import opened FlatBytes
  import opened Options
  import opened ChunkNames

  // The regular files of an upload directory (the code calls it a task path).
  type Directory = map<string, seq<Byte>>

  // ---- listing ----

  // A readdir order of the directory: every name once.
  ghost predicate Lists(names: seq<string>, dir: Directory) {
    && (forall x :: x in names <==> x in dir)
    && (forall i, j :: 0 <= i < j < |names| ==> names[i] != names[j])
  }

  // The numbers among the names; names that stoi rejects are skipped.
  function Numbers(names: seq<string>): seq<int> {
    if names == [] then []
    else
      var v := Stoi(names[|names| - 1]);
      Numbers(names[..|names| - 1]) + if v.Some? then [v.value] else []
  }

  function InsertSorted(x: int, s: seq<int>): seq<int> {
    if s == [] || x <= s[0] then [x] + s else [s[0]] + InsertSorted(x, s[1..])
  }

  // std::sort.
  function Sorted(s: seq<int>): seq<int> {
    if s == [] then [] else InsertSorted(s[0], Sorted(s[1..]))
  }

  // FSUtil::GetIndices.
  function Indices(names: seq<string>): seq<int> {
    Sorted(Numbers(names))
  }

  ghost predicate Ascending(s: seq<int>) {
    forall i, j :: 0 <= i < j < |s| ==> s[i] <= s[j]
  }

  lemma {:induction false} InsertSortedBag(x: int, s: seq<int>)
    ensures multiset(InsertSorted(x, s)) == multiset(s) + multiset{x}
    ensures |InsertSorted(x, s)| == |s| + 1
  {
    if s != [] && x > s[0] {
      InsertSortedBag(x, s[1..]);
      assert s == [s[0]] + s[1..];
    }
  }

  lemma {:induction false} InsertSortedMembers(x: int, s: seq<int>)
    ensures forall y :: y in InsertSorted(x, s) ==> y == x || y in s
  {
    if s != [] && x > s[0] {
      InsertSortedMembers(x, s[1..]);
    }
  }

  lemma {:induction false} InsertSortedAscending(x: int, s: seq<int>)
    requires Ascending(s)
    ensures Ascending(InsertSorted(x, s))
  {
    if s != [] && x > s[0] {
      var r := InsertSorted(x, s[1..]);
      InsertSortedAscending(x, s[1..]);
      InsertSortedMembers(x, s[1..]);
      forall j | 0 <= j < |r| ensures s[0] <= r[j] {
        assert r[j] in r;
      }
    }
  }

  lemma {:induction false} SortedExact(s: seq<int>)
    ensures Ascending(Sorted(s)) && multiset(Sorted(s)) == multiset(s) && |Sorted(s)| == |s|
  {
    if s != [] {
      SortedExact(s[1..]);
      InsertSortedBag(s[0], Sorted(s[1..]));
      InsertSortedAscending(s[0], Sorted(s[1..]));
      assert s == [s[0]] + s[1..];
    }
  }

  // ---- merging ----

  // The contents of the files of the given numbers, one after another; None when one of them
  // does not open.
  function Merged(dir: Directory, indices: seq<int>): Option<seq<Byte>> {
    if indices == [] then Some([])
    else
      var i := indices[|indices| - 1];
      var before := Merged(dir, indices[..|indices| - 1]);
      if before.None? || ToString(i) !in dir then None else Some(before.value + dir[ToString(i)])
  }

  // What the merge has written when it ends or meets a missing file.
  function Progress(dir: Directory, indices: seq<int>): seq<Byte>
    decreases |indices|
  {
    var r := Merged(dir, indices);
    if r.Some? then r.value
    else if indices == [] then []
    else Progress(dir, indices[..|indices| - 1])
  }

  // isAllChunksReady.
  predicate Ready(names: seq<string>, total: int) {
    |Indices(names)| == total
  }

  // mergeChunks: the merged file, or None where the code returns an empty path. The file is
  // opened, empty, before the chunks are read.
  function Merge(dir: Directory, names: seq<string>, target: string, total: int): Option<seq<Byte>> {
    if |Indices(names)| != total then None else Merged(dir[target := []], Indices(names))
  }

  // ---- a directory of slices ----

  // The declared size cut into chunks: how many, and the i-th.
  function TotalChunks(size: nat, chunk: nat): nat
    requires 0 < chunk
  {
    (size + chunk - 1) / chunk
  }

  function SliceStart(data: seq<Byte>, chunk: nat, i: nat): (p: nat)
    ensures p <= |data|
  {
    if i * chunk <= |data| then i * chunk else |data|
  }

  function Slice(data: seq<Byte>, chunk: nat, i: nat): seq<Byte> {
    MulMonotone(i, i + 1, chunk);
    data[SliceStart(data, chunk, i)..SliceStart(data, chunk, i + 1)]
  }

  // Only slices of the data, each under its own number.
  function NumberOf(x: string): int {
    var v := Stoi(x);
    if v.Some? then v.value else -1
  }

  ghost predicate HoldsSlices(dir: Directory, data: seq<Byte>, chunk: nat, total: nat) {
    ChunksOnly(dir, total) && forall x :: x in dir ==> dir[x] == Slice(data, chunk, NumberOf(x))
  }

  // The same, of slices that may be cut short.
  ghost predicate HoldsPieces(dir: Directory, data: seq<Byte>, chunk: nat, total: nat) {
    ChunksOnly(dir, total) && forall x :: x in dir ==> dir[x] <= Slice(data, chunk, NumberOf(x))
  }

  ghost predicate ChunksOnly(dir: Directory, total: nat) {
    forall x :: x in dir ==> IsChunk(x, total)
  }

  ghost predicate IsChunk(x: string, total: nat) {
    0 <= NumberOf(x) < total && x == ToString(NumberOf(x))
  }

  lemma {:induction false} NumbersExact(names: seq<string>, total: nat)
    requires forall i :: 0 <= i < |names| ==> IsChunk(names[i], total)
    ensures |Numbers(names)| == |names|
    ensures forall i :: 0 <= i < |names| ==> Numbers(names)[i] == NumberOf(names[i])
  {
    hide Stoi, ToString;
    if names != [] {
      var last := |names| - 1;
      assert IsChunk(names[last], total);
      NumbersExact(names[..last], total);
    }
  }

  // Distinct numbers below total, as many as total: all of them, in order.
  lemma {:induction false} Pigeonhole(s: seq<int>, total: nat)
    requires Ascending(s) && |s| == total
    requires forall i, j :: 0 <= i < j < |s| ==> s[i] != s[j]
    requires forall i :: 0 <= i < |s| ==> 0 <= s[i] < total
    ensures forall i :: 0 <= i < total ==> s[i] == i
  {
    forall i | 0 <= i < total ensures s[i] == i {
      AtLeast(s, i);
      AtMost(s, i, total);
    }
  }

  lemma {:induction false} AtLeast(s: seq<int>, i: nat)
    requires i < |s| && (forall a, b :: 0 <= a < b < |s| ==> s[a] <= s[b] && s[a] != s[b]) && 0 <= s[0]
    ensures i <= s[i]
  {
    if i > 0 {
      AtLeast(s, i - 1);
    }
  }

  lemma {:induction false} AtMost(s: seq<int>, i: nat, total: nat)
    requires i < |s| == total && forall a, b :: 0 <= a < b < |s| ==> s[a] <= s[b] && s[a] != s[b]
    requires s[total - 1] < total
    ensures s[i] <= i
    decreases total - i
  {
    if i < total - 1 {
      AtMost(s, i + 1, total);
    }
  }

  lemma DistinctByBag(s: seq<int>, t: seq<int>)
    requires multiset(s) == multiset(t) && forall i, j :: 0 <= i < j < |s| ==> s[i] != s[j]
    ensures forall i, j :: 0 <= i < j < |t| ==> t[i] != t[j]
  {
    forall i, j | 0 <= i < j < |t| ensures t[i] != t[j] {
      OnceInBag(s, t[i]);
      if t[i] == t[j] {
        TwiceInBag(t, i, j);
      }
    }
  }

  lemma {:induction false} OnceInBag(s: seq<int>, x: int)
    requires forall i, j :: 0 <= i < j < |s| ==> s[i] != s[j]
    ensures multiset(s)[x] <= 1
  {
    if s != [] {
      assert s == [s[0]] + s[1..];
      assert forall i, j :: 0 <= i < j < |s[1..]| ==> s[1..][i] != s[1..][j] by {
        assert forall i :: 0 <= i < |s[1..]| ==> s[1..][i] == s[i + 1];
      }
      OnceInBag(s[1..], x);
      assert s[0] !in s[1..];
    }
  }

  lemma TwiceInBag(t: seq<int>, i: nat, j: nat)
    requires i < j < |t| && t[i] == t[j]
    ensures multiset(t)[t[i]] >= 2
  {
    assert t == t[..i] + [t[i]] + t[i + 1..j] + [t[j]] + t[j + 1..];
  }

  function UpTo(n: nat): (s: seq<int>)
    ensures |s| == n && forall i :: 0 <= i < n ==> s[i] == i
  {
    if n == 0 then [] else UpTo(n - 1) + [n - 1]
  }

  // A full directory of chunks lists as 0, 1, ..., total - 1, whatever the readdir order.
  lemma ReadyIndices(dir: Directory, names: seq<string>, total: nat)
    requires ChunksOnly(dir, total) && Lists(names, dir) && Ready(names, total)
    ensures Indices(names) == UpTo(total)
  {
    hide Stoi, ToString, Sorted, Numbers;
    forall i | 0 <= i < |names| ensures IsChunk(names[i], total) {
      assert names[i] in dir;
    }
    NumbersExact(names, total);
    var ns := Numbers(names);
    SortedExact(ns);
    forall i, j | 0 <= i < j < |ns| ensures ns[i] != ns[j] {
      assert IsChunk(names[i], total) && IsChunk(names[j], total);
    }
    DistinctByBag(ns, Sorted(ns));
    forall i | 0 <= i < |Sorted(ns)| ensures 0 <= Sorted(ns)[i] < total {
      assert Sorted(ns)[i] in multiset(Sorted(ns));
      assert Sorted(ns)[i] in multiset(ns);
    }
    Pigeonhole(Sorted(ns), total);
  }

  // Merging the first n pieces gives the first n chunks of the data exactly when each is whole.
  lemma {:induction false} MergedPieces(dir: Directory, data: seq<Byte>, chunk: nat, n: nat)
    requires forall i :: 0 <= i < n ==> ToString(i) in dir && dir[ToString(i)] <= Slice(data, chunk, i)
    ensures var r := Merged(dir, UpTo(n));
      && r.Some? && |r.value| <= SliceStart(data, chunk, n)
      && (r.value == data[..SliceStart(data, chunk, n)]
          <==> forall i :: 0 <= i < n ==> dir[ToString(i)] == Slice(data, chunk, i))
  {
    hide ToString;
    if n > 0 {
      MergedPieces(dir, data, chunk, n - 1);
      assert UpTo(n)[..n - 1] == UpTo(n - 1);
      MulMonotone(n - 1, n, chunk);
      var a, b := SliceStart(data, chunk, n - 1), SliceStart(data, chunk, n);
      assert Slice(data, chunk, n - 1) == data[a..b];
      PiecesMeet(data, a, b, Merged(dir, UpTo(n - 1)).value, dir[ToString(n - 1)]);
    }
  }

  lemma PiecesMeet(data: seq<Byte>, a: nat, b: nat, p: seq<Byte>, q: seq<Byte>)
    requires a <= b <= |data| && |p| <= a && q <= data[a..b]
    ensures p + q == data[..b] <==> p == data[..a] && q == data[a..b]
  {
    assert data[..b] == data[..a] + data[a..b];
    if p + q == data[..b] {
      assert p == (p + q)[..a] && q == (p + q)[a..];
    }
  }

  lemma SlicesCover(data: seq<Byte>, chunk: nat)
    requires 0 < chunk
    ensures SliceStart(data, chunk, TotalChunks(|data|, chunk)) == |data|
  {
    var t := TotalChunks(|data|, chunk);
    assert |data| + chunk - 1 == t * chunk + (|data| + chunk - 1) % chunk;
  }

  // ---- reassembly ----

  // A directory of pieces that counts as ready merges to something, whatever order the pieces
  // came in and the directory lists them; to the original bytes exactly when each is whole.
  lemma MergeExact(dir: Directory, names: seq<string>, data: seq<Byte>, chunk: nat, target: string)
    requires 0 < chunk && HoldsPieces(dir, data, chunk, TotalChunks(|data|, chunk)) && Lists(names, dir)
    requires target !in dir && !IsChunk(target, TotalChunks(|data|, chunk))
    requires Ready(names, TotalChunks(|data|, chunk))
    ensures var r := Merge(dir, names, target, TotalChunks(|data|, chunk));
      r.Some? && (r.value == data <==> HoldsSlices(dir, data, chunk, TotalChunks(|data|, chunk)))
  {
    hide Stoi, ToString, NumberOf, Slice, Indices, SliceStart, Merged, TotalChunks;
    var total := TotalChunks(|data|, chunk);
    ReadyIndices(dir, names, total);
    AllPresent(dir, names, total);
    var began := dir[target := []];
    MergedPieces(began, data, chunk, total);
    SlicesCover(data, chunk);
    assert data[..|data|] == data;
    assert forall x :: x in dir ==> 0 <= NumberOf(x) < total && x == ToString(NumberOf(x));
  }

  // Every chunk is there.
  lemma AllPresent(dir: Directory, names: seq<string>, total: nat)
    requires ChunksOnly(dir, total) && Lists(names, dir) && Ready(names, total)
    ensures forall i :: 0 <= i < total ==> ToString(i) in dir && NumberOf(ToString(i)) == i
  {
    hide Stoi, ToString, Sorted, Numbers, NumberOf;
    ReadyIndices(dir, names, total);
    forall i | 0 <= i < |names| ensures IsChunk(names[i], total) {
      assert names[i] in dir;
    }
    NumbersExact(names, total);
    SortedExact(Numbers(names));
    forall i | 0 <= i < total ensures ToString(i) in dir && NumberOf(ToString(i)) == i {
      assert UpTo(total)[i] in multiset(Indices(names));
      assert i in multiset(Numbers(names));
      var k :| 0 <= k < |Numbers(names)| && Numbers(names)[k] == i;
      assert names[k] in dir && IsChunk(names[k], total);
    }
  }

  // ---- uploads in any order ----

  // How the disk takes a write: as a whole; not even the file opens; or the file keeps the
  // first n bytes, which the stream has noticed when good() is asked, or has not.
  datatype Disk = Whole | NotOpened | CutShort(n: nat, noticed: bool)

  datatype Save = Save(index: int, content: seq<Byte>, disk: Disk)

  // What a save leaves in its file.
  function Kept(s: Save): (r: seq<Byte>)
    ensures r <= s.content
  {
    if s.disk.CutShort? && s.disk.n < |s.content| then s.content[..s.disk.n] else s.content
  }

  predicate Opens(s: Save) { s.content != [] && !s.disk.NotOpened? }

  // saveChunkContent: a chunk replaces an earlier try; an empty one is rejected.
  function SaveContent(dir: Directory, s: Save): (Directory, bool) {
    if !Opens(s) then (dir, false)
    else (dir[ToString(s.index) := Kept(s)], !(s.disk.CutShort? && s.disk.noticed))
  }

  // What a save answers and leaves: it succeeds for contents that are not empty, in a file that
  // opens, unless a cut is noticed; the file then holds what was written, and no other moves.
  lemma SaveExact(dir: Directory, s: Save)
    ensures var (t, ok) := SaveContent(dir, s);
      && (ok <==> s.content != [] && (s.disk == Whole || (s.disk.CutShort? && !s.disk.noticed)))
      && (s.content == [] || s.disk == NotOpened ==> t == dir)
      && (s.content != [] && s.disk != NotOpened ==>
            && t.Keys == dir.Keys + {ToString(s.index)} && (forall x :: x in dir && x != ToString(s.index) ==> t[x] == dir[x])
            && (s.disk == Whole || |s.content| <= s.disk.n ==> t[ToString(s.index)] == s.content)
            && (s.disk.CutShort? && s.disk.n < |s.content| ==> t[ToString(s.index)] == s.content[..s.disk.n]))
  {
    hide ToString;
  }

  function SaveAll(dir: Directory, saves: seq<Save>): Directory
    decreases |saves|
  {
    if saves == [] then dir else SaveAll(SaveContent(dir, saves[0]).0, saves[1..])
  }

  ghost predicate SlicesOnly(saves: seq<Save>, data: seq<Byte>, chunk: nat, total: nat) {
    forall i :: 0 <= i < |saves| ==>
      0 <= saves[i].index < total && saves[i].content == Slice(data, chunk, saves[i].index)
  }

  // What the last save of that chunk that opened its file has left there, if there was any.
  function LastTry(saves: seq<Save>, i: int): Option<seq<Byte>>
    decreases |saves|
  {
    if saves == [] then None
    else
      var later := LastTry(saves[1..], i);
      if later.Some? then later
      else if saves[0].index == i && Opens(saves[0]) then Some(Kept(saves[0]))
      else None
  }

  lemma {:induction false} SavesKeepPieces(dir: Directory, saves: seq<Save>, data: seq<Byte>, chunk: nat, total: nat)
    requires HoldsPieces(dir, data, chunk, total) && SlicesOnly(saves, data, chunk, total) && total <= INT_MAX
    ensures HoldsPieces(SaveAll(dir, saves), data, chunk, total)
    decreases |saves|
  {
    hide Stoi, ToString, Slice, Kept;
    if saves != [] {
      NameRoundTrip(saves[0].index);
      SavesKeepPieces(SaveContent(dir, saves[0]).0, saves[1..], data, chunk, total);
    }
  }

  // The file of a chunk holds what its last try left.
  lemma {:induction false} LastTryIsThere(dir: Directory, saves: seq<Save>, i: nat, total: nat)
    requires i < total <= INT_MAX && forall k :: 0 <= k < |saves| ==> 0 <= saves[k].index < total
    ensures var t, x := SaveAll(dir, saves), ToString(i);
      if LastTry(saves, i).Some? then x in t && t[x] == LastTry(saves, i).value
      else (x in t <==> x in dir) && (x in dir ==> t[x] == dir[x])
    decreases |saves|
  {
    hide ToString, Stoi, Kept;
    if saves != [] {
      NameRoundTrip(i);
      NameRoundTrip(saves[0].index);
      LastTryIsThere(SaveContent(dir, saves[0]).0, saves[1..], i, total);
    }
  }

  // Slices of the declared size are not empty, so each of them can be saved.
  lemma SliceNotEmpty(data: seq<Byte>, chunk: nat, i: nat)
    requires 0 < chunk && i < TotalChunks(|data|, chunk)
    ensures Slice(data, chunk, i) != []
  {
    var t := TotalChunks(|data|, chunk);
    assert |data| + chunk - 1 == t * chunk + (|data| + chunk - 1) % chunk;
    MulMonotone(i + 1, t, chunk);
    assert (i + 1) * chunk == i * chunk + chunk;
  }

  // The directory counts as ready exactly when every chunk is there.
  lemma ReadyExact(dir: Directory, names: seq<string>, total: nat)
    requires ChunksOnly(dir, total) && Lists(names, dir) && total <= INT_MAX
    ensures Ready(names, total) <==> forall i :: 0 <= i < total ==> ToString(i) in dir
  {
    hide Stoi, ToString, Sorted, Numbers, NumberOf;
    if Ready(names, total) {
      AllPresent(dir, names, total);
    }
    if forall i :: 0 <= i < total ==> ToString(i) in dir {
      forall i | 0 <= i < |names| ensures IsChunk(names[i], total) {
        assert names[i] in dir;
      }
      NumbersExact(names, total);
      SortedExact(Numbers(names));
      CountNames(dir, names, total);
    }
  }

  ghost function NameSet(n: nat): set<string> {
    if n == 0 then {} else NameSet(n - 1) + {ToString(n - 1)}
  }

  lemma ChunkBelow(x: string, n: nat)
    requires 0 < n <= INT_MAX
    ensures IsChunk(x, n) <==> IsChunk(x, n - 1) || x == ToString(n - 1)
    ensures !IsChunk(ToString(n - 1), n - 1)
  {
    hide Stoi, ToString;
    NameRoundTrip(n - 1);
  }

  lemma {:induction false} NameSetExact(n: nat)
    requires n <= INT_MAX
    ensures |NameSet(n)| == n
    ensures forall x :: x in NameSet(n) <==> IsChunk(x, n)
  {
    hide ToString, IsChunk;
    if n == 0 {
      NoChunks();
    } else {
      NameSetExact(n - 1);
      ChunkBelow(ToString(n - 1), n);
      forall x ensures x in NameSet(n) <==> IsChunk(x, n) {
        ChunkBelow(x, n);
      }
    }
  }

  lemma NoChunks()
    ensures forall x :: !IsChunk(x, 0)
  {
  }

  lemma {:induction false} DistinctCount(names: seq<string>)
    requires forall i, j :: 0 <= i < j < |names| ==> names[i] != names[j]
    ensures |set x | x in names| == |names|
  {
    if names != [] {
      var rest := names[..|names| - 1];
      DistinctCount(rest);
      assert (set x | x in names) == (set x | x in rest) + {names[|names| - 1]};
    }
  }

  lemma CountNames(dir: Directory, names: seq<string>, total: nat)
    requires Lists(names, dir) && total <= INT_MAX
    requires forall x :: x in dir ==> IsChunk(x, total)
    requires forall i :: 0 <= i < total ==> ToString(i) in dir
    ensures |names| == total
  {
    hide ToString, NumberOf;
    NameSetExact(total);
    DistinctCount(names);
    forall x ensures x in names <==> x in NameSet(total) {
      if IsChunk(x, total) {
        assert x == ToString(NumberOf(x));
      }
    }
    assert (set x | x in names) == NameSet(total);
  }

  ghost predicate AllTried(saves: seq<Save>, total: nat) {
    forall i :: 0 <= i < total ==> LastTry(saves, i).Some?
  }

  ghost predicate AllWhole(saves: seq<Save>, data: seq<Byte>, chunk: nat, total: nat) {
    forall i :: 0 <= i < total ==> LastTry(saves, i) == Some(Slice(data, chunk, i))
  }

  // From an empty directory: whatever slices are saved, in whatever order, how often and with
  // whatever luck, the directory is ready exactly when each has been opened for writing once;
  // merging then gives the data exactly when the last such try of each slice wrote all of it.
  lemma AnyOrderRestores(saves: seq<Save>, names: seq<string>, data: seq<Byte>, chunk: nat, target: string)
    requires 0 < chunk && TotalChunks(|data|, chunk) <= INT_MAX
    requires SlicesOnly(saves, data, chunk, TotalChunks(|data|, chunk)) && Lists(names, SaveAll(map[], saves))
    requires !IsChunk(target, TotalChunks(|data|, chunk))
    ensures var total := TotalChunks(|data|, chunk);
      var r := Merge(SaveAll(map[], saves), names, target, total);
      && (Ready(names, total) <==> AllTried(saves, total))
      && (Ready(names, total) ==> r.Some? && (r.value == data <==> AllWhole(saves, data, chunk, total)))
  {
    hide Ready, Merge, TotalChunks, Slice, ToString, NumberOf, AllTried, AllWhole;
    var total := TotalChunks(|data|, chunk);
    var dir := SaveAll(map[], saves);
    StartEmpty(saves, data, chunk, total);
    ReadyExact(dir, names, total);
    TriesExact(dir, saves, data, chunk, total);
    if Ready(names, total) {
      MergeExact(dir, names, data, chunk, target);
    }
  }

  lemma TriesExact(dir: Directory, saves: seq<Save>, data: seq<Byte>, chunk: nat, total: nat)
    requires dir == SaveAll(map[], saves) && SlicesOnly(saves, data, chunk, total) && total <= INT_MAX
    requires ChunksOnly(dir, total)
    ensures (forall i :: 0 <= i < total ==> ToString(i) in dir) <==> AllTried(saves, total)
    ensures AllTried(saves, total) ==> (HoldsSlices(dir, data, chunk, total) <==> AllWhole(saves, data, chunk, total))
  {
    hide ToString, LastTry, Slice, NumberOf;
    forall i | 0 <= i < total
      ensures NumberOf(ToString(i)) == i && (ToString(i) in dir <==> LastTry(saves, i).Some?)
      ensures ToString(i) in dir ==> LastTry(saves, i) == Some(dir[ToString(i)])
    {
      LastTryIsThere(map[], saves, i, total);
      NumberRoundTrip(i);
    }
    if AllTried(saves, total) && AllWhole(saves, data, chunk, total) {
      forall x | x in dir ensures dir[x] == Slice(data, chunk, NumberOf(x)) {
        assert IsChunk(x, total) && LastTry(saves, NumberOf(x)) == Some(dir[ToString(NumberOf(x))]);
      }
    }
  }

  lemma NumberRoundTrip(i: nat)
    requires i <= INT_MAX
    ensures NumberOf(ToString(i)) == i
  {
    NameRoundTrip(i);
  }

  lemma StartEmpty(saves: seq<Save>, data: seq<Byte>, chunk: nat, total: nat)
    requires SlicesOnly(saves, data, chunk, total) && total <= INT_MAX
    ensures HoldsPieces(SaveAll(map[], saves), data, chunk, total)
  {
    SavesKeepPieces(map[], saves, data, chunk, total);
  }

  // When every write is whole: ready exactly when each slice was saved, and then the data.
  lemma WholeWritesRestore(saves: seq<Save>, names: seq<string>, data: seq<Byte>, chunk: nat, target: string)
    requires 0 < chunk && TotalChunks(|data|, chunk) <= INT_MAX
    requires SlicesOnly(saves, data, chunk, TotalChunks(|data|, chunk)) && Lists(names, SaveAll(map[], saves))
    requires !IsChunk(target, TotalChunks(|data|, chunk))
    requires forall k :: 0 <= k < |saves| ==> saves[k].disk.Whole?
    ensures var total := TotalChunks(|data|, chunk);
      && (Ready(names, total) <==> AllSaved(saves, total))
      && (Ready(names, total) ==> Merge(SaveAll(map[], saves), names, target, total) == Some(data))
  {
    hide Ready, Merge, TotalChunks, Slice, IsChunk, ToString, LastTry, SaveAll;
    AnyOrderRestores(saves, names, data, chunk, target);
    forall i | 0 <= i < TotalChunks(|data|, chunk)
      ensures LastTry(saves, i) == if Saved(saves, i) then Some(Slice(data, chunk, i)) else None
    {
      WholeTries(saves, data, chunk, i);
    }
    assert AllSaved(saves, TotalChunks(|data|, chunk)) <==> AllTried(saves, TotalChunks(|data|, chunk));
  }

  ghost predicate AllSaved(saves: seq<Save>, total: nat) {
    forall i :: 0 <= i < total ==> Saved(saves, i)
  }

  lemma {:induction false} WholeTries(saves: seq<Save>, data: seq<Byte>, chunk: nat, i: nat)
    requires 0 < chunk && i < TotalChunks(|data|, chunk) && SlicesOnly(saves, data, chunk, TotalChunks(|data|, chunk))
    requires forall k :: 0 <= k < |saves| ==> saves[k].disk.Whole?
    ensures LastTry(saves, i) == if Saved(saves, i) then Some(Slice(data, chunk, i)) else None
    decreases |saves|
  {
    hide Slice, TotalChunks;
    if saves != [] {
      SliceNotEmpty(data, chunk, i);
      WholeTries(saves[1..], data, chunk, i);
      SavedFirst(saves, i);
      assert saves[0].index == i ==> Opens(saves[0]) && Kept(saves[0]) == Slice(data, chunk, i);
    }
  }

  ghost predicate Saved(saves: seq<Save>, i: int) {
    exists k :: 0 <= k < |saves| && saves[k].index == i
  }

  lemma SavedFirst(saves: seq<Save>, i: int)
    requires saves != []
    ensures Saved(saves, i) <==> saves[0].index == i || Saved(saves[1..], i)
  {
    if Saved(saves[1..], i) {
      var k :| 0 <= k < |saves[1..]| && saves[1..][k].index == i;
      assert saves[k + 1].index == i;
    }
    if Saved(saves, i) && saves[0].index != i {
      var k :| 0 <= k < |saves| && saves[k].index == i;
      assert saves[1..][k - 1].index == i;
    }
  }

  // ---- the directory as the program uses it ----

  class TaskDirectory {
    var files: Directory

    constructor ()
      ensures files == map[]
    {
      files := map[];
    }

    // disk says how opening and writing the file go.
    method SaveChunkContent(content: seq<Byte>, index: int, disk: Disk) returns (ok: bool)
      modifies this
      ensures (files, ok) == SaveContent(old(files), Save(index, content, disk))
    {
      if content == [] {
        return false;
      }
      if disk.NotOpened? {
        return false;
      }
      var path := ToString(index);
      files := files[path := []];
      if disk.CutShort? {
        files := files[path := if disk.n < |content| then content[..disk.n] else content];
        assert files == old(files)[path := files[path]];
        return !disk.noticed;
      }
      files := files[path := content];
      assert files == old(files)[path := content];
      ok := true;
    }

    // names is the order in which readdir returns the entries.
    method GetIndices(names: seq<string>) returns (indices: seq<int>)
      ensures indices == Indices(names)
    {
      hide Stoi;
      indices := [];
      var k := 0;
      assert names[..0] == [];
      while k < |names|
        invariant 0 <= k <= |names|
        invariant indices == Numbers(names[..k])
      {
        assert names[..k + 1][..k] == names[..k];
        var v := Stoi(names[k]);
        if v.Some? {
          indices := indices + [v.value];
        }
        k := k + 1;
      }
      assert names[..k] == names;
      indices := Sorted(indices);
    }

    method IsAllChunksReady(names: seq<string>, total: int) returns (ready: bool)
      ensures ready == Ready(names, total)
    {
      var indices := GetIndices(names);
      ready := |indices| == total;
    }

    // One stream read to its end through a buffer.
    method CopyAll(src: seq<Byte>, room: nat) returns (out: seq<Byte>)
      requires 0 < room
      ensures out == src
    {
      out := [];
      var pos, good := 0, true;
      while good
        invariant 0 <= pos <= |src| && out == src[..pos]
        invariant !good ==> pos == |src|
        decreases |src| - pos, good
      {
        var count := if |src| - pos < room then |src| - pos else room;
        if count > 0 {
          out := out + src[pos..pos + count];
        }
        pos := pos + count;
        good := count == room;
      }
    }

    method MergeFiles(target: string, indices: seq<int>) returns (ok: bool)
      modifies this
      ensures ok <==> Merged(old(files)[target := []], indices).Some?
      ensures (forall i :: 0 <= i < |indices| ==> ToString(indices[i]) != target) ==>
        files == old(files)[target := Progress(old(files)[target := []], indices)]
    {
      hide ToString, Progress;
      files := files[target := []];
      ghost var began := files;
      var merged: seq<Byte> := [];
      var k := 0;
      assert indices[..0] == [];
      while k < |indices|
        invariant 0 <= k <= |indices|
        invariant Merged(began, indices[..k]).Some?
        invariant (forall i :: 0 <= i < |indices| ==> ToString(indices[i]) != target) ==>
          merged == Merged(began, indices[..k]).value
        invariant files == began[target := merged]
      {
        assert indices[..k + 1][..k] == indices[..k];
        var path := ToString(indices[k]);
        if path !in files {
          MergedNeeds(began, indices, k);
          ProgressStops(began, indices, k);
          return false;
        }
        var part := CopyAll(files[path], 1024 * 1024);
        merged := merged + part;
        files := files[target := merged];
        k := k + 1;
      }
      assert indices[..k] == indices;
      ProgressWhole(began, indices);
      ok := true;
    }

    method MergeChunks(names: seq<string>, target: string, total: int) returns (path: Option<string>)
      requires Lists(names, files)
      modifies this
      ensures path.Some? <==> Merge(old(files), names, target, total).Some?
      ensures path.Some? ==> path.value == target
      ensures path.Some? && (forall i :: 0 <= i < |Indices(names)| ==> ToString(Indices(names)[i]) != target) ==>
        files == old(files)[target := Merge(old(files), names, target, total).value]
    {
      hide ToString, Indices, Merged, Progress;
      var indices := GetIndices(names);
      ProgressWhole(files[target := []], indices);
      if |indices| != total {
        return None;
      }
      var ok := MergeFiles(target, indices);
      path := if ok then Some(target) else None;
    }
  }

  lemma ProgressWhole(dir: Directory, indices: seq<int>)
    ensures Merged(dir, indices).Some? ==> Progress(dir, indices) == Merged(dir, indices).value
  {
  }

  // The merge stops at the first missing file.
  lemma {:induction false} ProgressStops(dir: Directory, indices: seq<int>, k: nat)
    requires k < |indices| && ToString(indices[k]) !in dir && Merged(dir, indices[..k]).Some?
    ensures Progress(dir, indices) == Merged(dir, indices[..k]).value
    decreases |indices|
  {
    hide ToString;
    MergedNeeds(dir, indices, k);
    var rest := indices[..|indices| - 1];
    assert rest[..k] == indices[..k];
    if k == |indices| - 1 {
      ProgressWhole(dir, rest);
    } else {
      ProgressStops(dir, rest, k);
    }
  }

  // A missing file fails the merge.
  lemma {:induction false} MergedNeeds(dir: Directory, indices: seq<int>, k: nat)
    requires k < |indices| && ToString(indices[k]) !in dir
    ensures Merged(dir, indices).None?
    decreases |indices|
  {
    hide ToString;
    if k < |indices| - 1 {
      MergedNeeds(dir, indices[..|indices| - 1], k);
    }
  }
}
