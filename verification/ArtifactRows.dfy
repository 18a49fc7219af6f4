// The rows of file_info: how they are named, and which of them a request writes or removes.
module ArtifactRows {
  import opened ArtifactStore

  predicate SlashFree(s: string) { forall i :: 0 <= i < |s| ==> s[i] != '/' }

  predicate Plain(c: Coord) { SlashFree(c.version) && SlashFree(c.build) && SlashFree(c.name) }

  // The parts of a name between its slashes.
  function Split(s: string): (parts: seq<string>)
    ensures parts != []
  {
    if s == "" then [""]
    else if s[0] == '/' then [""] + Split(s[1..])
    else
      var rest := Split(s[1..]);
      [[s[0]] + rest[0]] + rest[1..]
  }

  lemma {:induction false} SplitPlain(a: string)
    requires SlashFree(a)
    ensures Split(a) == [a]
  {
    if a != "" {
      SplitPlain(a[1..]);
      assert a == [a[0]] + a[1..];
    }
  }

  lemma {:induction false} SplitAt(a: string, b: string)
    requires SlashFree(a)
    ensures Split(a + "/" + b) == [a] + Split(b)
  {
    var s := a + "/" + b;
    if a == "" {
      assert s == "/" + b && s[1..] == b;
    } else {
      SplitAt(a[1..], b);
      assert s[1..] == a[1..] + "/" + b && s[0] == a[0];
      assert a == [a[0]] + a[1..];
    }
  }

  function Parts(c: Coord): seq<string> {
    if c.version == "" then [c.name] else if c.build == "" then [c.version, c.name] else [c.version, c.build, c.name]
  }

  // The name of a coordinate whose parts hold no slash is made of its version, if it has one,
  // of its build, if it has both, and of the artifact's name.
  lemma StorageNameParts(c: Coord)
    requires Plain(c)
    ensures Split(StorageName(c)) == Parts(c)
  {
    hide Split;
    SplitPlain(c.name);
    SplitAt(c.version, c.name);
    SplitAt(c.build, c.name);
    SplitAt(c.version, c.build + "/" + c.name);
    Regroup(c.version, "/", c.build, c.name);
  }

  lemma Regroup(a: string, s: string, b: string, c: string)
    ensures a + s + (b + s + c) == a + s + b + s + c
  {
  }

  // Two coordinates share a name exactly when name and version agree, and the build too unless
  // there is no version: a build without a version does not show in the name.
  lemma SharedNameExact(c: Coord, d: Coord)
    requires Plain(c) && Plain(d)
    ensures StorageName(c) == StorageName(d) <==>
      c.name == d.name && c.version == d.version && (c.version == "" || c.build == d.build)
  {
    StorageNameParts(c);
    StorageNameParts(d);
  }

  // ---- which rows go ----

  lemma {:induction false} WithoutConcat(a: seq<FileRow>, b: seq<FileRow>, owner: string, filename: string)
    ensures WithoutFiles(a + b, owner, filename) == WithoutFiles(a, owner, filename) + WithoutFiles(b, owner, filename)
  {
    if a == [] {
      assert a + b == b;
    } else {
      WithoutConcat(a[1..], b, owner, filename);
      assert (a + b)[1..] == a[1..] + b && (a + b)[0] == a[0];
    }
  }

  // Every row of that owner and name goes, and every other row stays as often as it was there.
  lemma {:induction false} WithoutExact(files: seq<FileRow>, owner: string, filename: string, r: FileRow)
    ensures multiset(WithoutFiles(files, owner, filename))[r]
      == if r.owner == owner && r.filename == filename then 0 else multiset(files)[r]
  {
    if files != [] {
      WithoutExact(files[1..], owner, filename, r);
      assert files == [files[0]] + files[1..];
    }
  }

  // And the rows that stay keep their order.
  lemma {:induction false} WithoutInOrder(files: seq<FileRow>, owner: string, filename: string) returns (from: seq<nat>)
    ensures var kept := WithoutFiles(files, owner, filename);
      && |from| == |kept| && (forall i :: 0 <= i < |from| ==> from[i] < |files| && kept[i] == files[from[i]])
      && forall i, j :: 0 <= i < j < |from| ==> from[i] < from[j]
  {
    from := [];
    if files != [] {
      var n := |files| - 1;
      var row := files[n];
      from := WithoutInOrder(files[..n], owner, filename);
      WithoutConcat(files[..n], [row], owner, filename);
      assert files == files[..n] + [row];
      assert [row][1..] == [] && WithoutFiles([], owner, filename) == [];
      if !(row.owner == owner && row.filename == filename) {
        from := from + [n];
      }
    }
  }

  // A delete that gets so far removes exactly the rows under its coordinate's name in its
  // project. Before that it removes none, and it never adds one.
  lemma DeleteRows(db: Db, c: Coord, f: Faults, r: FileRow)
    ensures var t := Delete(db, c, f).0;
      multiset(t.files)[r] ==
        if !f.lookup && c in db.artifacts && DeleteStarts(f) && !f.removeFile
           && r.owner == c.project && r.filename == StorageName(c)
        then 0 else multiset(db.files)[r]
  {
    hide StorageName, WithoutFiles;
    WithoutExact(db.files, c.project, StorageName(c), r);
  }

  // So it leaves the rows of another coordinate alone, unless the two share a name.
  lemma DeleteKeepsOthers(db: Db, c: Coord, f: Faults, d: Coord, r: FileRow)
    requires Plain(c) && Plain(d) && r.owner == d.project && r.filename == StorageName(d)
    requires c.project != d.project || c.name != d.name || c.version != d.version || (c.version != "" && c.build != d.build)
    ensures multiset(Delete(db, c, f).0.files)[r] == multiset(db.files)[r]
  {
    hide StorageName, Delete;
    DeleteRows(db, c, f, r);
    SharedNameExact(c, d);
  }

  // Two builds without a version share their rows: deleting one removes those of both.
  lemma BuildsWithoutVersionShareRows(db: Db, c: Coord, d: Coord, f: Faults, r: FileRow)
    requires Plain(c) && Plain(d) && c == d.(build := c.build) && c.version == ""
    requires r.owner == d.project && r.filename == StorageName(d)
    requires !f.lookup && c in db.artifacts && DeleteStarts(f) && !f.removeFile
    ensures r !in Delete(db, c, f).0.files
  {
    hide StorageName, Delete;
    DeleteRows(db, c, f, r);
    SharedNameExact(c, d);
    assert r !in multiset(Delete(db, c, f).0.files);
  }

  // ---- which rows come ----

  // The row of a request: checksum and file, under the project and the coordinate's name.
  predicate RowOf(r: FileRow, m: Meta, fileId: string) {
    && r.md5 == m.checksum && r.fileId == fileId && r.owner == m.at.project
    && (Plain(m.at) ==> Split(r.filename) == Parts(m.at))
  }

  // A publish that commits adds one row, at the end; any other adds none.
  lemma PublishAddsRow(db: Db, m: Meta, fileId: string, f: Faults)
    ensures var t := Publish(db, m, fileId, f).0;
      if PublishCommits(db, m, f) then
        |t.files| == |db.files| + 1 && t.files[..|db.files|] == db.files && RowOf(t.files[|db.files|], m, fileId)
      else t.files == db.files
  {
    hide StorageName, Split, Parts, Plain;
    if Plain(m.at) {
      StorageNameParts(m.at);
    }
  }

  lemma ShareAddsRow(db: Db, m: Meta, f: Faults)
    requires m.checksum in db.shared
    ensures var t := Share(db, m, f).0;
      if ShareCommits(m, f) then
        && |t.files| == |db.files| + 1 && t.files[..|db.files|] == db.files
        && RowOf(t.files[|db.files|], m, if f.fileId then "" else db.shared[m.checksum].fileId)
      else t.files == db.files
  {
    hide StorageName, Split, Parts, Plain;
    if Plain(m.at) {
      StorageNameParts(m.at);
    }
  }

  // A precheck adds one row exactly when it shares a file and commits that, with the name of
  // the shared file; the other branches touch no row.
  lemma PrecheckAddsRow(db: Db, m: Meta, f: Faults)
    ensures var t := Precheck(db, m, f).0;
      if Decided(db, m, f) == Sharing && ShareCommits(m, f) then
        && |t.files| == |db.files| + 1 && t.files[..|db.files|] == db.files
        && m.checksum in db.shared
        && RowOf(t.files[|db.files|], m, if f.fileId then "" else db.shared[m.checksum].fileId)
      else t.files == db.files
  {
    hide StorageName, OwnedBy, Share, RowOf, ShareCommits;
    OwnedByRow(db, m.checksum, m.at.project);
    if m.checksum in db.shared {
      ShareAddsRow(db, m, f);
    }
  }

  // ---- which branch a precheck takes ----

  datatype Branch = Taken | Reusing | Sharing | Sending

  // A coordinate that is taken decides first, in artifact mode; then a row of the same project
  // and checksum; then a shared file of that checksum. A query that fails finds nothing.
  ghost function Decided(db: Db, m: Meta, f: Faults): Branch {
    if m.artifactMode && !f.lookup && m.at in db.artifacts then Taken
    else if !f.owned && exists r :: r in db.files && r.md5 == m.checksum && r.owner == m.at.project then Reusing
    else if !f.isShared && m.checksum in db.shared then Sharing
    else Sending
  }

  lemma OwnedByRow(db: Db, md5: string, owner: string)
    ensures OwnedBy(db, md5, owner) <==> exists r :: r in db.files && r.md5 == md5 && r.owner == owner
  {
    if OwnedBy(db, md5, owner) {
      var i :| 0 <= i < |db.files| && db.files[i].md5 == md5 && db.files[i].owner == owner;
      assert db.files[i] in db.files;
    }
  }

  // Whether CreateArtifact succeeds: the table is there, and the coordinate is free and the
  // insert goes well, or a query finds it with the same checksum.
  predicate Accepted(artifacts: map<Coord, Artifact>, m: Meta, f: Faults) {
    && f.ensure.Ensured?
    && if m.at in artifacts then !f.recheck && artifacts[m.at].checksum == m.checksum else !f.insert
  }

  // The answer of every precheck, in artifact mode and out of it.
  lemma PrecheckDecides(db: Db, m: Meta, f: Faults)
    ensures Precheck(db, m, f).1 == match Decided(db, m, f)
      case Taken => if m.at in db.artifacts && db.artifacts[m.at].checksum == m.checksum then Existing else Conflict
      case Reusing =>
        if !m.artifactMode || (!f.fileId && m.checksum in db.shared && db.shared[m.checksum].fileId != "" && Accepted(db.artifacts, m, f))
        then InstantExisting else Failed
      case Sharing =>
        if !f.increment && !f.createFile && (m.artifactMode ==> Accepted(db.artifacts, m, f)) then InstantShared else Failed
      case Sending => SendBytes
  {
    hide OwnedBy, StorageName;
    OwnedByRow(db, m.checksum, m.at.project);
  }

  // And of every publish.
  lemma PublishDecides(db: Db, m: Meta, fileId: string, f: Faults)
    ensures Publish(db, m, fileId, f).1 <==>
      && !f.createFile && !f.createShared && m.checksum !in db.shared
      && (m.artifactMode ==> Accepted(db.artifacts, m, f))
  {
    hide StorageName;
  }

  // And of every delete: what stops it, in order, and whether the last reference went.
  lemma DeleteDecides(db: Db, c: Coord, f: Faults)
    ensures var r := Delete(db, c, f).1;
      && (r.NotFound? <==> f.lookup || c !in db.artifacts)
      && (r.Removed? ==>
            && r.fileId == db.artifacts[c].fileId
            && var refs := if db.artifacts[c].checksum in db.shared then db.shared[db.artifacts[c].checksum].refs else -1;
               (r.physical <==> refs == 0 || refs == 1))
      && (r.Aborted? <==>
            && !r.NotFound?
            && var x := db.artifacts[c].checksum;
               (f.ensure != Ensured || f.remove || f.removeFile || f.decrement || f.count || x !in db.shared
                || db.shared[x].refs < 0 || (db.shared[x].refs <= 1 && f.removeShared)))
  {
    hide StorageName, WithoutFiles;
  }
}
