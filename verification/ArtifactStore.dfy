// The tables behind the artifact servlets and the transactions on them.
module ArtifactStore {
  import opened Options

  // project, version, build and name: the unique key of artifact_info.
  datatype Coord = Coord(project: string, version: string, build: string, name: string)

  datatype Meta = Meta(at: Coord, checksum: string, artifactMode: bool)

  datatype FileRow = FileRow(md5: string, fileId: string, owner: string, filename: string)
  datatype Shared = Shared(fileId: string, refs: int)
  datatype Artifact = Artifact(checksum: string, fileId: string)

  // file_info has no unique key, its rows are kept in the order of their ids; file_shared is
  // unique by checksum, artifact_info by coordinate.
  datatype Db = Db(files: seq<FileRow>, shared: map<string, Shared>, artifacts: map<Coord, Artifact>)

  // How EnsureArtifactTable goes: its CREATE TABLE makes MySQL commit whatever transaction is
  // open, before the statement itself succeeds or fails; NotReached is a failure before that.
  datatype Ensure = Ensured | CommittedOnly | NotReached

  // Which statements of a request fail. lookup is the coordinate query at its start, recheck
  // the one inside CreateArtifact, ensure the first EnsureArtifactTable behind it.
  datatype Faults = Faults(
    lookup: bool, recheck: bool, owned: bool, isShared: bool, fileId: bool,
    createFile: bool, createShared: bool, increment: bool, ensure: Ensure, insert: bool,
    remove: bool, removeFile: bool, decrement: bool, count: bool, removeShared: bool)

  function StorageName(c: Coord): string {
    if c.version == "" then c.name
    else if c.build == "" then c.version + "/" + c.name
    else c.version + "/" + c.build + "/" + c.name
  }

  // ---- single statements ----

  // The row at a coordinate; a failing query looks like an absent row.
  function GetArtifact(db: Db, c: Coord, fault: bool): Option<Artifact> {
    if fault || c !in db.artifacts then None else Some(db.artifacts[c])
  }

  // CreateArtifact behind its EnsureArtifactTable: a coordinate may only be reused with the
  // checksum it has. The insert fails on a coordinate that the query missed.
  function Land(db: Db, c: Coord, a: Artifact, recheckFault: bool, insertFault: bool): (r: (Db, bool)) {
    var existing := GetArtifact(db, c, recheckFault);
    if existing.Some? then (db, existing.value.checksum == a.checksum)
    else if insertFault || c in db.artifacts then (db, false)
    else (db.(artifacts := db.artifacts[c := a]), true)
  }

  predicate OwnedBy(db: Db, md5: string, owner: string) {
    exists i :: 0 <= i < |db.files| && db.files[i].md5 == md5 && db.files[i].owner == owner
  }

  function FileIdOf(db: Db, md5: string, fault: bool): string {
    if fault || md5 !in db.shared then "" else db.shared[md5].fileId
  }

  function CreateFile(db: Db, m: Meta, fileId: string): Db {
    db.(files := db.files + [FileRow(m.checksum, fileId, m.at.project, StorageName(m.at))])
  }

  function CreateShared(db: Db, md5: string, fileId: string): Db {
    db.(shared := db.shared[md5 := Shared(fileId, 1)])
  }

  function IncrementRef(db: Db, md5: string): Db {
    if md5 !in db.shared then db
    else db.(shared := db.shared[md5 := db.shared[md5].(refs := db.shared[md5].refs + 1)])
  }

  // The UPDATE of DecrementRef, which leaves a count of zero alone.
  function LowerRef(db: Db, md5: string): Db {
    if md5 !in db.shared || db.shared[md5].refs <= 0 then db
    else db.(shared := db.shared[md5 := db.shared[md5].(refs := db.shared[md5].refs - 1)])
  }

  // Its SELECT; -1 when there is no row.
  function CountRef(db: Db, md5: string, fault: bool): int {
    if fault || md5 !in db.shared then -1 else db.shared[md5].refs
  }

  function WithoutFiles(files: seq<FileRow>, owner: string, filename: string): seq<FileRow> {
    if files == [] then []
    else
      (if files[0].owner == owner && files[0].filename == filename then [] else [files[0]])
      + WithoutFiles(files[1..], owner, filename)
  }

  // ---- the transactions, each without interference ----

  // What the precheck answers: code Success or OtherError with its status, or a request to
  // send the bytes.
  datatype Answer = Existing | Conflict | InstantExisting | InstantShared | Failed | SendBytes

  // The project has the file already: only the artifact is added, outside any transaction.
  function Reuse(db: Db, m: Meta, f: Faults): (Db, Answer) {
    if !m.artifactMode then (db, InstantExisting)
    else
      var fileId := FileIdOf(db, m.checksum, f.fileId);
      if fileId == "" || f.ensure != Ensured then (db, Failed)
      else
        var (after, ok) := Land(db, m.at, Artifact(m.checksum, fileId), f.recheck, f.insert);
        (after, if ok then InstantExisting else Failed)
  }

  function ShareRows(db: Db, m: Meta, fileId: string): Db {
    CreateFile(IncrementRef(db, m.checksum), m, fileId)
  }

  // The count and the file row reach the commit, which in artifact mode is the one that
  // EnsureArtifactTable brings about.
  predicate ShareCommits(m: Meta, f: Faults) {
    !f.increment && !f.createFile && (m.artifactMode ==> f.ensure != NotReached)
  }

  // Another project has it: one more reference and a file row, then the artifact.
  function Share(db: Db, m: Meta, f: Faults): (Db, Answer) {
    var fileId := FileIdOf(db, m.checksum, f.fileId);
    if !ShareCommits(m, f) then (db, Failed)
    else
      var rows := ShareRows(db, m, fileId);
      if !m.artifactMode then (rows, InstantShared)
      else if f.ensure == CommittedOnly then (rows, Failed)
      else
        var (after, ok) := Land(rows, m.at, Artifact(m.checksum, fileId), f.recheck, f.insert);
        (after, if ok then InstantShared else Failed)
  }

  // The lambda of the upload servlet.
  function Precheck(db: Db, m: Meta, f: Faults): (Db, Answer) {
    var artifact := GetArtifact(db, m.at, f.lookup);
    if m.artifactMode && artifact.Some? then
      (db, if artifact.value.checksum == m.checksum then Existing else Conflict)
    else if !f.owned && OwnedBy(db, m.checksum, m.at.project) then Reuse(db, m, f)
    else if !f.isShared && m.checksum in db.shared then Share(db, m, f)
    else (db, SendBytes)
  }

  function PublishRows(db: Db, m: Meta, fileId: string): Db {
    CreateShared(CreateFile(db, m, fileId), m.checksum, fileId)
  }

  predicate PublishCommits(db: Db, m: Meta, f: Faults) {
    && !f.createFile && !f.createShared && m.checksum !in db.shared
    && (m.artifactMode ==> f.ensure != NotReached)
  }

  // The last transaction of a direct upload and of a chunked one: fileId is the new physical
  // file.
  function Publish(db: Db, m: Meta, fileId: string, f: Faults): (Db, bool) {
    if !PublishCommits(db, m, f) then (db, false)
    else
      var rows := PublishRows(db, m, fileId);
      if !m.artifactMode then (rows, true)
      else if f.ensure == CommittedOnly then (rows, false)
      else Land(rows, m.at, Artifact(m.checksum, fileId), f.recheck, f.insert)
  }

  // What the delete lambda tells the servlet: the file to erase, if any.
  datatype Removal = NotFound | Aborted | Removed(fileId: string, physical: bool)

  predicate DeleteStarts(f: Faults) { f.ensure == Ensured && !f.remove }

  // EnsureArtifactTable has ended the transaction before the first DELETE, so every statement
  // commits by itself.
  function Delete(db: Db, c: Coord, f: Faults): (Db, Removal) {
    var artifact := GetArtifact(db, c, f.lookup);
    if artifact.None? then (db, NotFound)
    else if !DeleteStarts(f) then (db, Aborted)
    else
      var md5 := artifact.value.checksum;
      var stripped := db.(artifacts := db.artifacts - {c});
      if f.removeFile then (stripped, Aborted)
      else
        var dropped := stripped.(files := WithoutFiles(db.files, c.project, StorageName(c)));
        if f.decrement then (dropped, Aborted)
        else
          var lowered := LowerRef(dropped, md5);
          var refs := CountRef(lowered, md5, f.count);
          if refs < 0 || (refs == 0 && f.removeShared) then (lowered, Aborted)
          else if refs == 0 then
            (lowered.(shared := lowered.shared - {md5}), Removed(artifact.value.fileId, true))
          else (lowered, Removed(artifact.value.fileId, false))
  }

  // ---- what rollback can undo ----

  // A failed share leaves the tables alone exactly when it fails before the commit point.
  lemma ShareUndone(db: Db, m: Meta, f: Faults)
    requires Share(db, m, f).1.Failed?
    ensures Share(db, m, f).0 == db <==> !ShareCommits(m, f)
  {
    hide StorageName;
    var t := Share(db, m, f).0;
    assert ShareCommits(m, f) ==> |t.files| == |db.files| + 1;
  }

  lemma PublishUndone(db: Db, m: Meta, fileId: string, f: Faults)
    requires !Publish(db, m, fileId, f).1
    ensures Publish(db, m, fileId, f).0 == db <==> !PublishCommits(db, m, f)
  {
    hide StorageName;
    var t := Publish(db, m, fileId, f).0;
    assert PublishCommits(db, m, f) ==> |t.files| == |db.files| + 1;
  }

  lemma DeleteUndone(db: Db, c: Coord, f: Faults)
    requires Delete(db, c, f).1.Aborted?
    ensures Delete(db, c, f).0 == db <==> !DeleteStarts(f)
  {
    hide StorageName, WithoutFiles;
    assert DeleteStarts(f) ==> c in db.artifacts && c !in Delete(db, c, f).0.artifacts;
  }

  // ---- coordinates are immutable ----

  ghost predicate Extends(t: Db, db: Db) {
    && db.artifacts.Keys <= t.artifacts.Keys
    && forall c :: c in db.artifacts ==> t.artifacts[c] == db.artifacts[c]
  }

  // No upload changes an artifact that is there, whatever fails.
  lemma PrecheckKeepsArtifacts(db: Db, m: Meta, f: Faults)
    ensures Extends(Precheck(db, m, f).0, db)
  {
    hide OwnedBy, FileIdOf;
  }

  lemma PublishKeepsArtifacts(db: Db, m: Meta, fileId: string, f: Faults)
    ensures Extends(Publish(db, m, fileId, f).0, db)
  {
  }

  predicate Success(a: Answer) { a.Existing? || a.InstantExisting? || a.InstantShared? }

  // What the client may conclude from an answer in artifact mode: after a success the
  // coordinate holds an artifact of the declared checksum; a conflict means it holds another
  // one; any other answer comes with unchanged tables, unless a share failed too late.
  lemma AnswersExact(db: Db, m: Meta, f: Faults)
    requires m.artifactMode
    ensures var (t, a) := Precheck(db, m, f);
      && (Success(a) ==> m.at in t.artifacts && t.artifacts[m.at].checksum == m.checksum)
      && (a.Conflict? ==> m.at in db.artifacts && db.artifacts[m.at].checksum != m.checksum)
      && (a.Existing? || a.Conflict? || a.SendBytes? ==> t == db)
      && (a.Failed? ==> (t == db <==> (!f.owned && OwnedBy(db, m.checksum, m.at.project)) || !ShareCommits(m, f)))
      && (a.SendBytes? && !f.isShared && !f.lookup ==> m.checksum !in db.shared && m.at !in db.artifacts)
  {
    hide OwnedBy, StorageName, Share, Reuse;
    ReuseAnswers(db, m, f);
    ShareAnswers(db, m, f);
  }

  lemma ReuseAnswers(db: Db, m: Meta, f: Faults)
    requires m.artifactMode
    ensures var (t, a) := Reuse(db, m, f);
      && (a.Failed? || a.InstantExisting?) && (a.Failed? ==> t == db)
      && (a.InstantExisting? ==> m.at in t.artifacts && t.artifacts[m.at].checksum == m.checksum)
  {
  }

  lemma ShareAnswers(db: Db, m: Meta, f: Faults)
    requires m.artifactMode
    ensures var (t, a) := Share(db, m, f);
      && (a.Failed? || a.InstantShared?) && (a.Failed? ==> (t == db <==> !ShareCommits(m, f)))
      && (a.InstantShared? ==> m.at in t.artifacts && t.artifacts[m.at].checksum == m.checksum)
  {
    hide StorageName;
    if Share(db, m, f).1.Failed? {
      ShareUndone(db, m, f);
    }
  }

  // A publish that succeeds puts the declared checksum at the coordinate and one reference on
  // a file that was not shared; one that fails behind the commit point leaves that reference
  // and the file row, without the artifact.
  lemma PublishAnswers(db: Db, m: Meta, fileId: string, f: Faults)
    ensures var (t, ok) := Publish(db, m, fileId, f);
      && (ok ==> m.artifactMode ==> m.at in t.artifacts && t.artifacts[m.at].checksum == m.checksum)
      && (PublishCommits(db, m, f) ==> t.shared == db.shared[m.checksum := Shared(fileId, 1)])
      && (ok ==> PublishCommits(db, m, f))
      && (!ok ==> t.artifacts == db.artifacts && (t == db <==> !PublishCommits(db, m, f)))
  {
    hide StorageName;
    if !Publish(db, m, fileId, f).1 {
      PublishUndone(db, m, fileId, f);
    }
  }

  // A delete takes out its own coordinate and no other, exactly when its first DELETE is
  // reached, whatever it answers; success is never answered without it.
  lemma DeleteTakesOne(db: Db, c: Coord, f: Faults)
    ensures var (t, r) := Delete(db, c, f);
      && t.artifacts == (if !f.lookup && DeleteStarts(f) then db.artifacts - {c} else db.artifacts)
      && (r.Removed? ==> c in db.artifacts && c !in t.artifacts)
      && (r.NotFound? ==> t == db)
  {
    hide StorageName, WithoutFiles;
  }

  // ---- reference counts ----

  ghost function Users(artifacts: map<Coord, Artifact>, md5: string): set<Coord> {
    set c | c in artifacts && artifacts[c].checksum == md5
  }

  // Every artifact carries the file of its checksum, every count is the number of artifacts
  // with that checksum, and no file serves two checksums.
  ghost predicate RefInv(db: Db) {
    && (forall c :: c in db.artifacts ==>
          && db.artifacts[c].checksum in db.shared
          && db.artifacts[c].fileId == db.shared[db.artifacts[c].checksum].fileId)
    && (forall x :: x in db.shared ==>
          && db.shared[x].refs == |Users(db.artifacts, x)| && 0 < db.shared[x].refs
          && db.shared[x].fileId != "")
    && (forall x, y :: x in db.shared && y in db.shared && db.shared[x].fileId == db.shared[y].fileId ==> x == y)
  }

  lemma UsersAdd(artifacts: map<Coord, Artifact>, c: Coord, a: Artifact, x: string)
    requires c !in artifacts
    ensures |Users(artifacts[c := a], x)| == |Users(artifacts, x)| + if x == a.checksum then 1 else 0
  {
    if x == a.checksum {
      assert Users(artifacts[c := a], x) == Users(artifacts, x) + {c};
    } else {
      assert Users(artifacts[c := a], x) == Users(artifacts, x);
    }
  }

  lemma UsersRemove(artifacts: map<Coord, Artifact>, c: Coord, x: string)
    requires c in artifacts
    ensures |Users(artifacts - {c}, x)| == |Users(artifacts, x)| - if x == artifacts[c].checksum then 1 else 0
  {
    if x == artifacts[c].checksum {
      assert Users(artifacts, x) == Users(artifacts - {c}, x) + {c};
    } else {
      assert Users(artifacts - {c}, x) == Users(artifacts, x);
    }
  }

  // The artifact is inserted, given that the rows before it were committed.
  predicate Lands(db: Db, m: Meta, f: Faults) {
    m.artifactMode && f.ensure == Ensured && m.at !in db.artifacts && !f.insert
  }

  // When a precheck breaks the counts, read off the request and the tables: it attaches one
  // more artifact to a file its project already has; or it commits a reference that no
  // artifact follows; or a failing query hides the file's name from it.
  ghost predicate Breaks(db: Db, m: Meta, f: Faults) {
    && m.checksum in db.shared
    && !(m.artifactMode && !f.lookup && m.at in db.artifacts)
    && if !f.owned && OwnedBy(db, m.checksum, m.at.project) then Lands(db, m, f) && !f.fileId
       else !f.isShared && ShareCommits(m, f) && (!Lands(db, m, f) || f.fileId)
  }

  // One more reference and one more artifact that carries the shared file.
  lemma SharingKeeps(db: Db, t: Db, c: Coord, x: string)
    requires RefInv(db) && x in db.shared && c !in db.artifacts
    requires t.shared == db.shared[x := db.shared[x].(refs := db.shared[x].refs + 1)]
    requires t.artifacts == db.artifacts[c := Artifact(x, db.shared[x].fileId)]
    ensures RefInv(t)
  {
    forall y | y in t.shared ensures t.shared[y].refs == |Users(t.artifacts, y)| {
      UsersAdd(db.artifacts, c, Artifact(x, db.shared[x].fileId), y);
    }
  }

  // A reference without an artifact, or an artifact without a reference.
  lemma CountsPart(db: Db, t: Db, x: string)
    requires RefInv(db) && x in db.shared && x in t.shared
    requires t.shared[x].refs - |Users(t.artifacts, x)| != db.shared[x].refs - |Users(db.artifacts, x)|
    ensures !RefInv(t)
  {
  }

  lemma LosesName(t: Db, c: Coord)
    requires c in t.artifacts && t.artifacts[c].fileId == ""
    ensures !RefInv(t)
  {
  }

  // The branch for a file that the project already has.
  lemma ReuseExact(db: Db, m: Meta, f: Faults)
    requires RefInv(db)
    ensures RefInv(Reuse(db, m, f).0) <==> !(m.checksum in db.shared && Lands(db, m, f) && !f.fileId)
  {
    hide RefInv, Users;
    var t := Reuse(db, m, f).0;
    if m.checksum in db.shared && Lands(db, m, f) && !f.fileId {
      FileNamed(db, m.checksum);
      UsersAdd(db.artifacts, m.at, t.artifacts[m.at], m.checksum);
      CountsPart(db, t, m.checksum);
    }
  }

  lemma FileNamed(db: Db, x: string)
    requires RefInv(db) && x in db.shared
    ensures db.shared[x].fileId != ""
  {
  }

  // The branch for a file that other projects have: the counts survive exactly when the share
  // fails before its commit point or its artifact lands with the file's name.
  lemma ShareExact(db: Db, m: Meta, f: Faults)
    requires RefInv(db) && m.checksum in db.shared
    ensures RefInv(Share(db, m, f).0) <==> !ShareCommits(m, f) || (Lands(db, m, f) && !f.fileId)
  {
    hide RefInv, Users;
    var t := Share(db, m, f).0;
    if ShareCommits(m, f) {
      if Lands(db, m, f) {
        if f.fileId {
          LosesName(t, m.at);
        } else {
          SharingKeeps(db, t, m.at, m.checksum);
        }
      } else {
        assert t.artifacts == db.artifacts && t.shared[m.checksum].refs == db.shared[m.checksum].refs + 1;
        CountsPart(db, t, m.checksum);
      }
    }
  }

  // A precheck keeps the counts exactly when it does not break them.
  lemma PrecheckExact(db: Db, m: Meta, f: Faults)
    requires RefInv(db)
    ensures RefInv(Precheck(db, m, f).0) <==> !Breaks(db, m, f)
  {
    hide RefInv, OwnedBy, Reuse, Share, Lands, ShareCommits;
    ReuseExact(db, m, f);
    if m.checksum in db.shared {
      ShareExact(db, m, f);
    }
  }

  // A first artifact with its own file.
  lemma PublishingKeeps(db: Db, t: Db, c: Coord, x: string, fileId: string)
    requires RefInv(db) && x !in db.shared && c !in db.artifacts
    requires fileId != "" && forall y :: y in db.shared ==> db.shared[y].fileId != fileId
    requires t.shared == db.shared[x := Shared(fileId, 1)]
    requires t.artifacts == db.artifacts[c := Artifact(x, fileId)]
    ensures RefInv(t)
  {
    NoUsers(db, x);
    forall y | y in t.shared ensures t.shared[y].refs == |Users(t.artifacts, y)| {
      UsersAdd(db.artifacts, c, Artifact(x, fileId), y);
    }
  }

  lemma HasShared(db: Db, c: Coord)
    requires RefInv(db) && c in db.artifacts
    ensures db.artifacts[c].checksum in db.shared
    ensures db.artifacts[c].fileId == db.shared[db.artifacts[c].checksum].fileId
    ensures db.shared[db.artifacts[c].checksum].refs > 0
  {
  }

  // A shared file nobody uses.
  lemma UnusedBreaks(t: Db, x: string, n: int)
    requires x in t.shared && t.shared[x].refs == n > 0 && Users(t.artifacts, x) == {}
    ensures !RefInv(t)
  {
  }

  // Publishing a new file keeps the counts exactly when it fails before the commit point or
  // the artifact follows.
  lemma PublishExact(db: Db, m: Meta, fileId: string, f: Faults)
    requires RefInv(db) && fileId != "" && forall x :: x in db.shared ==> db.shared[x].fileId != fileId
    ensures RefInv(Publish(db, m, fileId, f).0) <==> !PublishCommits(db, m, f) || Lands(db, m, f)
  {
    hide RefInv, Users;
    var t := Publish(db, m, fileId, f).0;
    if PublishCommits(db, m, f) {
      if Lands(db, m, f) {
        PublishingKeeps(db, t, m.at, m.checksum, fileId);
      } else {
        assert t.artifacts == db.artifacts;
        NoUsers(db, m.checksum);
        UnusedBreaks(t, m.checksum, 1);
      }
    }
  }

  lemma NoUsers(db: Db, x: string)
    requires RefInv(db) && x !in db.shared
    ensures Users(db.artifacts, x) == {}
  {
  }

  lemma RemovingKeeps(db: Db, t: Db, c: Coord, x: string)
    requires RefInv(db) && c in db.artifacts && db.artifacts[c].checksum == x
    requires t.artifacts == db.artifacts - {c}
    requires t.shared == if db.shared[x].refs == 1 then db.shared - {x}
                         else db.shared[x := db.shared[x].(refs := db.shared[x].refs - 1)]
    ensures RefInv(t)
    ensures db.shared[x].refs == 1 <==> forall d :: d in t.artifacts ==> t.artifacts[d].checksum != x
  {
    forall y ensures |Users(t.artifacts, y)| == |Users(db.artifacts, y)| - if y == x then 1 else 0 {
      UsersRemove(db.artifacts, c, y);
    }
    if db.shared[x].refs == 1 {
      NobodyUses(t.artifacts, x);
    } else {
      SomeUser(t.artifacts, x);
    }
  }

  lemma NobodyUses(artifacts: map<Coord, Artifact>, x: string)
    requires |Users(artifacts, x)| == 0
    ensures forall d :: d in artifacts ==> artifacts[d].checksum != x
  {
    forall d | d in artifacts ensures artifacts[d].checksum != x {
      assert d !in Users(artifacts, x);
    }
  }

  // Under RefInv an artifact carries a file exactly when it has the file's checksum.
  lemma FileIsChecksum(db: Db, t: Db, c: Coord, d: Coord)
    requires RefInv(db) && c in db.artifacts && t.artifacts == db.artifacts - {c} && d in t.artifacts
    ensures t.artifacts[d].fileId == db.artifacts[c].fileId <==> t.artifacts[d].checksum == db.artifacts[c].checksum
  {
  }

  // A delete that has removed the artifact, of a file with that many references, leaves the
  // counts wrong when a later statement fails.
  predicate StopsShort(refs: int, f: Faults) {
    f.removeFile || f.decrement || (refs == 1 && (f.count || f.removeShared))
  }

  // A delete keeps the counts exactly when it does not stop short behind its first DELETE. It
  // asks for the physical file exactly when no artifact is left that carries it, and the file
  // is then gone from file_shared too.
  lemma DeleteExact(db: Db, c: Coord, f: Faults)
    requires RefInv(db)
    ensures c in db.artifacts ==> db.artifacts[c].checksum in db.shared
    ensures var (t, r) := Delete(db, c, f);
      && (RefInv(t) <==> !(!f.lookup && c in db.artifacts && DeleteStarts(f)
                           && StopsShort(db.shared[db.artifacts[c].checksum].refs, f)))
      && (r.Removed? ==>
            && c in db.artifacts && r.fileId == db.artifacts[c].fileId
            && (r.physical <==> forall d :: d in t.artifacts ==> t.artifacts[d].fileId != r.fileId)
            && (r.physical ==> forall x :: x in t.shared ==> t.shared[x].fileId != r.fileId))
  {
    hide RefInv, Users, WithoutFiles, StorageName;
    var (t, r) := Delete(db, c, f);
    if c in db.artifacts {
      HasShared(db, c);
    }
    if !f.lookup && c in db.artifacts && DeleteStarts(f) {
      var x := db.artifacts[c].checksum;
      if StopsShort(db.shared[x].refs, f) {
        ShortBreaks(db, t, c, x);
      } else {
        RemovingKeeps(db, t, c, x);
      }
    }
    if r.Removed? {
      DeleteErases(db, t, c, r.fileId, r.physical);
    }
  }

  // Without the artifact, the count is too high, or it is a zero that should not be there.
  lemma ShortBreaks(db: Db, t: Db, c: Coord, x: string)
    requires RefInv(db) && c in db.artifacts && db.artifacts[c].checksum == x && x in t.shared
    requires t.artifacts == db.artifacts - {c}
    requires t.shared[x].refs == db.shared[x].refs || t.shared[x].refs == 0
    ensures !RefInv(t)
  {
    UsersRemove(db.artifacts, c, x);
  }

  lemma DeleteErases(db: Db, t: Db, c: Coord, fileId: string, physical: bool)
    requires RefInv(db) && c in db.artifacts && fileId == db.artifacts[c].fileId
    requires t.artifacts == db.artifacts - {c}
    requires var x := db.artifacts[c].checksum;
      && (physical <==> db.shared[x].refs == 1)
      && t.shared == if physical then db.shared - {x} else db.shared[x := db.shared[x].(refs := db.shared[x].refs - 1)]
    ensures physical <==> forall d :: d in t.artifacts ==> t.artifacts[d].fileId != fileId
    ensures physical ==> forall y :: y in t.shared ==> t.shared[y].fileId != fileId
  {
    hide RefInv, Users;
    var x := db.artifacts[c].checksum;
    HasShared(db, c);
    RemovingKeeps(db, t, c, x);
    forall d | d in t.artifacts ensures t.artifacts[d].fileId == fileId <==> t.artifacts[d].checksum == x {
      FileIsChecksum(db, t, c, d);
    }
    if physical {
      forall y | y in t.shared ensures t.shared[y].fileId != fileId {
        OwnFile(db, x, y);
      }
    }
  }

  lemma OwnFile(db: Db, x: string, y: string)
    requires RefInv(db) && x in db.shared && y in db.shared && x != y
    ensures db.shared[x].fileId != db.shared[y].fileId
  {
  }

  lemma SomeUser(artifacts: map<Coord, Artifact>, x: string)
    requires |Users(artifacts, x)| > 0
    ensures exists d :: d in artifacts && artifacts[d].checksum == x
  {
    var d :| d in Users(artifacts, x);
  }
}
