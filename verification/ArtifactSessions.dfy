// The tables of the artifact servlets as the program changes them, statement by statement.
module ArtifactSessions {
  import opened Options
  import opened ArtifactStore

  // A session on the three tables. While a transaction is open, saved is what rollback puts
  // back.
  class Session {
    var files: seq<FileRow>
    var shared: map<string, Shared>
    var artifacts: map<Coord, Artifact>
    var saved: Option<Db>

    function Abs(): Db
      reads this
    {
      Db(files, shared, artifacts)
    }

    method Begin()
      modifies this`saved
      ensures saved == Some(Abs())
    {
      saved := Some(Abs());
    }

    method Commit()
      modifies this`saved
      ensures saved == None
    {
      saved := None;
    }

    // After an implicit commit there is nothing left to roll back.
    method Rollback()
      modifies this
      ensures saved == None
      ensures Abs() == if old(saved).Some? then old(saved).value else old(Abs())
    {
      if saved.Some? {
        var began := saved.value;
        files, shared, artifacts := began.files, began.shared, began.artifacts;
      }
      saved := None;
    }

    // CREATE TABLE IF NOT EXISTS.
    method EnsureTable(ensure: Ensure) returns (ok: bool)
      modifies this`saved
      ensures ok == ensure.Ensured?
      ensures saved == if ensure.NotReached? then old(saved) else None
    {
      if !ensure.NotReached? {
        Commit();
      }
      ok := ensure.Ensured?;
    }

    method InsertArtifact(c: Coord, a: Artifact, f: Faults) returns (ok: bool)
      modifies this`artifacts, this`saved
      ensures saved == if f.ensure.NotReached? then old(saved) else None
      ensures (Abs(), ok) ==
        if f.ensure.Ensured? then Land(old(Abs()), c, a, f.recheck, f.insert) else (old(Abs()), false)
    {
      ok := EnsureTable(f.ensure);
      if !ok {
        return;
      }
      var existing := GetArtifact(Abs(), c, f.recheck);
      if existing.Some? {
        return existing.value.checksum == a.checksum;
      }
      if f.insert || c in artifacts {
        return false;
      }
      artifacts := artifacts[c := a];
    }

    // SELECT id FROM file_info WHERE owner and md5.
    method FindOwned(md5: string, owner: string) returns (found: bool)
      ensures found == OwnedBy(Abs(), md5, owner)
    {
      var i := 0;
      while i < |files|
        invariant 0 <= i <= |files|
        invariant forall k :: 0 <= k < i ==> !(files[k].md5 == md5 && files[k].owner == owner)
      {
        if files[i].md5 == md5 && files[i].owner == owner {
          return true;
        }
        i := i + 1;
      }
      found := false;
    }

    method Increment(md5: string)
      modifies this`shared
      ensures Abs() == IncrementRef(old(Abs()), md5)
    {
      if md5 in shared {
        shared := shared[md5 := shared[md5].(refs := shared[md5].refs + 1)];
      }
    }

    // The UPDATE and the SELECT; the UPDATE stays when the SELECT fails.
    method Decrement(md5: string, f: Faults) returns (refs: int)
      modifies this`shared
      ensures Abs() == if f.decrement then old(Abs()) else LowerRef(old(Abs()), md5)
      ensures refs == if f.decrement then -1 else CountRef(Abs(), md5, f.count)
    {
      if f.decrement {
        return -1;
      }
      if md5 in shared && shared[md5].refs > 0 {
        shared := shared[md5 := shared[md5].(refs := shared[md5].refs - 1)];
      }
      refs := if f.count || md5 !in shared then -1 else shared[md5].refs;
    }

    method ReuseFile(m: Meta, f: Faults) returns (answer: Answer)
      requires saved.None?
      modifies this
      ensures saved.None? && (Abs(), answer) == Reuse(old(Abs()), m, f)
    {
      if m.artifactMode {
        var fileId := FileIdOf(Abs(), m.checksum, f.fileId);
        if fileId == "" {
          return Failed;
        }
        var ok := InsertArtifact(m.at, Artifact(m.checksum, fileId), f);
        if !ok {
          return Failed;
        }
      }
      answer := InstantExisting;
    }

    method ShareFile(m: Meta, f: Faults) returns (answer: Answer)
      requires saved.None?
      modifies this
      ensures saved.None? && (Abs(), answer) == Share(old(Abs()), m, f)
    {
      hide StorageName;
      var fileId := FileIdOf(Abs(), m.checksum, f.fileId);
      Begin();
      if f.increment {
        Rollback();
        return Failed;
      }
      Increment(m.checksum);
      if f.createFile {
        Rollback();
        return Failed;
      }
      files := files + [FileRow(m.checksum, fileId, m.at.project, StorageName(m.at))];
      if m.artifactMode {
        var ok := InsertArtifact(m.at, Artifact(m.checksum, fileId), f);
        if !ok {
          Rollback();
          return Failed;
        }
      }
      Commit();
      answer := InstantShared;
    }

    method PrecheckUpload(m: Meta, f: Faults) returns (answer: Answer)
      requires saved.None?
      modifies this
      ensures saved.None? && (Abs(), answer) == Precheck(old(Abs()), m, f)
    {
      hide OwnedBy, Reuse, Share;
      if m.artifactMode {
        var artifact := GetArtifact(Abs(), m.at, f.lookup);
        if artifact.Some? {
          return if artifact.value.checksum == m.checksum then Existing else Conflict;
        }
      }
      var owned := FindOwned(m.checksum, m.at.project);
      if owned && !f.owned {
        answer := ReuseFile(m, f);
      } else if !f.isShared && m.checksum in shared {
        answer := ShareFile(m, f);
      } else {
        answer := SendBytes;
      }
    }

    method PublishUpload(m: Meta, fileId: string, f: Faults) returns (ok: bool)
      requires saved.None?
      modifies this
      ensures saved.None? && (Abs(), ok) == Publish(old(Abs()), m, fileId, f)
    {
      hide StorageName;
      Begin();
      if f.createFile {
        Rollback();
        return false;
      }
      files := files + [FileRow(m.checksum, fileId, m.at.project, StorageName(m.at))];
      if f.createShared || m.checksum in shared {
        Rollback();
        return false;
      }
      shared := shared[m.checksum := Shared(fileId, 1)];
      if m.artifactMode {
        ok := InsertArtifact(m.at, Artifact(m.checksum, fileId), f);
        if !ok {
          Rollback();
          return false;
        }
      }
      Commit();
      ok := true;
    }

    // DELETE FROM file_info WHERE owner and filename.
    method DropFiles(owner: string, filename: string)
      modifies this`files
      ensures files == WithoutFiles(old(files), owner, filename)
    {
      hide WithoutFiles;
      var kept: seq<FileRow> := [];
      var i := 0;
      assert files[0..] == files;
      while i < |files|
        invariant 0 <= i <= |files| && files == old(files)
        invariant WithoutFiles(files, owner, filename) == kept + WithoutFiles(files[i..], owner, filename)
      {
        DropStep(files, i, owner, filename);
        if !(files[i].owner == owner && files[i].filename == filename) {
          kept := kept + [files[i]];
        }
        i := i + 1;
      }
      DropEnd(files[i..], owner, filename);
      assert kept + [] == kept;
      files := kept;
    }

    // EnsureArtifactTable ends the transaction that the servlet has just begun.
    method DeleteFile(c: Coord, f: Faults) returns (r: Removal)
      requires saved.None?
      modifies this
      ensures saved.None? && (Abs(), r) == Delete(old(Abs()), c, f)
    {
      hide StorageName, WithoutFiles;
      var artifact := GetArtifact(Abs(), c, f.lookup);
      if artifact.None? {
        return NotFound;
      }
      Begin();
      var ok := EnsureTable(f.ensure);
      if !ok || f.remove {
        Rollback();
        return Aborted;
      }
      artifacts := artifacts - {c};
      if f.removeFile {
        Rollback();
        return Aborted;
      }
      DropFiles(c.project, StorageName(c));
      var refs := Decrement(artifact.value.checksum, f);
      if refs < 0 {
        Rollback();
        return Aborted;
      }
      if refs == 0 {
        if f.removeShared {
          Rollback();
          return Aborted;
        }
        shared := shared - {artifact.value.checksum};
      }
      Commit();
      r := Removed(artifact.value.fileId, refs == 0);
    }
  }

  lemma DropStep(files: seq<FileRow>, i: nat, owner: string, filename: string)
    requires i < |files|
    ensures WithoutFiles(files[i..], owner, filename) ==
      (if files[i].owner == owner && files[i].filename == filename then [] else [files[i]])
      + WithoutFiles(files[i + 1..], owner, filename)
  {
    assert files[i..][0] == files[i] && files[i..][1..] == files[i + 1..];
  }

  lemma DropEnd(files: seq<FileRow>, owner: string, filename: string)
    requires files == []
    ensures WithoutFiles(files, owner, filename) == []
  {
  }
}
