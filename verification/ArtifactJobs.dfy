// Requests on the artifact tables, statement by statement and in any order.
module ArtifactJobs {
  import opened ArtifactStore

  // How a request comes to CreateArtifact. Reusing a file of its own project counts nothing.
  datatype Via = ByReuse | ByShare | ByPublish

  // Where a request stands: the next thing it does is named by the state. Statements of one
  // transaction that nothing commits in between are one state.
  datatype Job =
    // precheck
    | Checking(m: Meta)
    | Owning(m: Meta)
    | NamingOwn(m: Meta)
    | Attaching(m: Meta, fileId: string)
    | Looking(m: Meta)
    | NamingShared(m: Meta)
    | Counting(m: Meta, fileId: string)
    // upload
    | Asking(m: Meta)
    | Storing(m: Meta)
    | Publishing(m: Meta, fileId: string)
    // CreateArtifact behind its EnsureArtifactTable
    | Landing(m: Meta, fileId: string, via: Via)
    | Inserting(m: Meta, fileId: string, via: Via)
    // delete
    | Finding(c: Coord)
    | Removing(c: Coord, a: Artifact)
    | Dropping(c: Coord, a: Artifact)
    | Lowering(c: Coord, a: Artifact)
    | Reading(c: Coord, a: Artifact)
    | Forgetting(c: Coord, a: Artifact)
    // answered; a delete may still have a file to erase
    | Told(answer: Answer)
    | Published(ok: bool)
    | Deleted(r: Removal)

  // FailsLate is a failure behind the commit that CREATE TABLE brings about.
  datatype Luck = Fine | Fails | FailsLate

  predicate Erases(job: Job) { job.Deleted? && job.r.Removed? && job.r.physical }

  predicate Over(job: Job) { job.Told? || job.Published? || (job.Deleted? && !Erases(job)) }

  function Reply(via: Via, ok: bool): Job {
    match via
    case ByReuse => Told(if ok then InstantExisting else Failed)
    case ByShare => Told(if ok then InstantShared else Failed)
    case ByPublish => Published(ok)
  }

  predicate Commits(m: Meta, luck: Luck) { luck.Fine? || (luck.FailsLate? && m.artifactMode) }

  // One statement, or one run of statements up to a commit.
  function Next(db: Db, job: Job, luck: Luck, newId: string): (Db, Job) {
    match job
    case Checking(m) =>
      var found := GetArtifact(db, m.at, !luck.Fine?);
      if m.artifactMode && found.Some? then
        (db, Told(if found.value.checksum == m.checksum then Existing else Conflict))
      else (db, Owning(m))
    case Owning(m) =>
      if !luck.Fine? || !OwnedBy(db, m.checksum, m.at.project) then (db, Looking(m))
      else (db, if m.artifactMode then NamingOwn(m) else Told(InstantExisting))
    case NamingOwn(m) =>
      var fileId := FileIdOf(db, m.checksum, !luck.Fine?);
      (db, if fileId == "" then Told(Failed) else Attaching(m, fileId))
    case Attaching(m, fileId) => (db, if luck.Fine? then Landing(m, fileId, ByReuse) else Told(Failed))
    case Looking(m) =>
      (db, if luck.Fine? && m.checksum in db.shared then NamingShared(m) else Told(SendBytes))
    case NamingShared(m) => (db, Counting(m, FileIdOf(db, m.checksum, !luck.Fine?)))
    case Counting(m, fileId) =>
      if !Commits(m, luck) then (db, Told(Failed))
      else
        (ShareRows(db, m, fileId),
         if luck.FailsLate? then Told(Failed)
         else if m.artifactMode then Landing(m, fileId, ByShare)
         else Told(InstantShared))
    case Asking(m) =>
      var found := GetArtifact(db, m.at, !luck.Fine?);
      (db, if m.artifactMode && found.Some? then Published(found.value.checksum == m.checksum) else Storing(m))
    case Storing(m) => (db, if luck.Fine? then Publishing(m, newId) else Published(false))
    case Publishing(m, fileId) =>
      if !Commits(m, luck) || m.checksum in db.shared then (db, Published(false))
      else
        (PublishRows(db, m, fileId),
         if luck.FailsLate? then Published(false)
         else if m.artifactMode then Landing(m, fileId, ByPublish)
         else Published(true))
    case Landing(m, fileId, via) =>
      var found := GetArtifact(db, m.at, !luck.Fine?);
      (db, if found.Some? then Reply(via, found.value.checksum == m.checksum) else Inserting(m, fileId, via))
    case Inserting(m, fileId, via) =>
      if !luck.Fine? || m.at in db.artifacts then (db, Reply(via, false))
      else (db.(artifacts := db.artifacts[m.at := Artifact(m.checksum, fileId)]), Reply(via, true))
    case Finding(c) =>
      var found := GetArtifact(db, c, !luck.Fine?);
      (db, if found.Some? then Removing(c, found.value) else Deleted(NotFound))
    case Removing(c, a) =>
      if !luck.Fine? then (db, Deleted(Aborted))
      else (db.(artifacts := db.artifacts - {c}), Dropping(c, a))
    case Dropping(c, a) =>
      if !luck.Fine? then (db, Deleted(Aborted))
      else (db.(files := WithoutFiles(db.files, c.project, StorageName(c))), Lowering(c, a))
    case Lowering(c, a) =>
      if !luck.Fine? then (db, Deleted(Aborted)) else (LowerRef(db, a.checksum), Reading(c, a))
    case Reading(c, a) =>
      var refs := CountRef(db, a.checksum, !luck.Fine?);
      (db, if refs < 0 then Deleted(Aborted)
           else if refs == 0 then Forgetting(c, a)
           else Deleted(Removed(a.fileId, false)))
    case Forgetting(c, a) =>
      if !luck.Fine? then (db, Deleted(Aborted))
      else (db.(shared := db.shared - {a.checksum}), Deleted(Removed(a.fileId, true)))
    case Told(_) => (db, job)
    case Published(_) => (db, job)
    case Deleted(r) => (db, if r.Removed? then Deleted(Removed(r.fileId, false)) else job)
  }

  // ---- a request that runs alone ----

  function LuckOf(job: Job, f: Faults): Luck {
    var fails := match job
      case Checking(_) => f.lookup
      case Owning(_) => f.owned
      case NamingOwn(_) => f.fileId
      case Attaching(_, _) => f.ensure != Ensured
      case Looking(_) => f.isShared
      case NamingShared(_) => f.fileId
      case Counting(m, _) => f.increment || f.createFile || (m.artifactMode && f.ensure == NotReached)
      case Publishing(m, _) => f.createFile || f.createShared || (m.artifactMode && f.ensure == NotReached)
      case Landing(_, _, _) => f.recheck
      case Inserting(_, _, _) => f.insert
      case Finding(_) => f.lookup
      case Removing(_, _) => f.ensure != Ensured || f.remove
      case Dropping(_, _) => f.removeFile
      case Lowering(_, _) => f.decrement
      case Reading(_, _) => f.count
      case Forgetting(_, _) => f.removeShared
      case _ => false;
    if fails then Fails
    else if (job.Counting? || job.Publishing?) && job.m.artifactMode && f.ensure == CommittedOnly then FailsLate
    else Fine
  }

  // At most n statements of a request, with nothing in between. Storing a file and erasing one
  // are no statements.
  function Alone(db: Db, job: Job, f: Faults, n: nat): (Db, Job)
    decreases n
  {
    if n == 0 || Over(job) || Erases(job) || job.Storing? then (db, job)
    else
      var (t, next) := Next(db, job, LuckOf(job, f), "");
      Alone(t, next, f, n - 1)
  }

  lemma Onward(db: Db, job: Job, f: Faults, n: nat, t: Db, next: Job)
    requires n > 0 && !Over(job) && !Erases(job) && !job.Storing?
    requires (t, next) == Next(db, job, LuckOf(job, f), "")
    ensures Alone(db, job, f, n) == Alone(t, next, f, n - 1)
  {
  }

  lemma LandAlone(db: Db, m: Meta, fileId: string, via: Via, f: Faults, n: nat)
    requires n >= 2
    ensures var (t, ok) := Land(db, m.at, Artifact(m.checksum, fileId), f.recheck, f.insert);
      Alone(db, Landing(m, fileId, via), f, n) == (t, Reply(via, ok))
  {
    var found := GetArtifact(db, m.at, f.recheck);
    if found.None? {
      Onward(db, Landing(m, fileId, via), f, n, db, Inserting(m, fileId, via));
    }
  }

  // Without interference the statements are the transactions of ArtifactStore.
  lemma PublishAlone(db: Db, m: Meta, fileId: string, f: Faults)
    ensures var (t, ok) := Publish(db, m, fileId, f); Alone(db, Publishing(m, fileId), f, 3) == (t, Published(ok))
  {
    hide PublishRows, Land;
    var rows := PublishRows(db, m, fileId);
    if PublishCommits(db, m, f) && m.artifactMode && f.ensure == Ensured {
      Onward(db, Publishing(m, fileId), f, 3, rows, Landing(m, fileId, ByPublish));
      LandAlone(rows, m, fileId, ByPublish, f, 2);
    }
  }

  lemma ReuseAlone(db: Db, m: Meta, f: Faults, n: nat)
    requires n >= 4 && m.artifactMode
    ensures var (t, answer) := Reuse(db, m, f); Alone(db, NamingOwn(m), f, n) == (t, Told(answer))
  {
    hide Land;
    var fileId := FileIdOf(db, m.checksum, f.fileId);
    if fileId != "" {
      Onward(db, NamingOwn(m), f, n, db, Attaching(m, fileId));
      if f.ensure == Ensured {
        Onward(db, Attaching(m, fileId), f, n - 1, db, Landing(m, fileId, ByReuse));
        LandAlone(db, m, fileId, ByReuse, f, n - 2);
      }
    }
  }

  lemma ShareAlone(db: Db, m: Meta, f: Faults, n: nat)
    requires n >= 4
    ensures var (t, answer) := Share(db, m, f); Alone(db, NamingShared(m), f, n) == (t, Told(answer))
  {
    hide Land, ShareRows;
    var fileId := FileIdOf(db, m.checksum, f.fileId);
    var rows := ShareRows(db, m, fileId);
    Onward(db, NamingShared(m), f, n, db, Counting(m, fileId));
    if ShareCommits(m, f) && m.artifactMode && f.ensure == Ensured {
      Onward(db, Counting(m, fileId), f, n - 1, rows, Landing(m, fileId, ByShare));
      LandAlone(rows, m, fileId, ByShare, f, n - 2);
    }
  }

  lemma PrecheckAlone(db: Db, m: Meta, f: Faults)
    ensures var (t, answer) := Precheck(db, m, f); Alone(db, Checking(m), f, 7) == (t, Told(answer))
  {
    hide OwnedBy, Share;
    if !(m.artifactMode && GetArtifact(db, m.at, f.lookup).Some?) {
      Onward(db, Checking(m), f, 7, db, Owning(m));
      if f.owned || !OwnedBy(db, m.checksum, m.at.project) {
        Onward(db, Owning(m), f, 6, db, Looking(m));
        if !f.isShared && m.checksum in db.shared {
          Onward(db, Looking(m), f, 5, db, NamingShared(m));
          ShareAlone(db, m, f, 4);
        }
      } else if m.artifactMode {
        Onward(db, Owning(m), f, 6, db, NamingOwn(m));
        ReuseAlone(db, m, f, 5);
      }
    }
  }

  // The rest of a delete once its rows are gone.
  lemma LowerAlone(db: Db, c: Coord, a: Artifact, f: Faults)
    requires !f.decrement
    ensures var lowered := LowerRef(db, a.checksum);
      var refs := CountRef(lowered, a.checksum, f.count);
      Alone(db, Lowering(c, a), f, 3) ==
        if refs < 0 || (refs == 0 && f.removeShared) then (lowered, Deleted(Aborted))
        else if refs == 0 then (lowered.(shared := lowered.shared - {a.checksum}), Deleted(Removed(a.fileId, true)))
        else (lowered, Deleted(Removed(a.fileId, false)))
  {
    hide LowerRef;
    var lowered := LowerRef(db, a.checksum);
    Onward(db, Lowering(c, a), f, 3, lowered, Reading(c, a));
    if CountRef(lowered, a.checksum, f.count) == 0 {
      Onward(lowered, Reading(c, a), f, 2, lowered, Forgetting(c, a));
    }
  }

  lemma DeleteAlone(db: Db, c: Coord, f: Faults)
    ensures var (t, r) := Delete(db, c, f); Alone(db, Finding(c), f, 6) == (t, Deleted(r))
  {
    hide StorageName, WithoutFiles, LowerRef, CountRef;
    var found := GetArtifact(db, c, f.lookup);
    if found.Some? {
      var a := found.value;
      Onward(db, Finding(c), f, 6, db, Removing(c, a));
      if DeleteStarts(f) {
        var stripped := db.(artifacts := db.artifacts - {c});
        Onward(db, Removing(c, a), f, 5, stripped, Dropping(c, a));
        if !f.removeFile {
          var dropped := stripped.(files := WithoutFiles(db.files, c.project, StorageName(c)));
          Onward(stripped, Dropping(c, a), f, 4, dropped, Lowering(c, a));
          if !f.decrement {
            LowerAlone(dropped, c, a, f);
          }
        }
      }
    }
  }

  // Before an upload stores anything, in artifact mode, a coordinate that is found decides: with
  // the same checksum it is answered as done, with another one refused. Otherwise the file is
  // stored under the identifier it gets, and goes on to the transaction.
  lemma AskExact(db: Db, m: Meta, luck: Luck, newId: string)
    ensures Next(db, Asking(m), luck, newId) ==
      (db, if m.artifactMode && luck.Fine? && m.at in db.artifacts
           then Published(db.artifacts[m.at].checksum == m.checksum) else Storing(m))
    ensures Next(db, Storing(m), luck, newId) == (db, if luck.Fine? then Publishing(m, newId) else Published(false))
  {
  }
}
