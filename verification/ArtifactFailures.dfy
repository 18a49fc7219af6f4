// Runs from the empty tables in which one breach of the books does harm.
module ArtifactFailures {
  import opened ArtifactStore
  import opened ArtifactJobs
  import opened ArtifactRuns

  // Some run leads from x to y, a sound one if so asked.
  ghost predicate Reached(x: System, y: System, sound: bool) {
    exists steps :: Run(x, steps) && (sound ==> SoundRun(x, steps)) && Last(x, steps) == y
  }

  lemma {:induction false} RunSnoc(x: System, steps: seq<Step>, step: Step)
    requires Run(x, steps) && Enabled(Last(x, steps), step)
    ensures Run(x, steps + [step]) && Last(x, steps + [step]) == Apply(Last(x, steps), step)
    ensures SoundRun(x, steps) && !Breach(Last(x, steps), step) ==> SoundRun(x, steps + [step])
    decreases |steps|
  {
    hide Apply, Breach, Enabled;
    if steps == [] {
      assert [step][1..] == [];
      assert Last(Apply(x, step), []) == Apply(x, step);
    } else {
      RunSnoc(Apply(x, steps[0]), steps[1..], step);
      assert (steps + [step])[1..] == steps[1..] + [step];
    }
  }

  lemma Go(x: System, y: System, step: Step, sound: bool) returns (z: System)
    requires Reached(x, y, sound) && Enabled(y, step) && (sound ==> !Breach(y, step))
    ensures z == Apply(y, step) && Reached(x, z, sound)
  {
    hide Apply, Breach, Enabled;
    var steps :| Run(x, steps) && (sound ==> SoundRun(x, steps)) && Last(x, steps) == y;
    RunSnoc(x, steps, step);
    z := Apply(y, step);
    assert Last(x, steps + [step]) == z;
  }

  lemma Stay(x: System, sound: bool)
    ensures Reached(x, x, sound)
  {
    assert Run(x, []) && SoundRun(x, []) && Last(x, []) == x;
  }

  // A request arrives as the last one.
  lemma Arrive(x: System, y: System, job: Job, sound: bool) returns (z: System)
    requires Reached(x, y, sound) && (job.Checking? || job.Asking? || job.Finding?)
    ensures z == y.(jobs := y.jobs + [job]) && Reached(x, z, sound)
  {
    hide Reached;
    z := Go(x, y, Start(job), sound);
  }

  // Request j does the next thing, with no failure.
  lemma Serve(x: System, y: System, j: nat, job: Job, newId: string, sound: bool) returns (z: System)
    requires Reached(x, y, sound) && j < |y.jobs| && y.jobs[j] == job && !Over(job)
    requires job.Storing? ==> newId != "" && newId !in y.store && newId !in y.named
    requires sound ==> !Harms(y.db, job, Fine)
    ensures Reached(x, z, sound)
    ensures var (db, next) := Next(y.db, job, Fine, newId);
      z == System(db, Stored(y.store, job, Fine, newId),
                  if job.Publishing? then y.named + {job.fileId} else y.named, y.jobs[j := next])
  {
    hide Reached, Next, Harms;
    z := Go(x, y, Advance(j, Fine, newId), sound);
  }

  // ---- whole requests ----

  // What an upload leaves, on tables that know neither its coordinate nor its checksum.
  function Uploaded(db: Db, m: Meta, fileId: string): Db {
    PublishRows(db, m, fileId).(artifacts := db.artifacts[m.at := Artifact(m.checksum, fileId)])
  }

  // Up to the stored file.
  lemma Stores(x: System, y: System, m: Meta, fileId: string, sound: bool) returns (z: System)
    requires Reached(x, y, sound) && m.artifactMode && m.at !in y.db.artifacts
    requires fileId != "" && fileId !in y.store && fileId !in y.named
    ensures Reached(x, z, sound)
    ensures z == System(y.db, y.store + {fileId}, y.named, y.jobs + [Publishing(m, fileId)])
  {
    hide StorageName, Reached;
    var n := |y.jobs|;
    z := Arrive(x, y, Asking(m), sound);
    z := Serve(x, z, n, Asking(m), "", sound);
    z := Serve(x, z, n, Storing(m), fileId, sound);
    assert z.jobs == y.jobs + [Publishing(m, fileId)];
  }

  lemma Publishes(x: System, y: System, j: nat, m: Meta, fileId: string, sound: bool) returns (z: System)
    requires Reached(x, y, sound) && j < |y.jobs| && y.jobs[j] == Publishing(m, fileId) && m.artifactMode
    requires m.at !in y.db.artifacts && m.checksum !in y.db.shared
    ensures Reached(x, z, sound)
    ensures z == System(Uploaded(y.db, m, fileId), y.store, y.named + {fileId}, y.jobs[j := Published(true)])
  {
    hide StorageName, Reached;
    z := Serve(x, y, j, Publishing(m, fileId), "", sound);
    z := Serve(x, z, j, Landing(m, fileId, ByPublish), "", sound);
    z := Serve(x, z, j, Inserting(m, fileId, ByPublish), "", sound);
  }

  lemma Uploads(x: System, y: System, m: Meta, fileId: string, sound: bool) returns (z: System)
    requires Reached(x, y, sound) && m.artifactMode
    requires m.at !in y.db.artifacts && m.checksum !in y.db.shared
    requires fileId != "" && fileId !in y.store && fileId !in y.named
    ensures Reached(x, z, sound)
    ensures z == System(Uploaded(y.db, m, fileId), y.store + {fileId}, y.named + {fileId}, y.jobs + [Published(true)])
  {
    hide Reached, Uploaded;
    z := Stores(x, y, m, fileId, sound);
    z := Publishes(x, z, |y.jobs|, m, fileId, sound);
    assert z.jobs == y.jobs + [Published(true)];
  }

  // What the rest of a delete leaves when no other artifact has the file.
  function Erased(db: Db, c: Coord, x: string): Db {
    Db(WithoutFiles(db.files, c.project, StorageName(c)), db.shared - {x}, db.artifacts)
  }

  // The middle of a delete.
  lemma Lowers(x: System, y: System, j: nat, c: Coord, a: Artifact, sound: bool) returns (z: System)
    requires Reached(x, y, sound) && j < |y.jobs| && y.jobs[j] == Dropping(c, a)
    requires a.checksum in y.db.shared && y.db.shared[a.checksum].refs > 0
    ensures Reached(x, z, sound)
    ensures var refs := y.db.shared[a.checksum].refs - 1;
      z == System(
        Db(WithoutFiles(y.db.files, c.project, StorageName(c)),
           y.db.shared[a.checksum := y.db.shared[a.checksum].(refs := refs)], y.db.artifacts),
        y.store, y.named, y.jobs[j := if refs == 0 then Forgetting(c, a) else Deleted(Removed(a.fileId, false))])
  {
    hide StorageName, Reached, WithoutFiles;
    z := Serve(x, y, j, Dropping(c, a), "", sound);
    z := Serve(x, z, j, Lowering(c, a), "", sound);
    z := Serve(x, z, j, Reading(c, a), "", sound);
  }

  // A delete behind the DELETE of its artifact, when its count is the last.
  lemma Finishes(x: System, y: System, j: nat, c: Coord, a: Artifact, sound: bool) returns (z: System)
    requires Reached(x, y, sound) && j < |y.jobs| && y.jobs[j] == Dropping(c, a)
    requires a.checksum in y.db.shared && y.db.shared[a.checksum].refs == 1
    ensures Reached(x, z, sound)
    ensures z == System(Erased(y.db, c, a.checksum), y.store - {a.fileId}, y.named, y.jobs[j := Deleted(Removed(a.fileId, false))])
  {
    hide StorageName, Reached, WithoutFiles;
    var w := Lowers(x, y, j, c, a, sound);
    z := Serve(x, w, j, Forgetting(c, a), "", sound);
    z := Serve(x, z, j, Deleted(Removed(a.fileId, true)), "", sound);
    assert w.db.shared - {a.checksum} == y.db.shared - {a.checksum};
  }

  // ---- four harmful runs ----

  // A sound run to y, one breach, and any run from there to z.
  ghost predicate Harm(y: System, step: Step, z: System) {
    Reached(Initial(), y, true) && Enabled(y, step) && Breach(y, step) && Reached(Apply(y, step), z, false)
  }

  // Everybody is answered, and a reference has no artifact.
  ghost predicate Stranded(z: System, x: string) {
    && (forall j :: 0 <= j < |z.jobs| ==> Over(z.jobs[j]))
    && x in z.db.shared && z.db.shared[x].refs > |Users(z.db.artifacts, x)|
  }

  ghost predicate LostFile(z: System, c: Coord) {
    c in z.db.artifacts && z.db.artifacts[c].fileId !in z.store
  }

  lemma Harmed(y: System, step: Step, z: System)
    requires Reached(Initial(), y, true) && Enabled(y, step) && Breach(y, step) && z == Apply(y, step)
    ensures Harm(y, step, z)
  {
    hide Reached;
    Stay(z, false);
  }

  // Two uploads of different bytes to one coordinate, both past the coordinate check. The
  // second one is refused when its reference is committed already; the rollback comes too late.
  lemma RefusedUploadStrandsCount(m: Meta, w: Meta, f: string, g: string)
    requires m.artifactMode && w.artifactMode && m.at == w.at && m.checksum != w.checksum
    requires f != "" && g != "" && f != g
    ensures exists y, step, z ::
      Harm(y, step, z) && y.jobs == [Landing(w, g, ByPublish), Published(true)]
      && z.jobs == [Published(false), Published(true)] && Stranded(z, w.checksum)
  {
    hide StorageName, Reached;
    var x := Initial();
    Stay(x, true);
    var y := Stores(x, x, w, g, true);
    y := Uploads(x, y, m, f, true);
    y := Serve(x, y, 0, Publishing(w, g), "", true);
    assert y.jobs == [Landing(w, g, ByPublish), Published(true)];
    var step := Advance(0, Fine, "");
    var z := Apply(y, step);
    Harmed(y, step, z);
    assert z.jobs == [Published(false), Published(true)];
    assert Users(z.db.artifacts, w.checksum) == {};
  }

  // ---- a file under two coordinates ----

  // A file that one project uploaded and another one shares.
  ghost predicate TwoProjects(y: System, m: Meta, w: Meta, f: string) {
    && y.jobs == [Published(true), Told(InstantShared)] && y.store == {f}
    && y.db.shared == map[m.checksum := Shared(f, 2)]
    && y.db.artifacts == map[m.at := Artifact(m.checksum, f), w.at := Artifact(m.checksum, f)]
  }

  // The second project's precheck, up to the name of the file.
  lemma Names(m: Meta, w: Meta, f: string) returns (y: System)
    requires m.artifactMode && w.artifactMode && m.checksum == w.checksum && m.at.project != w.at.project && f != ""
    ensures Reached(Initial(), y, true)
    ensures y == System(Uploaded(Initial().db, m, f), {f}, {f}, [Published(true), Counting(w, f)])
  {
    hide StorageName, Reached;
    var x := Initial();
    Stay(x, true);
    y := Uploads(x, x, m, f, true);
    y := Arrive(x, y, Checking(w), true);
    assert y.jobs == [Published(true), Checking(w)];
    y := Serve(x, y, 1, Checking(w), "", true);
    y := Serve(x, y, 1, Owning(w), "", true);
    y := Serve(x, y, 1, Looking(w), "", true);
    y := Serve(x, y, 1, NamingShared(w), "", true);
    assert y.jobs == [Published(true), Counting(w, f)];
  }

  lemma SharesFile(m: Meta, w: Meta, f: string) returns (y: System)
    requires m.artifactMode && w.artifactMode && m.checksum == w.checksum && m.at.project != w.at.project && f != ""
    ensures Reached(Initial(), y, true) && TwoProjects(y, m, w, f)
  {
    hide StorageName, Reached;
    var x := Initial();
    y := Names(m, w, f);
    y := Serve(x, y, 1, Counting(w, f), "", true);
    y := Serve(x, y, 1, Landing(w, f, ByShare), "", true);
    y := Serve(x, y, 1, Inserting(w, f, ByShare), "", true);
    assert y.jobs == [Published(true), Told(InstantShared)];
  }

  // Two deletes of one coordinate, the lookups of both ahead of the first DELETE. The second
  // one deletes nothing, lowers the count all the same and erases the other project's file.
  lemma TwoDeletesLoseFile(m: Meta, w: Meta, f: string)
    requires m.artifactMode && w.artifactMode && m.checksum == w.checksum && m.at.project != w.at.project && f != ""
    ensures exists y, step, z ::
      Harm(y, step, z) && y.jobs[step.j] == Removing(m.at, Artifact(m.checksum, f)) && step.luck.Fine? && LostFile(z, w.at)
  {
    hide StorageName, Reached, WithoutFiles;
    var x := Initial();
    var (c, a) := (m.at, Artifact(m.checksum, f));
    var y := SharesFile(m, w, f);
    y := Arrive(x, y, Finding(c), true);
    y := Arrive(x, y, Finding(c), true);
    y := Serve(x, y, 2, Finding(c), "", true);
    y := Serve(x, y, 3, Finding(c), "", true);
    y := Serve(x, y, 2, Removing(c, a), "", true);
    y := Lowers(x, y, 2, c, a, true);
    var step := Advance(3, Fine, "");
    var b := Apply(y, step);
    Stay(b, false);
    var z := Finishes(b, b, 3, c, a, false);
    assert Harm(y, step, z) && LostFile(z, w.at);
  }

  // The first project's delete, after the second one's precheck has read the file's name.
  lemma Overtakes(m: Meta, w: Meta, f: string) returns (y: System)
    requires m.artifactMode && w.artifactMode && m.checksum == w.checksum && m.at.project != w.at.project && f != ""
    ensures Reached(Initial(), y, true)
    ensures y.jobs == [Published(true), Counting(w, f), Deleted(Removed(f, false))]
    ensures y.db.shared == map[] && y.db.artifacts == map[] && y.store == {}
  {
    hide StorageName, Reached, WithoutFiles;
    var x := Initial();
    var (c, a) := (m.at, Artifact(m.checksum, f));
    y := Names(m, w, f);
    y := Arrive(x, y, Finding(c), true);
    y := Serve(x, y, 2, Finding(c), "", true);
    y := Serve(x, y, 2, Removing(c, a), "", true);
    y := Finishes(x, y, 2, c, a, true);
  }

  // A precheck has read the name of a shared file; a delete erases the file; the precheck
  // counts on a row that is gone and adds the artifact.
  lemma DeleteOvertakesShare(m: Meta, w: Meta, f: string)
    requires m.artifactMode && w.artifactMode && m.checksum == w.checksum && m.at.project != w.at.project && f != ""
    ensures exists y, step, z ::
      Harm(y, step, z) && y.jobs == [Published(true), Counting(w, f), Deleted(Removed(f, false))]
      && z.jobs == [Published(true), Told(InstantShared), Deleted(Removed(f, false))] && LostFile(z, w.at)
  {
    hide StorageName, Reached;
    var y := Overtakes(m, w, f);
    var step := Advance(1, Fine, "");
    var b := Apply(y, step);
    Stay(b, false);
    var z := Serve(b, b, 1, Landing(w, f, ByShare), "", false);
    z := Serve(b, z, 1, Inserting(w, f, ByShare), "", false);
    assert Harm(y, step, z) && LostFile(z, w.at);
  }

  // Up to the artifact that the reuse branch inserts.
  lemma Reuses(m: Meta, w: Meta, f: string) returns (y: System)
    requires m.artifactMode && w.artifactMode && m.checksum == w.checksum && f != ""
    requires m.at.project == w.at.project && m.at != w.at
    ensures Reached(Initial(), y, true)
    ensures y == System(Uploaded(Initial().db, m, f), {f}, {f}, [Published(true), Inserting(w, f, ByReuse)])
  {
    hide StorageName, Reached;
    var x := Initial();
    Stay(x, true);
    y := Uploads(x, x, m, f, true);
    assert y.db.files[0].md5 == w.checksum && y.db.files[0].owner == w.at.project;
    y := Arrive(x, y, Checking(w), true);
    y := Serve(x, y, 1, Checking(w), "", true);
    y := Serve(x, y, 1, Owning(w), "", true);
    y := Serve(x, y, 1, NamingOwn(w), "", true);
    y := Serve(x, y, 1, Attaching(w, f), "", true);
    y := Serve(x, y, 1, Landing(w, f, ByReuse), "", true);
    assert y.jobs == [Published(true), Inserting(w, f, ByReuse)];
  }

  // The branch that reuses a file of the same project, without any race: publish one build,
  // let a second one of the same bytes take that branch, delete the first.
  lemma ReuseLosesFile(m: Meta, w: Meta, f: string)
    requires m.artifactMode && w.artifactMode && m.checksum == w.checksum && f != ""
    requires m.at.project == w.at.project && m.at != w.at
    ensures exists y, step, z ::
      Harm(y, step, z) && y.jobs == [Published(true), Inserting(w, f, ByReuse)]
      && z.jobs == [Published(true), Told(InstantExisting), Deleted(Removed(f, false))] && LostFile(z, w.at)
  {
    hide StorageName, Reached, WithoutFiles;
    var (c, a) := (m.at, Artifact(m.checksum, f));
    var y := Reuses(m, w, f);
    var step := Advance(1, Fine, "");
    var b := Apply(y, step);
    Stay(b, false);
    var z := Arrive(b, b, Finding(c), false);
    z := Serve(b, z, 2, Finding(c), "", false);
    z := Serve(b, z, 2, Removing(c, a), "", false);
    z := Finishes(b, z, 2, c, a, false);
    assert Harm(y, step, z) && LostFile(z, w.at);
  }
}
