// Any number of requests at once: reference counts, physical files and coordinates.
module ArtifactRuns {
  import opened ArtifactStore
  import opened ArtifactJobs

  // store is the set of physical files; named holds the identifiers that ever came to the
  // tables.
  datatype System = System(db: Db, store: set<string>, named: set<string>, jobs: seq<Job>)

  // A request arrives, or one of them does the next thing it has to do.
  datatype Step = Start(job: Job) | Advance(j: nat, luck: Luck, newId: string)

  // The storage service hands out names that are not in use and were never in the tables.
  ghost predicate Enabled(y: System, step: Step) {
    match step
    case Start(job) => job.Checking? || job.Asking? || job.Finding?
    case Advance(j, luck, newId) =>
      && j < |y.jobs| && !Over(y.jobs[j])
      && (y.jobs[j].Storing? ==> newId != "" && newId !in y.store && newId !in y.named)
  }

  function Stored(store: set<string>, job: Job, luck: Luck, newId: string): set<string> {
    if !luck.Fine? then store
    else if job.Storing? then store + {newId}
    else if Erases(job) then store - {job.r.fileId}
    else store
  }

  function Apply(y: System, step: Step): System {
    match step
    case Start(job) => y.(jobs := y.jobs + [job])
    case Advance(j, luck, newId) =>
      if j >= |y.jobs| then y
      else
        var job := y.jobs[j];
        var (db, next) := Next(y.db, job, luck, newId);
        System(db, Stored(y.store, job, luck, newId),
               if job.Publishing? then y.named + {job.fileId} else y.named, y.jobs[j := next])
  }

  ghost predicate Run(y: System, steps: seq<Step>)
    decreases |steps|
  {
    steps == [] || (Enabled(y, steps[0]) && Run(Apply(y, steps[0]), steps[1..]))
  }

  ghost function Last(y: System, steps: seq<Step>): System
    decreases |steps|
  {
    if steps == [] then y else Last(Apply(y, steps[0]), steps[1..])
  }

  function Initial(): System {
    System(Db([], map[], map[]), {}, {}, [])
  }

  // ---- immutable coordinates ----

  // The DELETE of that coordinate, the one statement that may touch its row.
  ghost predicate Strikes(y: System, step: Step, c: Coord) {
    && step.Advance? && step.j < |y.jobs| && y.jobs[step.j].Removing? && y.jobs[step.j].c == c
    && step.luck.Fine?
  }

  ghost predicate NeverStruck(y: System, steps: seq<Step>, c: Coord)
    decreases |steps|
  {
    steps == [] || (!Strikes(y, steps[0], c) && NeverStruck(Apply(y, steps[0]), steps[1..], c))
  }

  lemma StepKeepsCoordinate(y: System, step: Step, c: Coord)
    requires c in y.db.artifacts
    ensures !Strikes(y, step, c) ==>
      c in Apply(y, step).db.artifacts && Apply(y, step).db.artifacts[c] == y.db.artifacts[c]
    ensures Strikes(y, step, c) ==> c !in Apply(y, step).db.artifacts
  {
    hide GetArtifact, OwnedBy, FileIdOf, WithoutFiles, StorageName, CountRef, Stored;
  }

  // Whatever requests and failures follow, and in whatever order, a published coordinate keeps
  // its checksum and its file until the DELETE of that coordinate. A delete that is answered
  // with an error later has struck it all the same.
  lemma {:induction false} CoordinatesAreImmutable(y: System, steps: seq<Step>, c: Coord)
    requires c in y.db.artifacts && NeverStruck(y, steps, c)
    ensures c in Last(y, steps).db.artifacts && Last(y, steps).db.artifacts[c] == y.db.artifacts[c]
    decreases |steps|
  {
    hide Apply, Strikes;
    if steps != [] {
      StepKeepsCoordinate(y, steps[0], c);
      CoordinatesAreImmutable(Apply(y, steps[0]), steps[1..], c);
    }
  }

  // ---- what the requests under way owe ----

  // The artifact that a request has counted but not inserted, or deleted but not uncounted.
  function Debt(job: Job): set<Artifact> {
    match job
    case Landing(m, fileId, via) => if via.ByReuse? then {} else {Artifact(m.checksum, fileId)}
    case Inserting(m, fileId, via) => if via.ByReuse? then {} else {Artifact(m.checksum, fileId)}
    case Dropping(_, a) => {a}
    case Lowering(_, a) => {a}
    case _ => {}
  }

  ghost predicate Owes(job: Job, x: string) {
    exists a :: a in Debt(job) && a.checksum == x
  }

  ghost function Owing(jobs: seq<Job>, x: string): set<nat> {
    set j: nat | j < |jobs| && Owes(jobs[j], x)
  }

  function Unit(b: bool): nat { if b then 1 else 0 }

  lemma OwingStep(jobs: seq<Job>, j: nat, next: Job, x: string)
    requires j < |jobs|
    ensures |Owing(jobs[j := next], x)| == |Owing(jobs, x)| - Unit(Owes(jobs[j], x)) + Unit(Owes(next, x))
  {
    hide Owes;
    var t := jobs[j := next];
    var others := set i: nat | i < |jobs| && i != j && Owes(jobs[i], x);
    assert Owing(jobs, x) == if Owes(jobs[j], x) then others + {j} else others;
    assert Owing(t, x) == if Owes(next, x) then others + {j} else others;
  }

  lemma OwingStart(jobs: seq<Job>, job: Job, x: string)
    requires Debt(job) == {}
    ensures Owing(jobs + [job], x) == Owing(jobs, x)
  {
    hide Debt;
    var t := jobs + [job];
    forall j: nat | j < |t| ensures j in Owing(t, x) <==> j in Owing(jobs, x) {
      assert j < |jobs| ==> t[j] == jobs[j];
    }
  }

  // ---- the books ----

  // An artifact carries the shared file of its checksum.
  predicate Carried(db: Db, a: Artifact) {
    a.checksum in db.shared && a.fileId == db.shared[a.checksum].fileId
  }

  ghost predicate Backed(y: System) {
    && (forall c :: c in y.db.artifacts ==> Carried(y.db, y.db.artifacts[c]))
    && (forall j, a :: 0 <= j < |y.jobs| && a in Debt(y.jobs[j]) ==> Carried(y.db, a))
  }

  // Every count is the number of artifacts with that checksum and of requests that owe one.
  ghost predicate Balanced(y: System) {
    forall x :: x in y.db.shared ==>
      y.db.shared[x].refs == |Users(y.db.artifacts, x)| + |Owing(y.jobs, x)|
  }

  // Shared files are named, present and each of one checksum.
  ghost predicate SharedFiled(y: System) {
    && (forall x :: x in y.db.shared ==>
          y.db.shared[x].fileId != "" && y.db.shared[x].fileId in y.store && y.db.shared[x].fileId in y.named)
    && (forall x, z :: x in y.db.shared && z in y.db.shared && y.db.shared[x].fileId == y.db.shared[z].fileId ==> x == z)
  }

  // What a request knows about files: its upload is still unknown to the tables; the file it
  // deletes is known and, once its count was lowered, of no other checksum; the file it erases
  // is shared by nobody.
  ghost predicate JobFiled(db: Db, store: set<string>, named: set<string>, job: Job) {
    match job
    case Publishing(_, fileId) => fileId != "" && fileId in store && fileId !in named
    case Removing(_, a) => a.fileId in named
    case Dropping(_, a) => a.fileId in named
    case Lowering(_, a) => a.fileId in named
    case Reading(_, a) => a.fileId in named && OnlyFile(db, a)
    case Forgetting(_, a) => a.fileId in named && OnlyFile(db, a)
    case Deleted(r) => Erases(job) ==> r.fileId in named && forall x :: x in db.shared ==> db.shared[x].fileId != r.fileId
    case _ => true
  }

  ghost predicate OnlyFile(db: Db, a: Artifact) {
    forall x :: x in db.shared && db.shared[x].fileId == a.fileId ==> x == a.checksum
  }

  ghost predicate JobsFiled(y: System) {
    && (forall j :: 0 <= j < |y.jobs| ==> JobFiled(y.db, y.store, y.named, y.jobs[j]))
    && (forall i, j :: 0 <= i < j < |y.jobs| && y.jobs[i].Publishing? && y.jobs[j].Publishing? ==>
          y.jobs[i].fileId != y.jobs[j].fileId)
  }

  ghost predicate Filed(y: System) { SharedFiled(y) && JobsFiled(y) }

  ghost predicate Books(y: System) { Backed(y) && Balanced(y) && Filed(y) }

  // When a statement breaks the books, read off the tables and how it goes:
  // a reference is committed that no artifact will follow, or on a row that is gone or names
  // another file; CreateArtifact of a counted reference is refused or fails; the branch that
  // reuses a file inserts its artifact; a DELETE does not meet the artifact that the lookup
  // found; a delete stops before it lowers the count; a row is forgotten that was used again.
  predicate Harms(db: Db, job: Job, luck: Luck) {
    match job
    case Counting(m, fileId) =>
      && Commits(m, luck)
      && if m.artifactMode && luck.Fine? then !Carried(db, Artifact(m.checksum, fileId)) else m.checksum in db.shared
    case Publishing(m, _) => Commits(m, luck) && m.checksum !in db.shared && (luck.FailsLate? || !m.artifactMode)
    case Landing(m, _, via) => !via.ByReuse? && luck.Fine? && m.at in db.artifacts
    case Inserting(m, _, via) => via.ByReuse? == (luck.Fine? && m.at !in db.artifacts)
    case Removing(c, a) => luck.Fine? && !(c in db.artifacts && db.artifacts[c] == a)
    case Dropping(_, _) => !luck.Fine?
    case Lowering(_, _) => !luck.Fine?
    case Forgetting(_, a) => luck.Fine? && a.checksum in db.shared && db.shared[a.checksum].refs != 0
    case _ => false
  }

  predicate Breach(y: System, step: Step) {
    step.Advance? && step.j < |y.jobs| && Harms(y.db, y.jobs[step.j], step.luck)
  }

  // ---- one lemma for each way a statement moves the books ----

  ghost predicate Even(y: System) { Backed(y) && Balanced(y) }

  // z is y after request j went from its state to next.
  ghost predicate Moved(y: System, z: System, j: nat, next: Job) {
    j < |y.jobs| && z.jobs == y.jobs[j := next]
  }

  // Every artifact and every debt but those of request j are still backed, and its new ones too.
  lemma BackedKept(y: System, z: System, j: nat, next: Job)
    requires Backed(y) && Moved(y, z, j, next)
    requires forall a :: Carried(y.db, a) ==> Carried(z.db, a)
    requires forall a :: a in Debt(next) ==> Carried(z.db, a)
    requires forall c :: c in z.db.artifacts ==>
      (c in y.db.artifacts && z.db.artifacts[c] == y.db.artifacts[c]) || Carried(y.db, z.db.artifacts[c])
    ensures Backed(z)
  {
    hide Debt, Carried;
    forall i, a | 0 <= i < |z.jobs| && a in Debt(z.jobs[i]) ensures Carried(z.db, a) {
      if i != j {
        assert z.jobs[i] == y.jobs[i] && a in Debt(y.jobs[i]);
      }
    }
  }

  lemma Quiet(y: System, z: System, j: nat, next: Job)
    requires Even(y) && Moved(y, z, j, next) && Debt(next) == Debt(y.jobs[j])
    requires z.db.shared == y.db.shared && z.db.artifacts == y.db.artifacts
    ensures Even(z)
  {
    hide Users, Owing, Debt;
    forall x ensures |Owing(z.jobs, x)| == |Owing(y.jobs, x)| {
      OwingStep(y.jobs, j, next, x);
      assert Owes(next, x) == Owes(y.jobs[j], x);
    }
    forall a | a in Debt(next) ensures Carried(z.db, a) {
      assert a in Debt(y.jobs[j]) && Carried(y.db, a);
    }
    BackedKept(y, z, j, next);
  }

  // A debt is dropped and nothing comes of it.
  lemma Defaults(y: System, z: System, j: nat, next: Job, a: Artifact)
    requires Even(y) && Moved(y, z, j, next) && Debt(y.jobs[j]) == {a} && Debt(next) == {}
    requires z.db.shared == y.db.shared && z.db.artifacts == y.db.artifacts
    ensures !Even(z)
  {
    hide Users, Owing, Debt;
    OwingStep(y.jobs, j, next, a.checksum);
    assert Owes(y.jobs[j], a.checksum) && !Owes(next, a.checksum);
    assert Carried(y.db, a);
  }

  // The artifact of the debt comes into the table.
  lemma Inserts(y: System, z: System, j: nat, next: Job, c: Coord, a: Artifact)
    requires Even(y) && Moved(y, z, j, next) && Debt(y.jobs[j]) == {a} && Debt(next) == {}
    requires c !in y.db.artifacts
    requires z.db.shared == y.db.shared && z.db.artifacts == y.db.artifacts[c := a]
    ensures Even(z)
  {
    hide Users, Owing, Debt;
    forall x | x in z.db.shared
      ensures z.db.shared[x].refs == |Users(z.db.artifacts, x)| + |Owing(z.jobs, x)|
    {
      OwingStep(y.jobs, j, next, x);
      UsersAdd(y.db.artifacts, c, a, x);
      assert Owes(y.jobs[j], x) == (a.checksum == x) && !Owes(next, x);
    }
    assert Carried(y.db, a);
    BackedKept(y, z, j, next);
  }

  // An artifact nobody counted.
  lemma Slips(y: System, z: System, j: nat, next: Job, c: Coord, a: Artifact)
    requires Even(y) && Moved(y, z, j, next) && Debt(y.jobs[j]) == {} && Debt(next) == {}
    requires c !in y.db.artifacts
    requires z.db.shared == y.db.shared && z.db.artifacts == y.db.artifacts[c := a]
    ensures !Even(z)
  {
    hide Users, Owing, Debt;
    OwingStep(y.jobs, j, next, a.checksum);
    UsersAdd(y.db.artifacts, c, a, a.checksum);
    assert !Owes(y.jobs[j], a.checksum) && !Owes(next, a.checksum);
    assert Carried(z.db, z.db.artifacts[c]) ==> a.checksum in y.db.shared;
  }

  // One more reference, with its debt.
  lemma Counts(y: System, z: System, j: nat, next: Job, a: Artifact)
    requires Even(y) && Moved(y, z, j, next) && Debt(y.jobs[j]) == {} && Debt(next) == {a}
    requires Carried(y.db, a) && z.db.artifacts == y.db.artifacts
    requires z.db.shared == y.db.shared[a.checksum := y.db.shared[a.checksum].(refs := y.db.shared[a.checksum].refs + 1)]
    ensures Even(z)
  {
    hide Users, Owing, Debt;
    forall x | x in z.db.shared
      ensures z.db.shared[x].refs == |Users(z.db.artifacts, x)| + |Owing(z.jobs, x)|
    {
      OwingStep(y.jobs, j, next, x);
      assert !Owes(y.jobs[j], x) && Owes(next, x) == (a.checksum == x);
    }
    BackedKept(y, z, j, next);
  }

  // A debt without the row it speaks of.
  lemma Unbacked(z: System, j: nat, a: Artifact)
    requires j < |z.jobs| && a in Debt(z.jobs[j]) && !Carried(z.db, a)
    ensures !Even(z)
  {
  }

  // One more reference, with no debt.
  lemma Overcounts(y: System, z: System, j: nat, next: Job, x: string)
    requires Even(y) && Moved(y, z, j, next) && Debt(y.jobs[j]) == {} && Debt(next) == {}
    requires x in y.db.shared && z.db.artifacts == y.db.artifacts
    requires z.db.shared == y.db.shared[x := y.db.shared[x].(refs := y.db.shared[x].refs + 1)]
    ensures !Even(z)
  {
    hide Users, Owing, Debt;
    OwingStep(y.jobs, j, next, x);
    assert !Owes(y.jobs[j], x) && !Owes(next, x);
  }

  lemma Unknown(y: System, x: string)
    requires Even(y) && x !in y.db.shared
    ensures Users(y.db.artifacts, x) == {} && Owing(y.jobs, x) == {}
  {
    hide Debt;
    forall c | c in y.db.artifacts ensures y.db.artifacts[c].checksum != x {
      assert Carried(y.db, y.db.artifacts[c]);
    }
    forall j: nat | j < |y.jobs| ensures !Owes(y.jobs[j], x) {
      forall a | a in Debt(y.jobs[j]) ensures a.checksum != x {
        assert Carried(y.db, a);
      }
    }
  }

  // A new shared file comes with one reference, and owes one artifact or none.
  lemma Shares(y: System, z: System, j: nat, next: Job, a: Artifact)
    requires Even(y) && Moved(y, z, j, next) && Debt(y.jobs[j]) == {}
    requires Debt(next) == {a} || Debt(next) == {}
    requires a.checksum !in y.db.shared && z.db.artifacts == y.db.artifacts
    requires z.db.shared == y.db.shared[a.checksum := Shared(a.fileId, 1)]
    ensures Even(z) <==> Debt(next) == {a}
  {
    hide Users, Owing, Debt;
    Unknown(y, a.checksum);
    forall x | x in z.db.shared
      ensures z.db.shared[x].refs - |Users(z.db.artifacts, x)| - |Owing(z.jobs, x)|
        == if x == a.checksum && Debt(next) == {} then 1 else 0
    {
      OwingStep(y.jobs, j, next, x);
      assert !Owes(y.jobs[j], x) && Owes(next, x) == (Debt(next) == {a} && a.checksum == x);
    }
    BackedKept(y, z, j, next);
  }

  // A DELETE that meets the artifact it was meant for.
  lemma Removes(y: System, z: System, j: nat, next: Job, c: Coord, a: Artifact)
    requires Even(y) && Moved(y, z, j, next) && Debt(y.jobs[j]) == {} && Debt(next) == {a}
    requires z.db.shared == y.db.shared && z.db.artifacts == y.db.artifacts - {c}
    requires c in y.db.artifacts && y.db.artifacts[c] == a
    ensures Even(z)
  {
    hide Users, Owing, Debt;
    forall x | x in z.db.shared
      ensures z.db.shared[x].refs == |Users(z.db.artifacts, x)| + |Owing(z.jobs, x)|
    {
      OwingStep(y.jobs, j, next, x);
      UsersRemove(y.db.artifacts, c, x);
      assert !Owes(y.jobs[j], x) && Owes(next, x) == (a.checksum == x);
    }
    assert Carried(y.db, a);
    BackedKept(y, z, j, next);
  }

  // One that meets another artifact, or none.
  lemma Mistakes(y: System, z: System, j: nat, next: Job, c: Coord, a: Artifact)
    requires Even(y) && Moved(y, z, j, next) && Debt(y.jobs[j]) == {} && Debt(next) == {a}
    requires z.db.shared == y.db.shared && z.db.artifacts == y.db.artifacts - {c}
    requires !(c in y.db.artifacts && y.db.artifacts[c] == a)
    ensures !Even(z)
  {
    hide Users, Owing, Debt;
    OwingStep(y.jobs, j, next, a.checksum);
    assert !Owes(y.jobs[j], a.checksum) && Owes(next, a.checksum);
    assert z.jobs[j] == next && (Even(z) ==> Carried(z.db, a));
    if c in y.db.artifacts {
      assert Carried(y.db, y.db.artifacts[c]);
      UsersRemove(y.db.artifacts, c, a.checksum);
    } else {
      assert z.db.artifacts == y.db.artifacts;
    }
  }

  // The count goes down for an artifact that is gone.
  lemma Settles(y: System, z: System, j: nat, next: Job, a: Artifact)
    requires Even(y) && Moved(y, z, j, next) && Debt(y.jobs[j]) == {a} && Debt(next) == {}
    requires z.db == LowerRef(y.db, a.checksum)
    ensures Even(z)
  {
    hide Users, Owing, Debt;
    assert Carried(y.db, a);
    forall x | x in z.db.shared
      ensures z.db.shared[x].refs == |Users(z.db.artifacts, x)| + |Owing(z.jobs, x)|
    {
      OwingStep(y.jobs, j, next, x);
      assert Owes(y.jobs[j], x) == (a.checksum == x) && !Owes(next, x);
    }
    BackedKept(y, z, j, next);
  }

  // A row goes, rightly exactly when nobody needs it.
  lemma Forgets(y: System, z: System, j: nat, next: Job, x: string)
    requires Even(y) && Moved(y, z, j, next) && Debt(y.jobs[j]) == {} && Debt(next) == {}
    requires z.db.shared == y.db.shared - {x} && z.db.artifacts == y.db.artifacts
    ensures Even(z) <==> !(x in y.db.shared && y.db.shared[x].refs != 0)
  {
    hide Users, Owing, Debt;
    forall w ensures |Owing(z.jobs, w)| == |Owing(y.jobs, w)| {
      OwingStep(y.jobs, j, next, w);
      assert !Owes(y.jobs[j], w) && !Owes(next, w);
    }
    if x in y.db.shared && y.db.shared[x].refs != 0 {
      if Even(z) {
        Unknown(z, x);
      }
    } else if x in y.db.shared {
      Needless(y, x);
      forall c | c in z.db.artifacts ensures Carried(z.db, z.db.artifacts[c]) {
        assert Carried(y.db, y.db.artifacts[c]);
      }
      forall i, a | 0 <= i < |z.jobs| && a in Debt(z.jobs[i]) ensures Carried(z.db, a) {
        assert i != j && z.jobs[i] == y.jobs[i] && Carried(y.db, a);
      }
    } else {
      assert z.db.shared == y.db.shared;
      BackedKept(y, z, j, next);
    }
  }

  lemma Needless(y: System, x: string)
    requires Balanced(y) && x in y.db.shared && y.db.shared[x].refs == 0
    ensures forall c :: c in y.db.artifacts ==> y.db.artifacts[c].checksum != x
    ensures forall j, a :: 0 <= j < |y.jobs| && a in Debt(y.jobs[j]) ==> a.checksum != x
  {
    hide Debt;
    forall c | c in y.db.artifacts ensures y.db.artifacts[c].checksum != x {
      assert c !in Users(y.db.artifacts, x);
    }
    forall j, a | 0 <= j < |y.jobs| && a in Debt(y.jobs[j]) ensures a.checksum != x {
      assert j !in Owing(y.jobs, x);
    }
  }

  // ---- every statement ----

  // A step of one of these requests that touches neither counts nor artifacts.
  ghost predicate Reads(job: Job) {
    !(job.Counting? || job.Publishing? || job.Landing? || job.Inserting? || job.Removing? || job.Dropping?
      || job.Lowering? || job.Forgetting?)
  }

  lemma ReadsExact(y: System, step: Step)
    requires Even(y) && Enabled(y, step) && step.Advance? && Reads(y.jobs[step.j])
    ensures Even(Apply(y, step)) && !Breach(y, step)
  {
    hide Even, OwnedBy, Stored;
    Quiet(y, Apply(y, step), step.j, Next(y.db, y.jobs[step.j], step.luck, step.newId).1);
  }

  lemma CountingExact(y: System, step: Step, m: Meta, fileId: string)
    requires Even(y) && Enabled(y, step) && step.Advance? && y.jobs[step.j] == Counting(m, fileId)
    ensures Even(Apply(y, step)) <==> !Breach(y, step)
  {
    hide Even, StorageName, Stored;
    var (j, luck, z) := (step.j, step.luck, Apply(y, step));
    var (x, next) := (m.checksum, Next(y.db, y.jobs[j], luck, step.newId).1);
    var a := Artifact(x, fileId);
    if !Commits(m, luck) {
      Quiet(y, z, j, next);
    } else if m.artifactMode && luck.Fine? {
      if Carried(y.db, a) {
        Counts(y, z, j, next, a);
      } else {
        Unbacked(z, j, a);
      }
    } else if x in y.db.shared {
      Overcounts(y, z, j, next, x);
    } else {
      Quiet(y, z, j, next);
    }
  }

  lemma PublishingExact(y: System, step: Step, m: Meta, fileId: string)
    requires Even(y) && Enabled(y, step) && step.Advance? && y.jobs[step.j] == Publishing(m, fileId)
    ensures Even(Apply(y, step)) <==> !Breach(y, step)
  {
    hide Even, StorageName, Stored;
    var (j, luck, z) := (step.j, step.luck, Apply(y, step));
    var next := Next(y.db, y.jobs[j], luck, step.newId).1;
    if !Commits(m, luck) || m.checksum in y.db.shared {
      Quiet(y, z, j, next);
    } else {
      Shares(y, z, j, next, Artifact(m.checksum, fileId));
    }
  }

  lemma LandingExact(y: System, step: Step, m: Meta, fileId: string, via: Via)
    requires Even(y) && Enabled(y, step) && step.Advance? && y.jobs[step.j] == Landing(m, fileId, via)
    ensures Even(Apply(y, step)) <==> !Breach(y, step)
  {
    hide Even, Stored;
    var (j, luck, z) := (step.j, step.luck, Apply(y, step));
    var next := Next(y.db, y.jobs[j], luck, step.newId).1;
    if !via.ByReuse? && luck.Fine? && m.at in y.db.artifacts {
      Defaults(y, z, j, next, Artifact(m.checksum, fileId));
    } else {
      Quiet(y, z, j, next);
    }
  }

  lemma InsertingExact(y: System, step: Step, m: Meta, fileId: string, via: Via)
    requires Even(y) && Enabled(y, step) && step.Advance? && y.jobs[step.j] == Inserting(m, fileId, via)
    ensures Even(Apply(y, step)) <==> !Breach(y, step)
  {
    hide Even, Stored;
    var (j, luck, z) := (step.j, step.luck, Apply(y, step));
    var (a, next) := (Artifact(m.checksum, fileId), Next(y.db, y.jobs[j], luck, step.newId).1);
    if luck.Fine? && m.at !in y.db.artifacts {
      if via.ByReuse? {
        Slips(y, z, j, next, m.at, a);
      } else {
        Inserts(y, z, j, next, m.at, a);
      }
    } else if via.ByReuse? {
      Quiet(y, z, j, next);
    } else {
      Defaults(y, z, j, next, a);
    }
  }

  lemma DeletingExact(y: System, step: Step, c: Coord, a: Artifact)
    requires Even(y) && Enabled(y, step) && step.Advance?
    requires y.jobs[step.j] in {Removing(c, a), Dropping(c, a), Lowering(c, a), Forgetting(c, a)}
    ensures Even(Apply(y, step)) <==> !Breach(y, step)
  {
    hide Even, StorageName, Stored, WithoutFiles, LowerRef;
    var (j, luck, z) := (step.j, step.luck, Apply(y, step));
    var (job, next) := (y.jobs[j], Next(y.db, y.jobs[j], luck, step.newId).1);
    if job.Removing? && luck.Fine? {
      if c in y.db.artifacts && y.db.artifacts[c] == a {
        Removes(y, z, j, next, c, a);
      } else {
        Mistakes(y, z, j, next, c, a);
      }
    } else if job.Dropping? && !luck.Fine? {
      Defaults(y, z, j, next, a);
    } else if job.Lowering? {
      if luck.Fine? {
        Settles(y, z, j, next, a);
      } else {
        Defaults(y, z, j, next, a);
      }
    } else if job.Forgetting? && luck.Fine? {
      Forgets(y, z, j, next, a.checksum);
    } else {
      Quiet(y, z, j, next);
    }
  }

  lemma StartKeeps(y: System, job: Job)
    requires Books(y) && Enabled(y, Start(job))
    ensures Books(Apply(y, Start(job)))
  {
    hide Users, Owing;
    var z := Apply(y, Start(job));
    forall x ensures Owing(z.jobs, x) == Owing(y.jobs, x) {
      OwingStart(y.jobs, job, x);
    }
    forall i, a | 0 <= i < |z.jobs| && a in Debt(z.jobs[i]) ensures Carried(z.db, a) {
      assert i < |y.jobs| && z.jobs[i] == y.jobs[i] && Carried(y.db, a);
    }
  }

  lemma AdvanceExact(y: System, step: Step)
    requires Even(y) && Enabled(y, step) && step.Advance?
    ensures Even(Apply(y, step)) <==> !Breach(y, step)
  {
    hide Even, Apply, Breach;
    match y.jobs[step.j]
    case Counting(m, fileId) => CountingExact(y, step, m, fileId);
    case Publishing(m, fileId) => PublishingExact(y, step, m, fileId);
    case Landing(m, fileId, via) => LandingExact(y, step, m, fileId, via);
    case Inserting(m, fileId, via) => InsertingExact(y, step, m, fileId, via);
    case Removing(c, a) => DeletingExact(y, step, c, a);
    case Dropping(c, a) => DeletingExact(y, step, c, a);
    case Lowering(c, a) => DeletingExact(y, step, c, a);
    case Forgetting(c, a) => DeletingExact(y, step, c, a);
    case _ => ReadsExact(y, step);
  }

  // ---- files ----

  // A statement shares no new file but that of its own upload.
  lemma SharedNext(db: Db, job: Job, luck: Luck, newId: string, x: string)
    ensures var t := Next(db, job, luck, newId).0;
      x in t.shared ==>
        if x in db.shared then t.shared[x].fileId == db.shared[x].fileId
        else job.Publishing? && t.shared[x].fileId == job.fileId
  {
    hide OwnedBy, StorageName, WithoutFiles, GetArtifact, FileIdOf, CountRef;
  }

  // How the file sets move when request j takes a step.
  ghost predicate FilesMove(y: System, z: System, job: Job) {
    && (forall x :: x in z.db.shared ==>
          if x in y.db.shared then z.db.shared[x].fileId == y.db.shared[x].fileId
          else job.Publishing? && z.db.shared[x].fileId == job.fileId)
    && (forall x, w :: x in z.db.shared && w in z.db.shared && x !in y.db.shared && w !in y.db.shared ==> x == w)
    && z.named == (if job.Publishing? then y.named + {job.fileId} else y.named)
    && (z.store == y.store || (Erases(job) && z.store == y.store - {job.r.fileId})
        || (job.Storing? && exists newId :: newId !in y.store && z.store == y.store + {newId}))
  }

  lemma OneShared(db: Db, job: Job, luck: Luck, newId: string, x: string, w: string)
    ensures var t := Next(db, job, luck, newId).0;
      x in t.shared && w in t.shared && x !in db.shared && w !in db.shared ==> x == w
  {
    hide OwnedBy, StorageName, WithoutFiles, GetArtifact, FileIdOf, CountRef;
  }

  lemma StepMoves(y: System, step: Step)
    requires Enabled(y, step) && step.Advance?
    ensures FilesMove(y, Apply(y, step), y.jobs[step.j])
  {
    hide Next;
    var z := Apply(y, step);
    forall x | x in z.db.shared
      ensures if x in y.db.shared then z.db.shared[x].fileId == y.db.shared[x].fileId
              else y.jobs[step.j].Publishing? && z.db.shared[x].fileId == y.jobs[step.j].fileId
    {
      SharedNext(y.db, y.jobs[step.j], step.luck, step.newId, x);
    }
    forall x, w | x in z.db.shared && w in z.db.shared && x !in y.db.shared && w !in y.db.shared ensures x == w {
      OneShared(y.db, y.jobs[step.j], step.luck, step.newId, x, w);
    }
  }

  lemma SharedFiledKept(y: System, z: System, job: Job)
    requires SharedFiled(y) && JobFiled(y.db, y.store, y.named, job) && FilesMove(y, z, job)
    ensures SharedFiled(z)
  {
  }

  // The requests that do not move. An upload's identifier is not that of the upload that does.
  lemma BystanderFiled(y: System, z: System, job: Job, other: Job)
    requires JobFiled(y.db, y.store, y.named, job) && JobFiled(y.db, y.store, y.named, other)
    requires FilesMove(y, z, job)
    requires job.Publishing? && other.Publishing? ==> job.fileId != other.fileId
    ensures JobFiled(z.db, z.store, z.named, other)
  {
  }

  // Once a count has been lowered for an artifact, its file is of no other checksum.
  lemma CarriedIsOnly(y: System, a: Artifact)
    requires SharedFiled(y) && Carried(y.db, a)
    ensures OnlyFile(y.db, a) && a.fileId in y.named
  {
  }

  // The request that moves.
  lemma MoverFiled(y: System, step: Step)
    requires Backed(y) && SharedFiled(y) && Enabled(y, step) && step.Advance?
    requires JobFiled(y.db, y.store, y.named, y.jobs[step.j])
    ensures var z := Apply(y, step); JobFiled(z.db, z.store, z.named, z.jobs[step.j])
  {
    hide OwnedBy, StorageName, WithoutFiles, FileIdOf, CountRef, SharedFiled, Carried;
    match y.jobs[step.j]
    case Finding(c) =>
      if c in y.db.artifacts {
        CarriedIsOnly(y, y.db.artifacts[c]);
      }
    case Lowering(c, a) =>
      assert a in Debt(y.jobs[step.j]);
      CarriedIsOnly(y, a);
    case _ =>
  }

  lemma FiledKept(y: System, step: Step)
    requires Books(y) && Enabled(y, step) && step.Advance?
    ensures Filed(Apply(y, step))
  {
    hide SharedFiled, JobFiled, Backed, Balanced, FilesMove, Next;
    var (j, z) := (step.j, Apply(y, step));
    StepMoves(y, step);
    SharedFiledKept(y, z, y.jobs[j]);
    MoverFiled(y, step);
    forall i | 0 <= i < |z.jobs| && i != j ensures JobFiled(z.db, z.store, z.named, z.jobs[i]) {
      BystanderFiled(y, z, y.jobs[j], y.jobs[i]);
    }
    NewUpload(y, step);
  }

  lemma NewUpload(y: System, step: Step)
    requires JobsFiled(y) && Enabled(y, step) && step.Advance?
    ensures var z := Apply(y, step);
      forall i, k :: 0 <= i < k < |z.jobs| && z.jobs[i].Publishing? && z.jobs[k].Publishing? ==>
        z.jobs[i].fileId != z.jobs[k].fileId
  {
    hide OwnedBy, StorageName, WithoutFiles, GetArtifact, FileIdOf, CountRef;
    var z := Apply(y, step);
    assert z.jobs[step.j].Publishing? ==> y.jobs[step.j].Storing? && z.jobs[step.j].fileId == step.newId;
    forall i | 0 <= i < |y.jobs| && y.jobs[i].Publishing? && y.jobs[step.j].Storing?
      ensures y.jobs[i].fileId != step.newId
    {
      assert JobFiled(y.db, y.store, y.named, y.jobs[i]);
    }
  }

  // The books survive a statement exactly when it is not a breach.
  lemma StepExact(y: System, step: Step)
    requires Books(y) && Enabled(y, step)
    ensures Books(Apply(y, step)) <==> !Breach(y, step)
  {
    hide Backed, Balanced, Filed, Apply, Enabled;
    if step.Start? {
      StartKeeps(y, step.job);
    } else {
      AdvanceExact(y, step);
      FiledKept(y, step);
    }
  }

  // ---- runs ----

  ghost predicate SoundRun(y: System, steps: seq<Step>)
    decreases |steps|
  {
    steps == [] || (!Breach(y, steps[0]) && SoundRun(Apply(y, steps[0]), steps[1..]))
  }

  ghost predicate BooksThroughout(y: System, steps: seq<Step>)
    decreases |steps|
  {
    Books(y) && (steps == [] || BooksThroughout(Apply(y, steps[0]), steps[1..]))
  }

  // The books are right all along a run exactly when none of its statements is a breach.
  lemma {:induction false} RunExact(y: System, steps: seq<Step>)
    requires Books(y) && Run(y, steps)
    ensures BooksThroughout(y, steps) <==> SoundRun(y, steps)
    ensures SoundRun(y, steps) ==> Books(Last(y, steps))
    decreases |steps|
  {
    hide Books, Apply, Breach, Enabled;
    if steps != [] {
      StepExact(y, steps[0]);
      if !Breach(y, steps[0]) {
        RunExact(Apply(y, steps[0]), steps[1..]);
      } else {
        BooksFirst(Apply(y, steps[0]), steps[1..]);
      }
    }
  }

  lemma BooksFirst(y: System, steps: seq<Step>)
    ensures BooksThroughout(y, steps) ==> Books(y)
  {
  }

  lemma InitialBooks()
    ensures Books(Initial())
  {
    hide Users, Owing;
  }

  lemma NothingOwed(jobs: seq<Job>, x: string)
    requires forall j :: 0 <= j < |jobs| ==> Over(jobs[j])
    ensures Owing(jobs, x) == {}
  {
  }

  // In every state that a sound run reaches, whatever requests are under way: each artifact
  // carries the shared file of its checksum, that file is in the store, no request is about to
  // erase it, and each count is the number of artifacts plus that of requests that still owe
  // one; once all are answered it is the number of artifacts.
  lemma NoArtifactLosesItsFile(steps: seq<Step>)
    requires Run(Initial(), steps) && SoundRun(Initial(), steps)
    ensures var y := Last(Initial(), steps);
      && (forall c :: c in y.db.artifacts ==>
            Carried(y.db, y.db.artifacts[c]) && y.db.artifacts[c].fileId in y.store
            && forall j :: 0 <= j < |y.jobs| && Erases(y.jobs[j]) ==> y.jobs[j].r.fileId != y.db.artifacts[c].fileId)
      && (forall x :: x in y.db.shared ==>
            && y.db.shared[x].refs == |Users(y.db.artifacts, x)| + |Owing(y.jobs, x)|
            && ((forall j :: 0 <= j < |y.jobs| ==> Over(y.jobs[j])) ==>
                  y.db.shared[x].refs == |Users(y.db.artifacts, x)|))
  {
    hide Users, Owing, Debt;
    InitialBooks();
    RunExact(Initial(), steps);
    var y := Last(Initial(), steps);
    forall c, j | c in y.db.artifacts && 0 <= j < |y.jobs| && Erases(y.jobs[j])
      ensures y.jobs[j].r.fileId != y.db.artifacts[c].fileId
    {
      assert Carried(y.db, y.db.artifacts[c]) && JobFiled(y.db, y.store, y.named, y.jobs[j]);
    }
    if forall j :: 0 <= j < |y.jobs| ==> Over(y.jobs[j]) {
      forall x | x in y.db.shared ensures Owing(y.jobs, x) == {} {
        NothingOwed(y.jobs, x);
      }
    }
  }

  // ---- answers ----

  predicate HasMeta(job: Job) {
    job.Checking? || job.Owning? || job.NamingOwn? || job.Attaching? || job.Looking? || job.NamingShared?
    || job.Counting? || job.Asking? || job.Storing? || job.Publishing? || job.Landing? || job.Inserting?
  }

  predicate Succeeded(job: Job) {
    (job.Told? && (job.answer.Existing? || job.answer.InstantExisting? || job.answer.InstantShared?))
    || (job.Published? && job.ok)
  }

  // A request for an artifact stays that request, and the moment it is answered with success
  // its coordinate holds its checksum; a conflict is answered while it holds another one.
  lemma AnswersTrue(y: System, step: Step)
    requires Enabled(y, step) && step.Advance? && HasMeta(y.jobs[step.j]) && y.jobs[step.j].m.artifactMode
    ensures var (z, m) := (Apply(y, step), y.jobs[step.j].m);
      var next := z.jobs[step.j];
      && (HasMeta(next) ==> next.m == m)
      && (Succeeded(next) ==> m.at in z.db.artifacts && z.db.artifacts[m.at].checksum == m.checksum)
      && (next == Told(Conflict) ==> m.at in z.db.artifacts && z.db.artifacts[m.at].checksum != m.checksum)
  {
    hide OwnedBy, StorageName, FileIdOf, Stored;
  }
}
