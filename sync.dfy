/**
 * `sync_once` (app.py): mirror every active course's assignments into the
 * Notion database, then append the digest to the master page.
 *
 * Each Canvas listing is an input that either holds the records or the
 * status of the request that failed; `faults(n)` says how the run's
 * `n`-th upsert call fares, and `appendFault` whether appending the digest
 * to the master page raises.
 */
module Sync {
  import opened Wrappers
  import opened Values
  import opened Text
  import opened Canvas
  import opened Properties
  import opened Notion
  import opened Digest

  /** The settings `sync_once` reads from the environment. */
  datatype Config = Config(schema: Schema, onlyDated: bool, canvasBaseUrl: string)

  /** How a run ends: `get_active_courses` raised, or the run reached the digest pass. */
  datatype SyncOutcome = Aborted(status: int) | Synced(digest: DigestOutcome)

  /** The date filter: under `onlyDated` an assignment without a due date is skipped. */
  predicate PassesDateFilter(onlyDated: bool, x: Assignment) {
    !onlyDated || Truthy(x.dueAt)
  }

  /** The records one course's assignments turn into, in listing order. */
  function CourseRecords(lib: Lib, onlyDated: bool, cname: Value, assignments: seq<Value>): (r: seq<Assignment>)
    ensures |r| <= |assignments|
  {
    if assignments == [] then []
    else
      var n := |assignments| - 1;
      var x := NormalizeAssignment(lib, assignments[n], cname);
      CourseRecords(lib, onlyDated, cname, assignments[..n]) + (if PassesDateFilter(onlyDated, x) then [x] else [])
  }

  /** What one course adds to the run: nothing for a falsy id or a failed listing. */
  function CoursePlan(lib: Lib, onlyDated: bool, c: Value, assignmentsOf: Value -> Result<seq<Value>>): seq<Assignment> {
    var cid := Get(c, "id");
    if !Truthy(cid) then []
    else match assignmentsOf(cid)
      case Err(_) => []
      case Ok(assignments) => CourseRecords(lib, onlyDated, CourseName(lib, c), assignments)
  }

  /** The plans of the courses in turn, concatenated. */
  function PlanAll(courses: seq<Value>, plan: Value -> seq<Assignment>): seq<Assignment> {
    if courses == [] then []
    else
      var n := |courses| - 1;
      PlanAll(courses[..n], plan) + plan(courses[n])
  }

  function CoursePlans(lib: Lib, onlyDated: bool, assignmentsOf: Value -> Result<seq<Value>>): Value -> seq<Assignment> {
    c => CoursePlan(lib, onlyDated, c, assignmentsOf)
  }

  /** Every record `sync_once` upserts, course by course. */
  function Planned(lib: Lib, onlyDated: bool, courses: seq<Value>, assignmentsOf: Value -> Result<seq<Value>>): seq<Assignment> {
    PlanAll(courses, CoursePlans(lib, onlyDated, assignmentsOf))
  }

  /** Without the date filter, every assignment of a listed course is upserted, in order. */
  lemma {:induction false} EveryAssignmentWhenNotOnlyDated(lib: Lib, cname: Value, assignments: seq<Value>)
    ensures |CourseRecords(lib, false, cname, assignments)| == |assignments|
    ensures forall k :: 0 <= k < |assignments| ==>
      CourseRecords(lib, false, cname, assignments)[k] == NormalizeAssignment(lib, assignments[k], cname)
  {
    if assignments != [] {
      var n := |assignments| - 1;
      EveryAssignmentWhenNotOnlyDated(lib, cname, assignments[..n]);
    }
  }

  /** Under the date filter, an assignment is upserted exactly when it has a due date. */
  lemma DatedAssignmentsUpserted(lib: Lib, cname: Value, assignments: seq<Value>)
    ensures forall k :: 0 <= k < |assignments| && Truthy(Get(assignments[k], "due_at")) ==>
      NormalizeAssignment(lib, assignments[k], cname) in CourseRecords(lib, true, cname, assignments)
    ensures forall x :: x in CourseRecords(lib, true, cname, assignments) ==>
      exists k :: 0 <= k < |assignments| && Truthy(Get(assignments[k], "due_at")) && x == NormalizeAssignment(lib, assignments[k], cname)
  {
    DatedRecordsSelect(lib, cname, assignments);
    SelectMembers(assignments, Dated, Normalizer(lib, cname));
  }

  /** The assignments with a truthy `due_at`. */
  predicate Dated(a: Value) {
    Truthy(Get(a, "due_at"))
  }

  function Normalizer(lib: Lib, cname: Value): Value -> Assignment {
    a => NormalizeAssignment(lib, a, cname)
  }

  /** Under the date filter, a course's records are the normalised assignments that have a due date. */
  lemma {:induction false} DatedRecordsSelect(lib: Lib, cname: Value, assignments: seq<Value>)
    ensures CourseRecords(lib, true, cname, assignments) == Select(assignments, Dated, Normalizer(lib, cname))
  {
    if assignments != [] {
      var n := |assignments| - 1;
      DatedRecordsSelect(lib, cname, assignments[..n]);
    }
  }

  /** Under `onlyDated`, every record a course contributes has a due date. */
  lemma CourseRecordsDated(lib: Lib, cname: Value, assignments: seq<Value>)
    ensures forall x :: x in CourseRecords(lib, true, cname, assignments) ==> Truthy(x.dueAt)
  {
    DatedAssignmentsUpserted(lib, cname, assignments);
  }

  /** Under `onlyDated`, every upserted record has a due date. */
  lemma {:induction false} OnlyDatedUpsertsDated(lib: Lib, courses: seq<Value>, assignmentsOf: Value -> Result<seq<Value>>)
    ensures forall x :: x in Planned(lib, true, courses, assignmentsOf) ==> Truthy(x.dueAt)
  {
    if courses != [] {
      var n := |courses| - 1;
      var c := courses[n];
      OnlyDatedUpsertsDated(lib, courses[..n], assignmentsOf);
      assert Planned(lib, true, courses, assignmentsOf)
        == Planned(lib, true, courses[..n], assignmentsOf) + CoursePlan(lib, true, c, assignmentsOf);
      var cid := Get(c, "id");
      if Truthy(cid) && assignmentsOf(cid).Ok? {
        CourseRecordsDated(lib, CourseName(lib, c), assignmentsOf(cid).value);
      }
    }
  }

  /** Planning a concatenation concatenates the plans. */
  lemma {:induction false} PlanAllAppend(a: seq<Value>, b: seq<Value>, plan: Value -> seq<Assignment>)
    ensures PlanAll(a + b, plan) == PlanAll(a, plan) + PlanAll(b, plan)
    decreases |b|
  {
    if b == [] {
      assert a + b == a;
    } else {
      var n := |b| - 1;
      assert (a + b)[..|a + b| - 1] == a + b[..n];
      PlanAllAppend(a, b[..n], plan);
    }
  }

  /** Courses are independent: the plan for a concatenation is the concatenation of the plans. */
  lemma PlannedAppend(lib: Lib, onlyDated: bool, a: seq<Value>, b: seq<Value>, assignmentsOf: Value -> Result<seq<Value>>)
    ensures Planned(lib, onlyDated, a + b, assignmentsOf) == Planned(lib, onlyDated, a, assignmentsOf) + Planned(lib, onlyDated, b, assignmentsOf)
  {
    PlanAllAppend(a, b, CoursePlans(lib, onlyDated, assignmentsOf));
  }

  /** A course with a falsy id, or whose assignments cannot be listed, is skipped without disturbing the others. */
  lemma SkippedCourse(lib: Lib, onlyDated: bool, a: seq<Value>, c: Value, b: seq<Value>, assignmentsOf: Value -> Result<seq<Value>>)
    requires !Truthy(Get(c, "id")) || assignmentsOf(Get(c, "id")).Err?
    ensures Planned(lib, onlyDated, a + [c] + b, assignmentsOf) == Planned(lib, onlyDated, a + b, assignmentsOf)
  {
    PlannedAppend(lib, onlyDated, a + [c], b, assignmentsOf);
    PlannedAppend(lib, onlyDated, a, b, assignmentsOf);
    assert (a + [c])[..|a|] == a;
    assert Planned(lib, onlyDated, a, assignmentsOf) + [] == Planned(lib, onlyDated, a, assignmentsOf);
  }

  /** One more listed assignment adds its normalised record exactly when it passes the date filter. */
  lemma CourseRecordsStep(lib: Lib, onlyDated: bool, cname: Value, assignments: seq<Value>, j: nat)
    requires j < |assignments|
    ensures CourseRecords(lib, onlyDated, cname, assignments[..j + 1])
        == CourseRecords(lib, onlyDated, cname, assignments[..j]) + Admitted(lib, onlyDated, cname, assignments[j])
  {
    assert assignments[..j + 1][..j] == assignments[..j];
  }

  /** One more course adds its plan to the records planned so far. */
  lemma PlannedStep(lib: Lib, onlyDated: bool, courses: seq<Value>, i: nat, assignmentsOf: Value -> Result<seq<Value>>)
    requires i < |courses|
    ensures Planned(lib, onlyDated, courses[..i + 1], assignmentsOf)
      == Planned(lib, onlyDated, courses[..i], assignmentsOf) + CoursePlan(lib, onlyDated, courses[i], assignmentsOf)
  {
    assert courses[..i + 1][..i] == courses[..i];
  }

  /** The records one listed assignment turns into: its normalised record, unless the date filter drops it. */
  function Admitted(lib: Lib, onlyDated: bool, cname: Value, a: Value): (xs: seq<Assignment>)
    ensures |xs| <= 1
    ensures xs == [] <==> !PassesDateFilter(onlyDated, NormalizeAssignment(lib, a, cname))
    ensures xs != [] ==> xs[0] == NormalizeAssignment(lib, a, cname)
  {
    var x := NormalizeAssignment(lib, a, cname);
    if PassesDateFilter(onlyDated, x) then [x] else []
  }

  /**
   * One pass of the inner loop of `sync_once`: normalise the assignment and,
   * unless the date filter drops it, upsert it as call number `calls`,
   * catching a failure. Before the call the store was reached from `start`
   * by upserting `done`, one call each.
   */
  method UpsertListed(lib: Lib, cfg: Config, db: NotionDatabase, cname: Value, a: Value, faults: nat -> Fault, calls: nat,
                      ghost start: seq<Props>, ghost done: seq<Assignment>)
    returns (next: nat)
    requires db.pages == UpsertAll(start, cfg.schema, done, faults, 0) && calls == |done|
    modifies db
    ensures next == calls + |Admitted(lib, cfg.onlyDated, cname, a)|
    ensures db.pages == UpsertAll(start, cfg.schema, done + Admitted(lib, cfg.onlyDated, cname, a), faults, 0)
  {
    var x := NormalizeAssignment(lib, a, cname);
    if cfg.onlyDated && !Truthy(x.dueAt) {
      assert done + [] == done;
      return calls;
    }
    var _ := UpsertAssignment(db, cfg.schema, x, faults(calls));
    UpsertAllSnoc(start, cfg.schema, done, x, faults, 0);
    next := calls + 1;
  }

  /** The inner loop of `sync_once` for one course: each listed assignment in turn. */
  method UpsertCourse(lib: Lib, cfg: Config, db: NotionDatabase, cname: Value, assignments: seq<Value>,
                      faults: nat -> Fault, calls: nat, ghost start: seq<Props>, ghost done: seq<Assignment>)
    returns (next: nat)
    requires db.pages == UpsertAll(start, cfg.schema, done, faults, 0) && calls == |done|
    modifies db
    ensures next == calls + |CourseRecords(lib, cfg.onlyDated, cname, assignments)|
    ensures db.pages == UpsertAll(start, cfg.schema, done + CourseRecords(lib, cfg.onlyDated, cname, assignments), faults, 0)
  {
    var j := 0;
    next := calls;
    ghost var course: seq<Assignment> := [];
    assert assignments[..0] == [];
    assert done + [] == done;
    while j < |assignments|
      invariant 0 <= j <= |assignments|
      invariant course == CourseRecords(lib, cfg.onlyDated, cname, assignments[..j])
      invariant next == |done + course|
      invariant db.pages == UpsertAll(start, cfg.schema, done + course, faults, 0)
    {
      ghost var add := Admitted(lib, cfg.onlyDated, cname, assignments[j]);
      CourseRecordsStep(lib, cfg.onlyDated, cname, assignments, j);
      next := UpsertListed(lib, cfg, db, cname, assignments[j], faults, next, start, done + course);
      AppendAssoc(done, course, add);
      course := course + add;
      j := j + 1;
    }
    assert assignments[..j] == assignments;
  }

  /** One pass of the course loop of `sync_once`: skip a falsy id, skip a course whose assignments cannot be listed, upsert the rest. */
  method UpsertPlan(lib: Lib, cfg: Config, db: NotionDatabase, c: Value, assignmentsOf: Value -> Result<seq<Value>>,
                    faults: nat -> Fault, calls: nat, ghost start: seq<Props>, ghost done: seq<Assignment>)
    returns (next: nat)
    requires db.pages == UpsertAll(start, cfg.schema, done, faults, 0) && calls == |done|
    modifies db
    ensures next == calls + |CoursePlan(lib, cfg.onlyDated, c, assignmentsOf)|
    ensures db.pages == UpsertAll(start, cfg.schema, done + CoursePlan(lib, cfg.onlyDated, c, assignmentsOf), faults, 0)
  {
    var cid := Get(c, "id");
    var cname := CourseName(lib, c);
    if !Truthy(cid) {
      assert done + [] == done;
      return calls;
    }
    var listed := assignmentsOf(cid);
    if listed.Err? {
      assert done + [] == done;
      return calls;
    }
    next := UpsertCourse(lib, cfg, db, cname, listed.value, faults, calls, start, done);
  }

  /** The course loop of `sync_once`: the courses in turn, their upserts numbered from 0. */
  method UpsertCourses(lib: Lib, cfg: Config, db: NotionDatabase, courses: seq<Value>,
                       assignmentsOf: Value -> Result<seq<Value>>, faults: nat -> Fault)
    modifies db
    ensures db.pages == UpsertAll(old(db.pages), cfg.schema, Planned(lib, cfg.onlyDated, courses, assignmentsOf), faults, 0)
  {
    var i := 0;
    var calls := 0;
    ghost var start := db.pages;
    ghost var done: seq<Assignment> := [];
    assert courses[..0] == [];
    while i < |courses|
      invariant 0 <= i <= |courses|
      invariant done == Planned(lib, cfg.onlyDated, courses[..i], assignmentsOf)
      invariant calls == |done|
      invariant db.pages == UpsertAll(start, cfg.schema, done, faults, 0)
    {
      PlannedStep(lib, cfg.onlyDated, courses, i, assignmentsOf);
      calls := UpsertPlan(lib, cfg, db, courses[i], assignmentsOf, faults, calls, start, done);
      done := done + CoursePlan(lib, cfg.onlyDated, courses[i], assignmentsOf);
      i := i + 1;
    }
    assert courses[..i] == courses;
  }

  /**
   * `sync_once`: upsert every planned record into `db`, each failure
   * caught on its own, then write the digest to `master` unless listing
   * the digest's courses, fetching a course's materials or appending the
   * blocks fails. A failure to list the active courses aborts the run
   * before anything is written.
   */
  method SyncOnce(lib: Lib, cfg: Config, db: NotionDatabase, master: DigestPage, stamp: string,
                  activeCourses: Result<seq<Value>>, assignmentsOf: Value -> Result<seq<Value>>,
                  faults: nat -> Fault,
                  digestCourses: Result<seq<Value>>, fetch: Value -> Result<CourseMaterials>,
                  appendFault: Option<int>)
    returns (out: SyncOutcome)
    modifies db, master
    ensures activeCourses.Err? ==>
      out == Aborted(activeCourses.status) && db.pages == old(db.pages) && master.children == old(master.children)
    ensures activeCourses.Ok? ==>
      db.pages == UpsertAll(old(db.pages), cfg.schema, Planned(lib, cfg.onlyDated, activeCourses.value, assignmentsOf), faults, 0)
    ensures activeCourses.Ok? && digestCourses.Err? ==>
      out == Synced(Raised(digestCourses.status)) && master.children == old(master.children)
    ensures activeCourses.Ok? && digestCourses.Ok? ==>
      var blocks := DigestBlocks(lib, stamp, cfg.canvasBaseUrl, digestCourses.value, fetch);
      && (blocks.Ok? && appendFault.None? ==> out == Synced(Written) && master.children == old(master.children) + blocks.value)
      && (blocks.Ok? && appendFault.Some? ==> out == Synced(Raised(appendFault.value)) && master.children == old(master.children))
      && (blocks.Err? ==> out == Synced(Raised(blocks.status)) && master.children == old(master.children))
  {
    if activeCourses.Err? {
      return Aborted(activeCourses.status);
    }
    UpsertCourses(lib, cfg, db, activeCourses.value, assignmentsOf, faults);
    var digest: DigestOutcome;
    if digestCourses.Err? {
      digest := Raised(digestCourses.status);
    } else {
      digest := SummarizeIntrosAndSyllabi(lib, master, stamp, cfg.canvasBaseUrl, digestCourses.value, fetch, appendFault);
    }
    return Synced(digest);
  }
}
