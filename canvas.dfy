/**
 * Canvas records as `app.py` reads them: `normalize_assignment` and the
 * course-name fallback used by `sync_once` and the digest.
 */
module Canvas {
  import opened Values

  /** The canonical assignment record `normalize_assignment` returns. */
  datatype Assignment = Assignment(
    id: string,
    name: Value,
    dueAt: Value,
    url: Value,
    points: Value,
    course: Value,
    published: Value,
    workflowState: Value)

  /** `normalize_assignment(a, course_name)`. */
  function NormalizeAssignment(lib: Lib, a: Value, courseName: Value): (x: Assignment)
    ensures x.id == StrOf(lib, Get(a, "id"))
    ensures Truthy(x.name)
    ensures Truthy(Get(a, "name")) ==> x.name == Get(a, "name")
    ensures !Truthy(Get(a, "name")) ==> x.name == Str("Assignment " + x.id)
    ensures !(a.Obj? && "published" in a.fields) ==> x.published == Bool(true)
    ensures a.Obj? && "published" in a.fields ==> x.published == a.fields["published"]
    ensures x.dueAt == Get(a, "due_at") && x.url == Get(a, "html_url") && x.points == Get(a, "points_possible")
    ensures x.workflowState == Get(a, "workflow_state") && x.course == courseName
  {
    var id := StrOf(lib, Get(a, "id"));
    Assignment(
      id,
      Or(Get(a, "name"), Str("Assignment " + id)),
      Get(a, "due_at"),
      Get(a, "html_url"),
      Get(a, "points_possible"),
      courseName,
      GetOr(a, "published", Bool(true)),
      Get(a, "workflow_state"))
  }

  /** Assignments with different integer ids get different identity keys. */
  lemma DistinctIdsDistinctKeys(lib: Lib, a: Value, b: Value, course: Value, m: int, n: int)
    requires Get(a, "id") == Int(m) && Get(b, "id") == Int(n) && m != n
    ensures NormalizeAssignment(lib, a, course).id != NormalizeAssignment(lib, b, course).id
  {
    if IntToDecimal(m) == IntToDecimal(n) {
      IntToDecimalInjective(m, n);
    }
  }

  /** A record without a name is labelled with its id. */
  lemma UnnamedAssignment(lib: Lib, course: Value)
    ensures NormalizeAssignment(lib, Obj(map["id" := Int(42)]), course).name == Str("Assignment 42")
  {
    assert NatToDecimal(42) == "42";
  }

  /** `c.get("name") or f"Course {cid}"`. */
  function CourseName(lib: Lib, c: Value): (name: Value)
    ensures Truthy(name)
    ensures Truthy(Get(c, "name")) ==> name == Get(c, "name")
    ensures !Truthy(Get(c, "name")) ==> name == Str("Course " + StrOf(lib, Get(c, "id")))
  {
    Or(Get(c, "name"), Str("Course " + StrOf(lib, Get(c, "id"))))
  }
}
