/**
 * The Notion database the script writes assignments into, and
 * `upsert_assignment` (app.py) against it.
 *
 * The database is a sequence of pages, each a property map; a page's id is
 * its position. No page is ever deleted. A query lists matching pages in
 * store order, and `page_size: 1` keeps the first.
 */
module Notion {
  import opened Wrappers
  import opened Values
  import opened Canvas
  import opened Properties

  /** The page's Canvas ID property is the rich text `id`, which is what the query's filter tests. */
  predicate HasCanvasId(page: Props, key: string, id: string) {
    key in page && page[key] == RichText(Str(id))
  }

  /** The first page whose Canvas ID is `id`: `notion_query_by_canvas_id` with `page_size: 1`. */
  function FirstMatch(pages: seq<Props>, key: string, id: string): (r: Option<nat>)
    ensures r.None? <==> forall j :: 0 <= j < |pages| ==> !HasCanvasId(pages[j], key, id)
    ensures r.Some? ==> r.value < |pages| && HasCanvasId(pages[r.value], key, id)
    ensures r.Some? ==> forall j :: 0 <= j < r.value ==> !HasCanvasId(pages[j], key, id)
  {
    if pages == [] then None
    else if HasCanvasId(pages[0], key, id) then Some(0)
    else match FirstMatch(pages[1..], key, id)
      case None => None
      case Some(k) => Some(k + 1)
  }

  /** How many pages carry Canvas ID `id`. */
  function CountMatches(pages: seq<Props>, key: string, id: string): nat {
    if pages == [] then 0
    else (if HasCanvasId(pages[|pages| - 1], key, id) then 1 else 0) + CountMatches(pages[..|pages| - 1], key, id)
  }

  /** Where an HTTP call of an upsert fails, if one does. */
  datatype Fault = NoFault | QueryFails(status: int) | WriteFails(status: int)

  /** What an upsert did: the line it prints, or the error it raised. */
  datatype UpsertResult = Updated(page: nat) | Created(page: nat) | UpsertFailed(status: int)

  /** The store after `upsert_assignment(x)`, and what it did. */
  datatype Upserted = Upserted(pages: seq<Props>, result: UpsertResult)

  /**
   * `upsert_assignment(x)`: query by Canvas ID; update the first match
   * (Notion merges the given properties into the page) or create a page.
   */
  function Upsert(pages: seq<Props>, schema: Schema, x: Assignment, fault: Fault): (u: Upserted)
    ensures fault != NoFault ==> u.pages == pages && u.result.UpsertFailed?
    ensures u.result.Updated? ==>
      && FirstMatch(pages, schema.canvasId, x.id) == Some(u.result.page)
      && u.pages == pages[u.result.page := pages[u.result.page] + NotionProperties(schema, x)]
    ensures u.result.Created? ==>
      && FirstMatch(pages, schema.canvasId, x.id) == None
      && u.result.page == |pages| && u.pages == pages + [NotionProperties(schema, x)]
    ensures fault == NoFault ==> !u.result.UpsertFailed?
  {
    if fault.QueryFails? then Upserted(pages, UpsertFailed(fault.status))
    else
      var props := NotionProperties(schema, x);
      match FirstMatch(pages, schema.canvasId, x.id)
      case Some(i) =>
        if fault.WriteFails? then Upserted(pages, UpsertFailed(fault.status))
        else Upserted(pages[i := pages[i] + props], Updated(i))
      case None =>
        if fault.WriteFails? then Upserted(pages, UpsertFailed(fault.status))
        else Upserted(pages + [props], Created(|pages|))
  }

  lemma {:induction false} CountMatchesAppend(pages: seq<Props>, p: Props, key: string, id: string)
    ensures CountMatches(pages + [p], key, id) == CountMatches(pages, key, id) + (if HasCanvasId(p, key, id) then 1 else 0)
  {
    assert (pages + [p])[..|pages|] == pages;
  }

  lemma {:induction false} CountMatchesUpdate(pages: seq<Props>, i: nat, p: Props, key: string, id: string)
    requires i < |pages|
    requires HasCanvasId(pages[i], key, id) == HasCanvasId(p, key, id)
    ensures CountMatches(pages[i := p], key, id) == CountMatches(pages, key, id)
    decreases |pages|
  {
    var n := |pages| - 1;
    if i < n {
      assert pages[i := p][..n] == pages[..n][i := p];
      CountMatchesUpdate(pages[..n], i, p, key, id);
    } else {
      assert pages[i := p][..n] == pages[..n];
    }
  }

  lemma {:induction false} CountMatchesNone(pages: seq<Props>, key: string, id: string)
    requires forall j :: 0 <= j < |pages| ==> !HasCanvasId(pages[j], key, id)
    ensures CountMatches(pages, key, id) == 0
  {
    if pages != [] {
      CountMatchesNone(pages[..|pages| - 1], key, id);
    }
  }

  lemma {:induction false} CountMatchesSome(pages: seq<Props>, i: nat, key: string, id: string)
    requires i < |pages| && HasCanvasId(pages[i], key, id)
    ensures CountMatches(pages, key, id) >= 1
  {
    var n := |pages| - 1;
    if i < n {
      CountMatchesSome(pages[..n], i, key, id);
    }
  }

  /**
   * With distinct property names, a successful upsert leaves exactly one
   * page for its key when there was none, and leaves the count alone when
   * there was one or more.
   */
  lemma UpsertKeepsOnePage(pages: seq<Props>, schema: Schema, x: Assignment)
    requires Distinct(schema)
    ensures var after := Upsert(pages, schema, x, NoFault).pages;
      var before := CountMatches(pages, schema.canvasId, x.id);
      CountMatches(after, schema.canvasId, x.id) == if before == 0 then 1 else before
  {
    var key := schema.canvasId;
    var props := NotionProperties(schema, x);
    NotionPropertyValues(schema, x);
    assert HasCanvasId(props, key, x.id);
    match FirstMatch(pages, key, x.id)
    case Some(i) =>
      assert HasCanvasId(pages[i] + props, key, x.id);
      CountMatchesUpdate(pages, i, pages[i] + props, key, x.id);
      CountMatchesSome(pages, i, key, x.id);
    case None =>
      CountMatchesNone(pages, key, x.id);
      CountMatchesAppend(pages, props, key, x.id);
  }

  /** After a successful upsert, upserting the same key again updates and never creates. */
  lemma SecondUpsertUpdates(pages: seq<Props>, schema: Schema, x: Assignment, y: Assignment)
    requires Distinct(schema) && y.id == x.id
    ensures var once := Upsert(pages, schema, x, NoFault);
      var twice := Upsert(once.pages, schema, y, NoFault);
      twice.result.Updated? && |twice.pages| == |once.pages|
  {
    var once := Upsert(pages, schema, x, NoFault);
    var props := NotionProperties(schema, x);
    NotionPropertyValues(schema, x);
    var page := once.result.page;
    assert page < |once.pages| && HasCanvasId(once.pages[page], schema.canvasId, x.id);
  }

  /**
   * The state after applying `step` to each element of `xs` in order; the
   * element at position `k` is handled by call number `from + k`.
   */
  function Replay<S, X>(s: S, xs: seq<X>, step: (S, X, nat) -> S, from: nat): S
  {
    if xs == [] then s
    else
      var n := |xs| - 1;
      step(Replay(s, xs[..n], step, from), xs[n], from + n)
  }

  /** Replaying `xs + ys` is replaying `xs`, then `ys` from where it left off, numbering the calls on. */
  lemma {:induction false} ReplayAppend<S, X>(s: S, xs: seq<X>, ys: seq<X>, step: (S, X, nat) -> S, from: nat)
    ensures Replay(s, xs + ys, step, from) == Replay(Replay(s, xs, step, from), ys, step, from + |xs|)
    decreases |ys|
  {
    if ys == [] {
      assert xs + ys == xs;
    } else {
      var n := |ys| - 1;
      assert (xs + ys)[..|xs| + n] == xs + ys[..n];
      ReplayAppend(s, xs, ys[..n], step, from);
    }
  }

  /** One upsert as a step of a replay: call number `n` meets `faults(n)`. */
  function UpsertStep(schema: Schema, faults: nat -> Fault): (step: (seq<Props>, Assignment, nat) -> seq<Props>)
    ensures forall p, x, n :: step(p, x, n) == Upsert(p, schema, x, faults(n)).pages
  {
    (p: seq<Props>, x: Assignment, n: nat) => Upsert(p, schema, x, faults(n)).pages
  }

  /**
   * The store after upserting `xs` in order. The upserts are calls number
   * `from`, `from + 1`, ... of the run, and call `n` meets `faults(n)`.
   */
  function UpsertAll(pages: seq<Props>, schema: Schema, xs: seq<Assignment>, faults: nat -> Fault, from: nat): seq<Props>
  {
    Replay(pages, xs, UpsertStep(schema, faults), from)
  }

  /** Upserting one more record applies one more `Upsert` to the store, with the next call's fault. */
  lemma UpsertAllSnoc(pages: seq<Props>, schema: Schema, xs: seq<Assignment>, x: Assignment, faults: nat -> Fault, from: nat)
    ensures UpsertAll(pages, schema, xs + [x], faults, from)
      == Upsert(UpsertAll(pages, schema, xs, faults, from), schema, x, faults(from + |xs|)).pages
  {
    assert (xs + [x])[..|xs|] == xs;
  }

  /** Upserting never removes a page and adds at most one page per record. */
  lemma {:induction false} UpsertAllSize(pages: seq<Props>, schema: Schema, xs: seq<Assignment>, faults: nat -> Fault, from: nat)
    ensures |pages| <= |UpsertAll(pages, schema, xs, faults, from)| <= |pages| + |xs|
    decreases |xs|
  {
    if xs != [] {
      var n := |xs| - 1;
      assert xs[..n] + [xs[n]] == xs;
      UpsertAllSize(pages, schema, xs[..n], faults, from);
      UpsertAllSnoc(pages, schema, xs[..n], xs[n], faults, from);
    }
  }

  /** Upserting `xs + ys` is upserting `xs`, then `ys` into the result, numbering the calls on. */
  lemma UpsertAllAppend(pages: seq<Props>, schema: Schema, xs: seq<Assignment>, ys: seq<Assignment>,
                        faults: nat -> Fault, from: nat)
    ensures UpsertAll(pages, schema, xs + ys, faults, from)
      == UpsertAll(UpsertAll(pages, schema, xs, faults, from), schema, ys, faults, from + |xs|)
  {
    ReplayAppend(pages, xs, ys, UpsertStep(schema, faults), from);
  }

  /** A call whose upsert fails leaves the store as the calls before it left it. */
  lemma FailedUpsertChangesNothing(pages: seq<Props>, schema: Schema, xs: seq<Assignment>, x: Assignment,
                                   faults: nat -> Fault, from: nat)
    requires faults(from + |xs|) != NoFault
    ensures UpsertAll(pages, schema, xs + [x], faults, from) == UpsertAll(pages, schema, xs, faults, from)
  {
    UpsertAllSnoc(pages, schema, xs, x, faults, from);
  }

  /** Two equal records can fare differently: the first upsert may fail while the second succeeds. */
  lemma EqualRecordsFailIndependently(pages: seq<Props>, schema: Schema, x: Assignment, faults: nat -> Fault)
    requires Distinct(schema) && CountMatches(pages, schema.canvasId, x.id) == 0
    requires faults(0) != NoFault && faults(1) == NoFault
    ensures CountMatches(UpsertAll(pages, schema, [x, x], faults, 0), schema.canvasId, x.id) == 1
  {
    assert [x, x] == [x] + [x];
    assert [x] == [] + [x];
    FailedUpsertChangesNothing(pages, schema, [], x, faults, 0);
    UpsertAllSnoc(pages, schema, [x], x, faults, 0);
    UpsertKeepsOnePage(pages, schema, x);
  }

  /**
   * Starting with no page for a key, any positive number of successful
   * upserts of records with that key leaves exactly one page for it.
   */
  lemma {:induction false} RepeatedUpsertsLeaveOnePage(pages: seq<Props>, schema: Schema, xs: seq<Assignment>, id: string)
    requires Distinct(schema) && |xs| >= 1
    requires forall k :: 0 <= k < |xs| ==> xs[k].id == id
    requires CountMatches(pages, schema.canvasId, id) == 0
    ensures CountMatches(UpsertAll(pages, schema, xs, _ => NoFault, 0), schema.canvasId, id) == 1
  {
    var n := |xs| - 1;
    var before := UpsertAll(pages, schema, xs[..n], _ => NoFault, 0);
    if n > 0 {
      RepeatedUpsertsLeaveOnePage(pages, schema, xs[..n], id);
    }
    UpsertKeepsOnePage(before, schema, xs[n]);
  }

  /** The destination database. */
  class NotionDatabase {
    var pages: seq<Props>

    constructor (initial: seq<Props>)
      ensures pages == initial
    {
      pages := initial;
    }

    /** `notion_query_by_canvas_id`: the first page whose Canvas ID property is `id`. */
    function QueryByCanvasId(key: string, id: string): (r: Option<nat>)
      reads this
      ensures r.None? <==> forall j :: 0 <= j < |pages| ==> !HasCanvasId(pages[j], key, id)
      ensures r.Some? ==> r.value < |pages| && HasCanvasId(pages[r.value], key, id)
      ensures r.Some? ==> forall j :: 0 <= j < r.value ==> !HasCanvasId(pages[j], key, id)
    {
      FirstMatch(pages, key, id)
    }

    /** `notion_update_page`: merge `props` into page `page`. */
    method UpdatePage(page: nat, props: Props)
      requires page < |pages|
      modifies this
      ensures pages == old(pages)[page := old(pages)[page] + props]
    {
      pages := pages[page := pages[page] + props];
    }

    /** `notion_create_page`: add a page with `props`. */
    method CreatePage(props: Props) returns (page: nat)
      modifies this
      ensures page == |old(pages)| && pages == old(pages) + [props]
    {
      page := |pages|;
      pages := pages + [props];
    }
  }

  /** `upsert_assignment(x)` against `db`; `fault` says which HTTP call, if any, raises. */
  method UpsertAssignment(db: NotionDatabase, schema: Schema, x: Assignment, fault: Fault) returns (r: UpsertResult)
    modifies db
    ensures db.pages == Upsert(old(db.pages), schema, x, fault).pages
    ensures r == Upsert(old(db.pages), schema, x, fault).result
  {
    if fault.QueryFails? {
      return UpsertFailed(fault.status);
    }
    var results := db.QueryByCanvasId(schema.canvasId, x.id);
    var props := BuildNotionProperties(schema, x);
    if fault.WriteFails? {
      return UpsertFailed(fault.status);
    }
    if results.Some? {
      db.UpdatePage(results.value, props);
      r := Updated(results.value);
    } else {
      var page := db.CreatePage(props);
      r := Created(page);
    }
  }
}
