/**
 * `paginate_canvas` (app.py): follow a Canvas listing from page to page
 * through the `rel="next"` entry of each response's `Link` header.
 *
 * The network is replaced by a script: `responses[k]` is what the server
 * answers to the k-th GET the loop issues.
 */
module Pagination {
  import opened Wrappers
  import opened Values
  import opened Text

  /** The token that marks the next page in a `Link` header. */
  const RelNext: string := "rel=\"next\""

  /** The URL inside one `Link` entry: `p[p.find("<") + 1 : p.find(">")]` with Python's slicing. */
  function LinkTarget(part: string): string {
    PySlice(part, Find(part, '<') + 1, Find(part, '>'))
  }

  /** The target of the first entry that contains `rel="next"`, if any. */
  function FirstNext(parts: seq<string>): Option<string> {
    if parts == [] then None
    else if Contains(parts[0], RelNext) then Some(LinkTarget(parts[0]))
    else FirstNext(parts[1..])
  }

  /** `FirstNext` is the `for ... if ... break` scan: the first matching entry wins. */
  lemma {:induction false} FirstNextSpec(parts: seq<string>)
    ensures FirstNext(parts).None? <==> forall k :: 0 <= k < |parts| ==> !Contains(parts[k], RelNext)
    ensures forall k :: FirstNextAt(parts, k) ==> FirstNext(parts) == Some(LinkTarget(parts[k]))
  {
    if parts != [] && !Contains(parts[0], RelNext) {
      FirstNextSpec(parts[1..]);
      forall k | FirstNextAt(parts, k) ensures FirstNext(parts) == Some(LinkTarget(parts[k])) {
        assert FirstNextAt(parts[1..], k - 1);
      }
    }
  }

  /** Entry `k` is the first that contains `rel="next"`. */
  predicate FirstNextAt(parts: seq<string>, k: int) {
    && 0 <= k < |parts|
    && Contains(parts[k], RelNext)
    && forall j :: 0 <= j < k ==> !Contains(parts[j], RelNext)
  }

  /** Each entry stripped of surrounding whitespace. */
  function StripAll(raw: seq<string>): (parts: seq<string>)
    ensures |parts| == |raw|
  {
    if raw == [] then [] else [Strip(raw[0])] + StripAll(raw[1..])
  }

  lemma {:induction false} StripAllAt(raw: seq<string>, k: nat)
    requires k < |raw|
    ensures StripAll(raw)[k] == Strip(raw[k])
  {
    if k > 0 {
      StripAllAt(raw[1..], k - 1);
    }
  }

  /** The entries of a `Link` header: `[p.strip() for p in link.split(",")]`. */
  function LinkParts(link: string): seq<string> {
    StripAll(Split(link, ','))
  }

  /** The next-page URL named by a `Link` header (absent header = ""). */
  function NextUrl(link: string): (r: Option<string>)
    ensures r.None? <==> link == "" || forall k :: 0 <= k < |LinkParts(link)| ==> !Contains(LinkParts(link)[k], RelNext)
    ensures forall k :: link != "" && FirstNextAt(LinkParts(link), k) ==> r == Some(LinkTarget(LinkParts(link)[k]))
  {
    FirstNextSpec(LinkParts(link));
    if link == "" then None else FirstNext(LinkParts(link))
  }

  /** The URL the loop continues with; `None` and "" both end the `while url` loop. */
  function NextTarget(link: string): (r: string)
    ensures r != "" ==> NextUrl(link) == Some(r)
    ensures NextUrl(link).None? ==> r == ""
    ensures NextUrl(link).Some? ==> r == NextUrl(link).value
  {
    match NextUrl(link)
    case None => ""
    case Some(u) => u
  }

  /** A header made of comma-free entries is read entry by entry; the first `rel="next"` entry wins. */
  lemma NextUrlOfEntries(entries: seq<string>, k: nat)
    requires |entries| >= 1
    requires forall j :: 0 <= j < |entries| ==> ',' !in entries[j]
    requires FirstNextAt(StripAll(entries), k)
    ensures NextUrl(Join(entries, ',')) == Some(LinkTarget(Strip(entries[k])))
  {
    SplitJoin(entries, ',');
    StripAllAt(entries, k);
    FirstNextSpec(StripAll(entries));
    JoinCovers(entries, ',', k);
  }

  /** Canvas's form of a next link, `<url>; rel="next"`. */
  function CanvasNextLink(url: string): string {
    "<" + url + ">; " + RelNext
  }

  lemma CanvasNextLinkShape(url: string)
    requires url != [] && ',' !in url && '<' !in url && '>' !in url
    ensures var e := CanvasNextLink(url);
      && ',' !in e && Strip(e) == e && Contains(e, RelNext) && LinkTarget(e) == url
  {
    var e := CanvasNextLink(url);
    assert e[|url| + 4..] == RelNext;
    assert StartsAt(e, |url| + 4, RelNext);
    StripUnpadded(e);
    LinkTargetBetweenBrackets(e, 0, |url| + 1);
    assert e[1..|url| + 1] == url;
  }

  /** `<url>; rel="next"` yields `url`. */
  lemma NextOfCanvasLink(url: string)
    requires url != [] && ',' !in url && '<' !in url && '>' !in url
    ensures NextTarget(CanvasNextLink(url)) == url
  {
    var e := CanvasNextLink(url);
    CanvasNextLinkShape(url);
    assert StripAll([e]) == [e];
    assert Join([e], ',') == e;
    NextUrlOfEntries([e], 0);
  }

  /** A header with no `rel="next"` entry ends the listing. */
  lemma NoNextEntry(link: string)
    requires forall k :: 0 <= k < |LinkParts(link)| ==> !Contains(LinkParts(link)[k], RelNext)
    ensures NextTarget(link) == ""
  {
    FirstNextSpec(LinkParts(link));
  }

  /** In a well-formed entry the URL is what lies between the first `<` and the first `>`. */
  lemma LinkTargetBetweenBrackets(part: string, a: nat, b: nat)
    requires a < b < |part|
    requires part[a] == '<' && '<' !in part[..a]
    requires part[b] == '>' && '>' !in part[..b]
    ensures LinkTarget(part) == part[a + 1..b]
  {
  }

  /** An entry without any `>`: Python's `p[start:-1]` drops the entry's last character. */
  lemma LinkTargetWithoutClosingBracket(part: string)
    requires |part| >= 1 && '<' !in part && '>' !in part
    ensures LinkTarget(part) == part[..|part| - 1]
  {
  }

  /** Query parameters of a request. */
  type Params = map<string, Value>

  datatype Request = Request(url: string, params: Params)

  /** A response: status code, decoded JSON body and the `Link` header ("" when absent). */
  datatype Response = Response(status: int, body: Value, link: string)

  /** `raise_for_status` raises for client and server errors. */
  predicate IsHttpError(status: int) {
    400 <= status < 600
  }

  /** What one page contributes: the elements of a list body, or the body itself. */
  function PageItems(body: Value): seq<Value> {
    if body.Arr? then body.elems else [body]
  }

  /** How a listing ended. */
  datatype Outcome =
    | Complete(items: seq<Value>)   // no next link: every item, in order
    | Failed(status: int)           // a page raised; `list(...)` of the generator keeps nothing
    | Unanswered                    // the script ran out while a next link was pending

  /** The requests a listing issued, and how it ended. */
  datatype Run = Run(sent: seq<Request>, outcome: Outcome)

  /** The rest of a run, after requests `sent` have contributed `items`. */
  function Continue(sent: seq<Request>, items: seq<Value>, rest: Run): Run {
    Run(sent + rest.sent, if rest.outcome.Complete? then Complete(items + rest.outcome.items) else rest.outcome)
  }

  lemma ContinueTwice(s1: seq<Request>, i1: seq<Value>, s2: seq<Request>, i2: seq<Value>, rest: Run)
    ensures Continue(s1, i1, Continue(s2, i2, rest)) == Continue(s1 + s2, i1 + i2, rest)
  {
    assert s1 + (s2 + rest.sent) == (s1 + s2) + rest.sent;
    if rest.outcome.Complete? {
      assert i1 + (i2 + rest.outcome.items) == (i1 + i2) + rest.outcome.items;
    }
  }

  /**
   * The listing that starts at `url` with `params`, against the scripted
   * `responses`; `follow` reads the next URL out of a `Link` header
   * (`NextTarget` in `paginate_canvas`).
   */
  function Paginate(url: string, params: Params, responses: seq<Response>, follow: string -> string): (r: Run)
    ensures |r.sent| <= |responses|
    ensures r.sent == [] <==> url == "" || responses == []
    ensures r.sent != [] ==> r.sent[0] == Request(url, params)
    decreases |responses|
  {
    if url == "" then Run([], Complete([]))
    else if responses == [] then Run([], Unanswered)
    else
      var r := responses[0];
      if IsHttpError(r.status) then Run([Request(url, params)], Failed(r.status))
      else Continue([Request(url, params)], PageItems(r.body), Paginate(follow(r.link), map[], responses[1..], follow))
  }

  /** The items of the first `n` pages, concatenated in order. */
  function Flatten(pages: seq<Response>): seq<Value> {
    if pages == [] then [] else Flatten(pages[..|pages| - 1]) + PageItems(pages[|pages| - 1].body)
  }

  lemma {:induction false} FlattenCons(r: Response, rest: seq<Response>)
    ensures Flatten([r] + rest) == PageItems(r.body) + Flatten(rest)
    decreases |rest|
  {
    if rest != [] {
      var all := [r] + rest;
      assert all[..|all| - 1] == [r] + rest[..|rest| - 1];
      FlattenCons(r, rest[..|rest| - 1]);
    } else {
      assert [r][..0] == [];
    }
  }

  /**
   * The caller's parameters go with the first request only; every later
   * request is the previous page's next link, with no parameters; the
   * listing stops at the first page that names no next page.
   */
  lemma {:induction false} PaginateRequests(url: string, params: Params, responses: seq<Response>, follow: string -> string)
    ensures var run := Paginate(url, params, responses, follow);
      && |run.sent| <= |responses|
      && (url == "" ==> run.sent == [])
      && (|run.sent| > 0 ==> run.sent[0] == Request(url, params))
      && (forall k :: 0 < k < |run.sent| ==> run.sent[k].params == map[])
      && (forall k :: 0 <= k < |run.sent| - 1 ==>
            !IsHttpError(responses[k].status) && run.sent[k + 1].url == follow(responses[k].link) != "")
      && (run.outcome.Failed? ==>
            |run.sent| >= 1 && IsHttpError(responses[|run.sent| - 1].status)
            && run.outcome.status == responses[|run.sent| - 1].status)
    decreases |responses|
  {
    if url != "" && responses != [] && !IsHttpError(responses[0].status) {
      var next := follow(responses[0].link);
      PaginateRequests(next, map[], responses[1..], follow);
      var rest := Paginate(next, map[], responses[1..], follow);
      var run := Paginate(url, params, responses, follow);
      assert run.sent == [Request(url, params)] + rest.sent;
      forall k | 0 < k < |run.sent| ensures run.sent[k].params == map[] {
        assert run.sent[k] == rest.sent[k - 1];
      }
      forall k | 0 <= k < |run.sent| - 1
        ensures !IsHttpError(responses[k].status) && run.sent[k + 1].url == follow(responses[k].link) != ""
      {
        if k > 0 {
          assert run.sent[k + 1] == rest.sent[k];
          assert responses[k] == responses[1..][k - 1];
        }
      }
      if run.outcome.Failed? {
        assert responses[|run.sent| - 1] == responses[1..][|rest.sent| - 1];
      }
    }
  }

  /**
   * A complete listing yields the items of every page it fetched, in
   * order: a list page its elements, any other page itself. The last page
   * fetched names no next page.
   */
  lemma {:induction false} PaginateItems(url: string, params: Params, responses: seq<Response>, follow: string -> string)
    ensures var run := Paginate(url, params, responses, follow);
      run.outcome.Complete? ==>
        && |run.sent| <= |responses|
        && run.outcome.items == Flatten(responses[..|run.sent|])
        && (|run.sent| > 0 ==> follow(responses[|run.sent| - 1].link) == "")
    decreases |responses|
  {
    if url == "" {
      assert responses[..0] == [];
    } else if responses != [] && !IsHttpError(responses[0].status) {
      var next := follow(responses[0].link);
      var rest := Paginate(next, map[], responses[1..], follow);
      assert responses[0..] == responses;
      PaginateStep(url, params, responses, 0, follow);
      if rest.outcome.Complete? {
        PaginateItems(next, map[], responses[1..], follow);
        var n := |rest.sent|;
        FlattenAfterFirst(responses, n);
        if n > 0 {
          assert responses[n] == responses[1..][n - 1];
        } else {
          NothingSentMeansNoUrl(next, map[], responses[1..], follow);
        }
      }
    }
  }

  /** The first `n + 1` pages are the first page, then `n` pages of the rest. */
  lemma FlattenAfterFirst(responses: seq<Response>, n: nat)
    requires n < |responses|
    ensures Flatten(responses[..n + 1]) == PageItems(responses[0].body) + Flatten(responses[1..][..n])
  {
    assert responses[..n + 1] == [responses[0]] + responses[1..][..n];
    FlattenCons(responses[0], responses[1..][..n]);
  }

  /** A listing that completes without a request had no URL to start from. */
  lemma NothingSentMeansNoUrl(url: string, params: Params, responses: seq<Response>, follow: string -> string)
    requires Paginate(url, params, responses, follow).sent == []
    requires Paginate(url, params, responses, follow).outcome.Complete?
    ensures url == ""
  {
  }

  /** A page that raises ends the listing with that request as its last. */
  lemma PaginateFails(u: string, ps: Params, responses: seq<Response>, k: nat, follow: string -> string)
    requires u != "" && k < |responses| && IsHttpError(responses[k].status)
    ensures Paginate(u, ps, responses[k..], follow) == Run([Request(u, ps)], Failed(responses[k].status))
  {
    assert responses[k..][0] == responses[k];
  }

  /** A page that does not raise contributes its items and hands over to its next link. */
  lemma PaginateStep(u: string, ps: Params, responses: seq<Response>, k: nat, follow: string -> string)
    requires u != "" && k < |responses| && !IsHttpError(responses[k].status)
    ensures Paginate(u, ps, responses[k..], follow)
      == Continue([Request(u, ps)], PageItems(responses[k].body), Paginate(follow(responses[k].link), map[], responses[k + 1..], follow))
  {
    assert responses[k..][0] == responses[k] && responses[k..][1..] == responses[k + 1..];
  }

  /**
   * The `while url` loop of `paginate_canvas`: one GET per page, `params`
   * reset to `{}` after the first, the next URL read by `follow`.
   */
  method FollowPages(url: string, params: Params, responses: seq<Response>, follow: string -> string) returns (run: Run)
    ensures run == Paginate(url, params, responses, follow)
  {
    var u, ps := url, params;
    var k := 0;
    var sent: seq<Request> := [];
    var items: seq<Value> := [];
    while u != ""
      invariant k <= |responses|
      invariant Paginate(url, params, responses, follow) == Continue(sent, items, Paginate(u, ps, responses[k..], follow))
      decreases |responses| - k
    {
      if k == |responses| {
        return Run(sent, Unanswered);
      }
      var r := responses[k];
      if IsHttpError(r.status) {
        PaginateFails(u, ps, responses, k, follow);
        return Run(sent + [Request(u, ps)], Failed(r.status));
      }
      PaginateStep(u, ps, responses, k, follow);
      ContinueTwice(sent, items, [Request(u, ps)], PageItems(r.body),
                    Paginate(follow(r.link), map[], responses[k + 1..], follow));
      sent := sent + [Request(u, ps)];
      items := items + PageItems(r.body);
      u := follow(r.link);
      ps := map[];
      k := k + 1;
    }
    run := Run(sent, Complete(items));
  }

  /** `paginate_canvas(url, params)` collected with `list(...)`, reading each `Link` header with `NextTarget`. */
  method PaginateCanvas(url: string, params: Params, responses: seq<Response>) returns (run: Run)
    ensures run == Paginate(url, params, responses, NextTarget)
  {
    run := FollowPages(url, params, responses, NextTarget);
  }

  /** Three linked pages: every item, in order, and the caller's parameters on the first request only. */
  lemma ThreeLinkedPages(params: Params, a: Value, b: Value, c: Value, d: Value)
    ensures var responses := [
        Response(200, Arr([a, b]), CanvasNextLink("p2")),
        Response(200, Arr([c]), CanvasNextLink("p3")),
        Response(200, Arr([d]), "")];
      Paginate("p1", params, responses, NextTarget) ==
        Run([Request("p1", params), Request("p2", map[]), Request("p3", map[])], Complete([a, b, c, d]))
  {
    NextOfCanvasLink("p2");
    NextOfCanvasLink("p3");
    assert NextTarget("") == "";
    ThreePagesFollowing(params, a, b, c, d, CanvasNextLink("p2"), CanvasNextLink("p3"), NextTarget);
  }

  lemma ThreePagesFollowing(params: Params, a: Value, b: Value, c: Value, d: Value,
                            l1: string, l2: string, follow: string -> string)
    requires follow(l1) == "p2" && follow(l2) == "p3" && follow("") == ""
    ensures var responses := [Response(200, Arr([a, b]), l1), Response(200, Arr([c]), l2), Response(200, Arr([d]), "")];
      Paginate("p1", params, responses, follow) ==
        Run([Request("p1", params), Request("p2", map[]), Request("p3", map[])], Complete([a, b, c, d]))
  {
    var r1, r2, r3 := Response(200, Arr([a, b]), l1), Response(200, Arr([c]), l2), Response(200, Arr([d]), "");
    assert [r1, r2, r3][1..] == [r2, r3] && [r2, r3][1..] == [r3] && [r3][1..] == [];
    assert Paginate("", map[], [], follow) == Run([], Complete([]));
    assert !IsHttpError(r3.status) && PageItems(r3.body) == [d] && follow(r3.link) == "";
    assert Paginate("p3", map[], [r3], follow) == Continue([Request("p3", map[])], [d], Paginate("", map[], [], follow));
    assert [Request("p3", map[])] + [] == [Request("p3", map[])] && [d] + [] == [d];
    assert Paginate("p3", map[], [r3], follow) == Run([Request("p3", map[])], Complete([d]));
    assert PageItems(r2.body) == [c] && follow(r2.link) == "p3";
    assert [Request("p2", map[])] + [Request("p3", map[])] == [Request("p2", map[]), Request("p3", map[])];
    assert [c] + [d] == [c, d];
    assert Paginate("p2", map[], [r2, r3], follow) == Run([Request("p2", map[]), Request("p3", map[])], Complete([c, d]));
    assert PageItems(r1.body) == [a, b] && follow(r1.link) == "p2";
    assert [Request("p1", params)] + [Request("p2", map[]), Request("p3", map[])] ==
      [Request("p1", params), Request("p2", map[]), Request("p3", map[])];
    assert [a, b] + [c, d] == [a, b, c, d];
  }
}
