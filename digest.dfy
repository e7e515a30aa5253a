/**
 * The "Syllabi & Start Here" digest (app.py): `find_syllabus_files`,
 * `get_modules_and_items`, the `bullet`/`heading` block builders and
 * `summarize_intros_and_syllabi`.
 *
 * What Canvas returns for a course is an input (`CourseMaterials`); the
 * HTTP calls that fetch it are replaced by a function from course id to
 * either the materials or the status of the first request that failed.
 */
module Digest {
  import opened Wrappers
  import opened Values
  import opened Text
  import opened Classify
  import opened Canvas

  /** A Notion block as the digest writes it: a level-2 heading, or a bullet whose text may carry a link. */
  datatype Block = Heading(text: string) | Bullet(text: string, link: Option<string>)

  /** Python's `s or default` for a string that may be `None`. */
  function TextOr(s: Option<string>, default: string): (r: string)
    ensures s.Some? && s.value != "" ==> r == s.value
    ensures !(s.Some? && s.value != "") ==> r == default
    ensures r == "" <==> (s.None? || s.value == "") && default == ""
  {
    if s.Some? && s.value != "" then s.value else default
  }

  /** Python's `a or b` for two strings that may be `None`. */
  function OptOr(a: Option<string>, b: Option<string>): (r: Option<string>)
    ensures a.Some? && a.value != "" ==> r == a
    ensures !(a.Some? && a.value != "") ==> r == b
    ensures (r.Some? && r.value != "") <==> (a.Some? && a.value != "") || (b.Some? && b.value != "")
  {
    if a.Some? && a.value != "" then a else b
  }

  /** `bullet(text, href)`: the link is attached exactly when `href` is truthy. */
  function BulletBlock(text: string, href: Option<string>): (b: Block)
    ensures b.Bullet? && b.text == text
    ensures b.link.Some? <==> href.Some? && href.value != ""
    ensures b.link.Some? ==> b.link == href
  {
    if href.Some? && href.value != "" then Bullet(text, href) else Bullet(text, None)
  }

  /** The separator the digest puts between a label and a preview, U+2014. */
  const Dash: string := " \U{2014} "

  /** `heading(f"Sync run — {stamp}")`; the timestamp is an input. */
  function RunHeading(stamp: string): (b: Block)
    ensures b.Heading? && |b.text| > |stamp| && b.text[|b.text| - |stamp|..] == stamp
  {
    Heading("Sync run" + Dash + stamp)
  }

  // ---------------------------------------------------------------------
  // Course material as fetched from Canvas
  // ---------------------------------------------------------------------

  /** One wiki page with its body, as `get_pages_with_bodies` returns it. */
  datatype PageWithBody = PageWithBody(title: string, html: Option<string>, webUrl: Option<string>)

  /** A module item as listed by Canvas. */
  datatype CanvasModuleItem = CanvasModuleItem(title: Option<string>, htmlUrl: Option<string>,
                                               externalUrl: Option<string>, kind: Option<string>)

  /** A module with its items (each module's item listing is already paginated). */
  datatype CanvasModule = CanvasModule(name: Option<string>, items: seq<CanvasModuleItem>)

  /** A record of `get_modules_and_items`'s result. */
  datatype ModuleEntry = ModuleEntry(moduleName: Option<string>, title: string, webUrl: Option<string>, kind: Option<string>)

  /** A file as listed by Canvas' file search. */
  datatype CanvasFile = CanvasFile(displayName: Option<string>, filename: Option<string>, url: Option<string>)

  /** A record of `find_syllabus_files`'s result. */
  datatype FileEntry = FileEntry(title: string, webUrl: Option<string>)

  /** Everything the digest reads for one course. */
  datatype CourseMaterials = CourseMaterials(
    syllabusBody: Option<string>,
    pages: seq<PageWithBody>,
    modules: seq<CanvasModule>,
    files: seq<CanvasFile>)

  // ---------------------------------------------------------------------
  // Collecting loops
  // ---------------------------------------------------------------------

  /** `[f(x) for x in xs if keep(x)]`: what each collecting loop of the digest builds. */
  function Select<T, U>(xs: seq<T>, keep: T -> bool, f: T -> U): (ys: seq<U>)
    ensures |ys| <= |xs|
  {
    if xs == [] then []
    else
      var x := xs[|xs| - 1];
      Select(xs[..|xs| - 1], keep, f) + (if keep(x) then [f(x)] else [])
  }

  /** Selecting from a concatenation concatenates the selections: order is kept. */
  lemma {:induction false} SelectAppend<T, U>(a: seq<T>, b: seq<T>, keep: T -> bool, f: T -> U)
    ensures Select(a + b, keep, f) == Select(a, keep, f) + Select(b, keep, f)
    decreases |b|
  {
    if b == [] {
      assert a + b == a;
    } else {
      var n := |b| - 1;
      assert (a + b)[..|a + b| - 1] == a + b[..n];
      SelectAppend(a, b[..n], keep, f);
    }
  }

  /** Every element that passes contributes its image, and every image comes from an element that passes. */
  lemma {:induction false} SelectMembers<T, U>(xs: seq<T>, keep: T -> bool, f: T -> U)
    ensures forall k :: 0 <= k < |xs| && keep(xs[k]) ==> f(xs[k]) in Select(xs, keep, f)
    ensures forall y :: y in Select(xs, keep, f) ==> exists k :: 0 <= k < |xs| && keep(xs[k]) && y == f(xs[k])
  {
    if xs != [] {
      var n := |xs| - 1;
      SelectMembers(xs[..n], keep, f);
      assert forall k :: 0 <= k < n ==> xs[..n][k] == xs[k];
    }
  }

  /** When every element passes, the selection is the element-wise image. */
  lemma {:induction false} SelectAll<T, U>(xs: seq<T>, keep: T -> bool, f: T -> U)
    requires forall k :: 0 <= k < |xs| ==> keep(xs[k])
    ensures |Select(xs, keep, f)| == |xs|
    ensures forall k :: 0 <= k < |xs| ==> Select(xs, keep, f)[k] == f(xs[k])
  {
    if xs != [] {
      var n := |xs| - 1;
      SelectAll(xs[..n], keep, f);
    }
  }

  /** The loop that builds `Select(xs, keep, f)` by appending. */
  method Collect<T, U>(xs: seq<T>, keep: T -> bool, f: T -> U) returns (ys: seq<U>)
    ensures ys == Select(xs, keep, f)
  {
    ys := [];
    var i := 0;
    while i < |xs|
      invariant 0 <= i <= |xs|
      invariant ys == Select(xs[..i], keep, f)
    {
      assert xs[..i + 1][..i] == xs[..i];
      if keep(xs[i]) {
        ys := ys + [f(xs[i])];
      }
      i := i + 1;
    }
    assert xs[..i] == xs;
  }

  // ---------------------------------------------------------------------
  // find_syllabus_files
  // ---------------------------------------------------------------------

  /** `f.get("display_name") or f.get("filename") or ""`. */
  function FileName(f: CanvasFile): string {
    TextOr(f.displayName, TextOr(f.filename, ""))
  }

  /** A file is kept when its name looks like a syllabus or its lower-cased name ends in a kept extension. */
  predicate KeepFile(lib: Lib, name: string) {
    LooksLikeSyllabus(lib, name) || HasKeptExtension(Lower(name))
  }

  /** `name` ends in `.pdf`, `.doc` or `.docx`. */
  predicate HasKeptExtension(name: string) {
    EndsWith(name, ".pdf") || EndsWith(name, ".doc") || EndsWith(name, ".docx")
  }

  function FileEntryOf(f: CanvasFile): FileEntry {
    FileEntry(FileName(f), f.url)
  }

  /** The test `find_syllabus_files` applies to each listed file. */
  function FileFilter(lib: Lib): CanvasFile -> bool {
    f => KeepFile(lib, FileName(f))
  }

  /** The files `find_syllabus_files` keeps, in listing order. */
  function SyllabusFiles(lib: Lib, files: seq<CanvasFile>): (r: seq<FileEntry>)
    ensures |r| <= |files|
  {
    Select(files, FileFilter(lib), FileEntryOf)
  }

  /** A file is in the result exactly when it passes the test, and the result keeps listing order. */
  lemma SyllabusFilesMembers(lib: Lib, a: seq<CanvasFile>, b: seq<CanvasFile>)
    ensures forall k :: 0 <= k < |a| && KeepFile(lib, FileName(a[k])) ==> FileEntryOf(a[k]) in SyllabusFiles(lib, a)
    ensures forall e :: e in SyllabusFiles(lib, a) ==>
      exists k :: 0 <= k < |a| && KeepFile(lib, FileName(a[k])) && e == FileEntryOf(a[k])
    ensures SyllabusFiles(lib, a + b) == SyllabusFiles(lib, a) + SyllabusFiles(lib, b)
  {
    SelectMembers(a, FileFilter(lib), FileEntryOf);
    SelectAppend(a, b, FileFilter(lib), FileEntryOf);
  }

  /** A file without a display name that has a Word extension is kept under its file name. */
  lemma WordFileKept(lib: Lib, url: Option<string>)
    ensures SyllabusFiles(lib, [CanvasFile(None, Some("Week1.DOCX"), url)]) == [FileEntry("Week1.DOCX", url)]
  {
    var f := CanvasFile(None, Some("Week1.DOCX"), url);
    assert [f][..0] == [];
    assert Lower("Week1.DOCX") == "week1.docx";
    assert EndsWith("week1.docx", ".docx");
    assert FileFilter(lib)(f);
  }

  /** `find_syllabus_files`' loop over the listing. */
  method FindSyllabusFiles(lib: Lib, files: seq<CanvasFile>) returns (out: seq<FileEntry>)
    ensures out == SyllabusFiles(lib, files)
  {
    out := Collect(files, FileFilter(lib), FileEntryOf);
  }

  // ---------------------------------------------------------------------
  // get_modules_and_items
  // ---------------------------------------------------------------------

  /** One item as `get_modules_and_items` records it: `web_url` is `html_url or external_url`. */
  function EntryOf(m: CanvasModule, it: CanvasModuleItem): ModuleEntry {
    ModuleEntry(m.name, TextOr(it.title, ""), OptOr(it.htmlUrl, it.externalUrl), it.kind)
  }

  /** The entries of one module's items, in order. */
  function ModuleEntries(m: CanvasModule, items: seq<CanvasModuleItem>): (es: seq<ModuleEntry>)
    ensures |es| == |items|
    ensures forall k :: 0 <= k < |items| ==> es[k] == EntryOf(m, items[k])
  {
    if items == [] then []
    else ModuleEntries(m, items[..|items| - 1]) + [EntryOf(m, items[|items| - 1])]
  }

  /** The items of every module, module by module. */
  function ModuleItems(modules: seq<CanvasModule>): seq<ModuleEntry> {
    if modules == [] then []
    else
      var m := modules[|modules| - 1];
      ModuleItems(modules[..|modules| - 1]) + ModuleEntries(m, m.items)
  }

  /** Collecting the modules of a concatenation concatenates the collections. */
  lemma {:induction false} ModuleItemsAppend(a: seq<CanvasModule>, b: seq<CanvasModule>)
    ensures ModuleItems(a + b) == ModuleItems(a) + ModuleItems(b)
    decreases |b|
  {
    if b == [] {
      assert a + b == a;
    } else {
      var n, m := |b| - 1, b[|b| - 1];
      assert (a + b)[..|a + b| - 1] == a + b[..n];
      assert (a + b)[|a + b| - 1] == m;
      ModuleItemsAppend(a, b[..n]);
      AppendAssoc(ModuleItems(a), ModuleItems(b[..n]), ModuleEntries(m, m.items));
    }
  }

  /** Every item of every module yields one entry, labelled with its module's name. */
  lemma {:induction false} ModuleItemsCount(modules: seq<CanvasModule>)
    ensures |ModuleItems(modules)| == ItemCount(modules)
    ensures forall e :: e in ModuleItems(modules) ==> exists k :: 0 <= k < |modules| && e.moduleName == modules[k].name
  {
    if modules != [] {
      var n := |modules| - 1;
      var m := modules[n];
      ModuleItemsCount(modules[..n]);
      assert forall k :: 0 <= k < n ==> modules[..n][k] == modules[k];
      forall e | e in ModuleEntries(m, m.items) ensures e.moduleName == modules[n].name {
        var j :| 0 <= j < |m.items| && ModuleEntries(m, m.items)[j] == e;
      }
    }
  }

  /** How many items the modules hold together. */
  function ItemCount(modules: seq<CanvasModule>): nat {
    if modules == [] then 0 else ItemCount(modules[..|modules| - 1]) + |modules[|modules| - 1].items|
  }

  /** `get_modules_and_items`' nested loop. */
  method CollectModuleItems(modules: seq<CanvasModule>) returns (items: seq<ModuleEntry>)
    ensures items == ModuleItems(modules)
  {
    items := [];
    var i := 0;
    while i < |modules|
      invariant 0 <= i <= |modules|
      invariant items == ModuleItems(modules[..i])
    {
      var m := modules[i];
      assert modules[..i + 1][..i] == modules[..i];
      var j := 0;
      ghost var before := items;
      while j < |m.items|
        invariant 0 <= j <= |m.items|
        invariant items == before + ModuleEntries(m, m.items[..j])
      {
        var it := m.items[j];
        assert m.items[..j + 1][..j] == m.items[..j];
        items := items + [ModuleEntry(m.name, TextOr(it.title, ""), OptOr(it.htmlUrl, it.externalUrl), it.kind)];
        j := j + 1;
      }
      assert m.items[..j] == m.items;
      i := i + 1;
    }
    assert modules[..i] == modules;
  }

  // ---------------------------------------------------------------------
  // Blocks for one course
  // ---------------------------------------------------------------------

  /** How long a preview in the digest may be. */
  const PreviewLimit: nat := 120

  /** The syllabus bullet, present when the course has a non-empty syllabus body. */
  function SyllabusBlocks(lib: Lib, base: string, cname: string, cid: Value, body: Option<string>): (bs: seq<Block>)
    ensures |bs| <= 1
    ensures bs != [] <==> body.Some? && body.value != ""
    ensures bs != [] ==> bs[0] == Bullet("[Syllabus] " + cname + Dash + PlainTextPreview(lib, body, PreviewLimit),
                                          Some(base + "/courses/" + StrOf(lib, cid) + "/assignments/syllabus"))
  {
    if body.Some? && body.value != "" then
      [BulletBlock("[Syllabus] " + cname + Dash + PlainTextPreview(lib, body, PreviewLimit),
                   Some(base + "/courses/" + StrOf(lib, cid) + "/assignments/syllabus"))]
    else []
  }

  /** A page is listed when its title looks like orientation or like a syllabus. */
  predicate ListPage(lib: Lib, p: PageWithBody) {
    LooksLikeOrientation(lib, p.title) || LooksLikeSyllabus(lib, p.title)
  }

  function PageFilter(lib: Lib): PageWithBody -> bool {
    p => ListPage(lib, p)
  }

  /** `[Page] {cname}: {title} — {preview}`, linked to the page. */
  function PageBullet(lib: Lib, cname: string, p: PageWithBody): Block {
    BulletBlock("[Page] " + cname + ": " + p.title + Dash + PlainTextPreview(lib, p.html, PreviewLimit), p.webUrl)
  }

  function PageBulletOf(lib: Lib, cname: string): PageWithBody -> Block {
    p => PageBullet(lib, cname, p)
  }

  /** The bullets for the listed pages, in page order. */
  function PageBlocks(lib: Lib, cname: string, pages: seq<PageWithBody>): seq<Block> {
    Select(pages, PageFilter(lib), PageBulletOf(lib, cname))
  }

  /** An item is listed when its title looks like orientation or a syllabus, or its module's name looks like orientation. */
  predicate ListItem(lib: Lib, it: ModuleEntry) {
    LooksLikeOrientation(lib, it.title) || LooksLikeSyllabus(lib, it.title) || LooksLikeOrientation(lib, TextOr(it.moduleName, ""))
  }

  function ItemFilter(lib: Lib): ModuleEntry -> bool {
    it => ListItem(lib, it)
  }

  /** `[Module] {cname}: {title}`, linked to the item. */
  function ItemBullet(cname: string, it: ModuleEntry): Block {
    BulletBlock("[Module] " + cname + ": " + it.title, it.webUrl)
  }

  function ItemBulletOf(cname: string): ModuleEntry -> Block {
    it => ItemBullet(cname, it)
  }

  /** The bullets for the listed module items, in order. */
  function ItemBlocks(lib: Lib, cname: string, items: seq<ModuleEntry>): seq<Block> {
    Select(items, ItemFilter(lib), ItemBulletOf(cname))
  }

  /** Every kept file is listed. */
  function EveryFile(): FileEntry -> bool {
    f => true
  }

  /** `[File] {cname}: {title}`, linked to the file. */
  function FileBullet(cname: string, f: FileEntry): Block {
    BulletBlock("[File] " + cname + ": " + f.title, f.webUrl)
  }

  function FileBulletOf(cname: string): FileEntry -> Block {
    f => FileBullet(cname, f)
  }

  /** One bullet per kept file, in order. */
  function FileBlocks(cname: string, files: seq<FileEntry>): seq<Block> {
    Select(files, EveryFile(), FileBulletOf(cname))
  }

  /** The bullets one course contributes: syllabus, then pages, then module items, then files. */
  function CourseBlocks(lib: Lib, base: string, cname: string, cid: Value, m: CourseMaterials): seq<Block> {
    SyllabusBlocks(lib, base, cname, cid, m.syllabusBody)
      + PageBlocks(lib, cname, m.pages)
      + ItemBlocks(lib, cname, ModuleItems(m.modules))
      + FileBlocks(cname, SyllabusFiles(lib, m.files))
  }

  /** A page gets a bullet exactly when its title is listed, and every page bullet is such a page's. */
  lemma PageBlocksMembers(lib: Lib, cname: string, pages: seq<PageWithBody>)
    ensures forall k :: 0 <= k < |pages| && ListPage(lib, pages[k]) ==> PageBullet(lib, cname, pages[k]) in PageBlocks(lib, cname, pages)
    ensures forall b :: b in PageBlocks(lib, cname, pages) ==>
      exists k :: 0 <= k < |pages| && ListPage(lib, pages[k]) && b == PageBullet(lib, cname, pages[k])
  {
    SelectMembers(pages, PageFilter(lib), PageBulletOf(lib, cname));
  }

  /** A module item gets a bullet exactly when it is listed, and every module bullet is such an item's. */
  lemma ItemBlocksMembers(lib: Lib, cname: string, items: seq<ModuleEntry>)
    ensures forall k :: 0 <= k < |items| && ListItem(lib, items[k]) ==> ItemBullet(cname, items[k]) in ItemBlocks(lib, cname, items)
    ensures forall b :: b in ItemBlocks(lib, cname, items) ==>
      exists k :: 0 <= k < |items| && ListItem(lib, items[k]) && b == ItemBullet(cname, items[k])
  {
    SelectMembers(items, ItemFilter(lib), ItemBulletOf(cname));
  }

  /** Every kept file gets exactly one bullet, in order. */
  lemma FileBlocksOnePerFile(cname: string, files: seq<FileEntry>)
    ensures |FileBlocks(cname, files)| == |files|
    ensures forall k :: 0 <= k < |files| ==> FileBlocks(cname, files)[k] == FileBullet(cname, files[k])
  {
    SelectAll(files, EveryFile(), FileBulletOf(cname));
  }

  /** A course contributes bullets only, never a heading. */
  lemma CourseBlocksAreBullets(lib: Lib, base: string, cname: string, cid: Value, m: CourseMaterials)
    ensures forall b :: b in CourseBlocks(lib, base, cname, cid, m) ==> b.Bullet?
  {
    PageBlocksMembers(lib, cname, m.pages);
    ItemBlocksMembers(lib, cname, ModuleItems(m.modules));
    var files := SyllabusFiles(lib, m.files);
    FileBlocksOnePerFile(cname, files);
    forall b | b in FileBlocks(cname, files) ensures b.Bullet? {
      var k :| 0 <= k < |files| && FileBlocks(cname, files)[k] == b;
    }
  }

  // ---------------------------------------------------------------------
  // summarize_intros_and_syllabi
  // ---------------------------------------------------------------------

  /** What one course of the listing adds: nothing for a falsy id, its bullets, or the failed request's status. */
  function CourseStep(lib: Lib, base: string, c: Value, fetch: Value -> Result<CourseMaterials>): Result<seq<Block>> {
    var cid := Get(c, "id");
    if !Truthy(cid) then Ok([])
    else match fetch(cid)
      case Err(status) => Err(status)
      case Ok(m) => Ok(CourseBlocks(lib, base, StrOf(lib, CourseName(lib, c)), cid, m))
  }

  /** Sequencing of two steps: the first failure wins, otherwise the bullets concatenate. */
  function Then(a: Result<seq<Block>>, b: Result<seq<Block>>): (r: Result<seq<Block>>)
    ensures a.Err? ==> r == a
    ensures a.Ok? && b.Err? ==> r == b
    ensures a.Ok? && b.Ok? ==> r == Ok(a.value + b.value)
    ensures r.Ok? <==> a.Ok? && b.Ok?
    ensures r.Ok? ==> |r.value| == |a.value| + |b.value|
  {
    if a.Err? then a else if b.Err? then b else Ok(a.value + b.value)
  }

  /** Running `step` on each course in turn: the first failure wins, otherwise the bullets concatenate. */
  function Steps(courses: seq<Value>, step: Value -> Result<seq<Block>>): Result<seq<Block>> {
    if courses == [] then Ok([])
    else
      var n := |courses| - 1;
      Then(Steps(courses[..n], step), step(courses[n]))
  }

  function CourseSteps(lib: Lib, base: string, fetch: Value -> Result<CourseMaterials>): Value -> Result<seq<Block>> {
    c => CourseStep(lib, base, c, fetch)
  }

  /** The bullets for a course listing, or the status of the first request that failed. */
  function CoursesBlocks(lib: Lib, base: string, courses: seq<Value>, fetch: Value -> Result<CourseMaterials>): Result<seq<Block>> {
    Steps(courses, CourseSteps(lib, base, fetch))
  }

  /** The whole list `summarize_intros_and_syllabi` appends: the run heading, then every course's bullets. */
  function DigestBlocks(lib: Lib, stamp: string, base: string, courses: seq<Value>, fetch: Value -> Result<CourseMaterials>): (r: Result<seq<Block>>)
    ensures r.Err? <==> CoursesBlocks(lib, base, courses, fetch).Err?
    ensures r.Err? ==> r.status == CoursesBlocks(lib, base, courses, fetch).status
    ensures r.Ok? ==> |r.value| >= 1 && r.value[0] == RunHeading(stamp)
  {
    match CoursesBlocks(lib, base, courses, fetch)
    case Err(status) => Err(status)
    case Ok(bs) => Ok([RunHeading(stamp)] + bs)
  }

  /** The courses contribute bullets only. */
  lemma {:induction false} CoursesBlocksAreBullets(lib: Lib, base: string, courses: seq<Value>, fetch: Value -> Result<CourseMaterials>)
    requires CoursesBlocks(lib, base, courses, fetch).Ok?
    ensures forall b :: b in CoursesBlocks(lib, base, courses, fetch).value ==> b.Bullet?
  {
    if courses != [] {
      var n := |courses| - 1;
      var c := courses[n];
      assert CoursesBlocks(lib, base, courses, fetch)
        == Then(CoursesBlocks(lib, base, courses[..n], fetch), CourseStep(lib, base, c, fetch));
      CoursesBlocksAreBullets(lib, base, courses[..n], fetch);
      var cid := Get(c, "id");
      if Truthy(cid) && fetch(cid).Ok? {
        CourseBlocksAreBullets(lib, base, StrOf(lib, CourseName(lib, c)), cid, fetch(cid).value);
      }
    }
  }

  /** A successful digest holds exactly one heading, the run heading, and it comes first. */
  lemma DigestHasOneHeading(lib: Lib, stamp: string, base: string, courses: seq<Value>, fetch: Value -> Result<CourseMaterials>)
    requires DigestBlocks(lib, stamp, base, courses, fetch).Ok?
    ensures var bs := DigestBlocks(lib, stamp, base, courses, fetch).value;
      && |bs| >= 1 && bs[0] == RunHeading(stamp)
      && forall k :: 1 <= k < |bs| ==> bs[k].Bullet?
  {
    var body := CoursesBlocks(lib, base, courses, fetch).value;
    CoursesBlocksAreBullets(lib, base, courses, fetch);
    var bs := [RunHeading(stamp)] + body;
    forall k | 1 <= k < |bs| ensures bs[k].Bullet? {
      assert bs[k] == body[k - 1];
    }
  }

  /** Sequencing is associative. */
  lemma ThenAssoc(x: Result<seq<Block>>, y: Result<seq<Block>>, z: Result<seq<Block>>)
    ensures Then(Then(x, y), z) == Then(x, Then(y, z))
  {
    if x.Ok? && y.Ok? && z.Ok? {
      AppendAssoc(x.value, y.value, z.value);
    }
  }

  /** Steps over a concatenation are the sequencing of the steps over its parts. */
  lemma {:induction false} StepsAppend(a: seq<Value>, b: seq<Value>, step: Value -> Result<seq<Block>>)
    ensures Steps(a + b, step) == Then(Steps(a, step), Steps(b, step))
    decreases |b|
  {
    if b == [] {
      assert a + b == a;
      if Steps(a, step).Ok? {
        assert Steps(a, step).value + [] == Steps(a, step).value;
      }
    } else {
      var n := |b| - 1;
      assert (a + b)[..|a + b| - 1] == a + b[..n];
      assert (a + b)[|a + b| - 1] == b[n];
      StepsAppend(a, b[..n], step);
      ThenAssoc(Steps(a, step), Steps(b[..n], step), step(b[n]));
    }
  }

  /** A one-course listing gives that course's step. */
  lemma StepsSingle(c: Value, step: Value -> Result<seq<Block>>)
    ensures Steps([c], step) == step(c)
  {
    assert [c][..0] == [];
    if step(c).Ok? {
      assert [] + step(c).value == step(c).value;
    }
  }

  /** Once a prefix of the listing fails, the whole listing fails the same way. */
  lemma StepsFailure(courses: seq<Value>, i: nat, step: Value -> Result<seq<Block>>)
    requires i <= |courses| && Steps(courses[..i], step).Err?
    ensures Steps(courses, step) == Steps(courses[..i], step)
  {
    StepsAppend(courses[..i], courses[i..], step);
    assert courses[..i] + courses[i..] == courses;
  }

  /** Courses are processed independently: the listing's result is the sequencing of its parts' results. */
  lemma CoursesBlocksAppend(lib: Lib, base: string, a: seq<Value>, b: seq<Value>, fetch: Value -> Result<CourseMaterials>)
    ensures CoursesBlocks(lib, base, a + b, fetch) == Then(CoursesBlocks(lib, base, a, fetch), CoursesBlocks(lib, base, b, fetch))
  {
    StepsAppend(a, b, CourseSteps(lib, base, fetch));
  }

  /** A course with a falsy id contributes nothing and triggers no request. */
  lemma FalsyIdCourseSkipped(lib: Lib, base: string, a: seq<Value>, c: Value, b: seq<Value>, fetch: Value -> Result<CourseMaterials>)
    requires !Truthy(Get(c, "id"))
    ensures CoursesBlocks(lib, base, a + [c] + b, fetch) == CoursesBlocks(lib, base, a + b, fetch)
  {
    CoursesBlocksAppend(lib, base, a + [c], b, fetch);
    CoursesBlocksAppend(lib, base, a, b, fetch);
    assert (a + [c])[..|a|] == a;
    var before := CoursesBlocks(lib, base, a, fetch);
    if before.Ok? {
      assert before.value + [] == before.value;
    }
  }

  /** A course whose materials cannot be fetched aborts the digest unless an earlier course already did. */
  lemma FailedCourseAborts(lib: Lib, base: string, a: seq<Value>, c: Value, b: seq<Value>, fetch: Value -> Result<CourseMaterials>)
    requires Truthy(Get(c, "id")) && fetch(Get(c, "id")).Err?
    requires CoursesBlocks(lib, base, a, fetch).Ok?
    ensures CoursesBlocks(lib, base, a + [c] + b, fetch) == Err(fetch(Get(c, "id")).status)
  {
    CoursesBlocksAppend(lib, base, a + [c], b, fetch);
    assert (a + [c])[..|a|] == a;
  }

  /** A listing of one course that is fetched gives the run heading followed by that course's bullets. */
  lemma SingleCourseDigest(lib: Lib, stamp: string, base: string, c: Value, fetch: Value -> Result<CourseMaterials>)
    requires Truthy(Get(c, "id")) && fetch(Get(c, "id")).Ok?
    ensures DigestBlocks(lib, stamp, base, [c], fetch)
      == Ok([RunHeading(stamp)] + CourseBlocks(lib, base, StrOf(lib, CourseName(lib, c)), Get(c, "id"), fetch(Get(c, "id")).value))
  {
    StepsSingle(c, CourseSteps(lib, base, fetch));
  }

  /** A course whose only material is a non-empty syllabus body contributes exactly the syllabus bullet. */
  lemma SyllabusOnlyCourse(lib: Lib, base: string, cname: string, cid: Value, body: string)
    requires body != ""
    ensures CourseBlocks(lib, base, cname, cid, CourseMaterials(Some(body), [], [], []))
      == [Bullet("[Syllabus] " + cname + Dash + PlainTextPreview(lib, Some(body), PreviewLimit),
                 Some(base + "/courses/" + StrOf(lib, cid) + "/assignments/syllabus"))]
  {
    assert ModuleItems([]) == [];
    assert SyllabusFiles(lib, []) == [];
  }

  /** A single course whose only material is a non-empty syllabus body: the heading, then the syllabus bullet. */
  lemma SyllabusOnlySingle(lib: Lib, stamp: string, base: string, c: Value, body: string, fetch: Value -> Result<CourseMaterials>)
    requires body != "" && Truthy(Get(c, "id"))
    requires fetch(Get(c, "id")) == Ok(CourseMaterials(Some(body), [], [], []))
    ensures DigestBlocks(lib, stamp, base, [c], fetch)
      == Ok([RunHeading(stamp),
             Bullet("[Syllabus] " + StrOf(lib, CourseName(lib, c)) + Dash + PlainTextPreview(lib, Some(body), PreviewLimit),
                    Some(base + "/courses/" + StrOf(lib, Get(c, "id")) + "/assignments/syllabus"))])
  {
    var cname, cid := StrOf(lib, CourseName(lib, c)), Get(c, "id");
    SingleCourseDigest(lib, stamp, base, c, fetch);
    SyllabusOnlyCourse(lib, base, cname, cid, body);
    var b := Bullet("[Syllabus] " + cname + Dash + PlainTextPreview(lib, Some(body), PreviewLimit),
                    Some(base + "/courses/" + StrOf(lib, cid) + "/assignments/syllabus"));
    assert [RunHeading(stamp)] + [b] == [RunHeading(stamp), b];
  }

  /** The master page whose children the digest is appended to. */
  class DigestPage {
    var children: seq<Block>

    constructor (initial: seq<Block>)
      ensures children == initial
    {
      children := initial;
    }

    /**
     * `append_blocks`: nothing happens for an empty list; otherwise one
     * request appends the blocks after the existing children, unless it
     * fails with the status in `fault`, which leaves the page as it was.
     */
    method AppendBlocks(blocks: seq<Block>, fault: Option<int>) returns (r: DigestOutcome)
      modifies this
      ensures blocks == [] || fault.None? ==> r == Written && children == old(children) + blocks
      ensures blocks != [] && fault.Some? ==> r == Raised(fault.value) && children == old(children)
    {
      if blocks == [] {
        assert children + blocks == children;
        return Written;
      }
      if fault.Some? {
        return Raised(fault.value);
      }
      children := children + blocks;
      r := Written;
    }
  }

  /** How a digest pass ends: the blocks were appended, or a request raised. */
  datatype DigestOutcome = Written | Raised(status: int)

  /** The body of the course loop for a course whose materials were fetched. */
  method CourseBullets(lib: Lib, base: string, cname: string, cid: Value, m: CourseMaterials) returns (bs: seq<Block>)
    ensures bs == CourseBlocks(lib, base, cname, cid, m)
  {
    bs := SyllabusBlocks(lib, base, cname, cid, m.syllabusBody);
    var pageBullets := Collect(m.pages, PageFilter(lib), PageBulletOf(lib, cname));
    bs := bs + pageBullets;
    var items := CollectModuleItems(m.modules);
    var itemBullets := Collect(items, ItemFilter(lib), ItemBulletOf(cname));
    bs := bs + itemBullets;
    var files := FindSyllabusFiles(lib, m.files);
    var fileBullets := Collect(files, EveryFile(), FileBulletOf(cname));
    bs := bs + fileBullets;
  }

  /** One pass of the course loop: skip a falsy id, fetch the materials, build the course's bullets. */
  method SummarizeCourse(lib: Lib, base: string, c: Value, fetch: Value -> Result<CourseMaterials>) returns (step: Result<seq<Block>>)
    ensures step == CourseStep(lib, base, c, fetch)
  {
    var cid := Get(c, "id");
    var cname := CourseName(lib, c);
    if !Truthy(cid) {
      return Ok([]);
    }
    var fetched := fetch(cid);
    if fetched.Err? {
      return Err(fetched.status);
    }
    var more := CourseBullets(lib, base, StrOf(lib, cname), cid, fetched.value);
    step := Ok(more);
  }

  /**
   * `summarize_intros_and_syllabi(courses)` writing to `master`: build the
   * block list course by course and append it once at the end. A failed
   * request, while fetching or while appending (`appendFault`), leaves the
   * page untouched.
   */
  method SummarizeIntrosAndSyllabi(lib: Lib, master: DigestPage, stamp: string, base: string,
                                   courses: seq<Value>, fetch: Value -> Result<CourseMaterials>,
                                   appendFault: Option<int>)
    returns (r: DigestOutcome)
    modifies master
    ensures DigestBlocks(lib, stamp, base, courses, fetch).Ok? && appendFault.None? ==>
      r == Written && master.children == old(master.children) + DigestBlocks(lib, stamp, base, courses, fetch).value
    ensures DigestBlocks(lib, stamp, base, courses, fetch).Ok? && appendFault.Some? ==>
      r == Raised(appendFault.value) && master.children == old(master.children)
    ensures DigestBlocks(lib, stamp, base, courses, fetch).Err? ==>
      r == Raised(DigestBlocks(lib, stamp, base, courses, fetch).status) && master.children == old(master.children)
  {
    var blocks := [RunHeading(stamp)];
    var i := 0;
    ghost var body: seq<Block> := [];
    ghost var steps := CourseSteps(lib, base, fetch);
    assert courses[..0] == [];
    while i < |courses|
      invariant 0 <= i <= |courses|
      invariant Steps(courses[..i], steps) == Ok(body)
      invariant blocks == [RunHeading(stamp)] + body
      invariant master.children == old(master.children)
    {
      assert courses[..i + 1][..i] == courses[..i];
      var step := SummarizeCourse(lib, base, courses[i], fetch);
      assert Steps(courses[..i + 1], steps) == Then(Steps(courses[..i], steps), step);
      if step.Err? {
        StepsFailure(courses, i + 1, steps);
        return Raised(step.status);
      }
      AppendAssoc([RunHeading(stamp)], body, step.value);
      blocks := blocks + step.value;
      body := body + step.value;
      i := i + 1;
    }
    assert courses[..i] == courses;
    assert DigestBlocks(lib, stamp, base, courses, fetch) == Ok(blocks);
    r := master.AppendBlocks(blocks, appendFault);
  }
}
