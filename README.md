# Canvas → Notion sync: a verified model of `app.py`

`app.py` copies a student's Canvas assignments into a Notion database and
keeps a digest page of syllabi and "start here" material. This project
models the logic in that script, with the HTTP calls abstracted away.
It covers the following:

- **Pagination** (`Pagination`): `paginate_canvas` reads the `Link` header,
  splits it on commas and strips each part. It takes the first part that
  contains `rel="next"` and slices between `<` and `>` the way Python does.
  The `while url` loop follows that link over a scripted sequence of
  responses.
- **Python values and strings** (`Values`, `Text`):
  - decoded JSON, truthiness, `dict.get`, `or`, and `str()` of ints
    (proved invertible);
  - `isspace`, `re.sub(r"\s+", " ", s)`, `strip`, `lower`, `find`, `split`
    and `join`, and slicing with negative bounds.
- **Classification** (`Classify`):
  - `norm`;
  - the `ORIENT_PATTERNS` and `SYLLAB_PAT` patterns, written in a small
    pattern language that has exactly the `\b`, literal, alternation,
    `\s*` and `\w*` atoms the patterns use;
  - `looks_like_orientation`, `looks_like_syllabus` and
    `plain_text_preview`.
- **Assignments** (`Canvas`, `Properties`): `normalize_assignment`, the
  `c.get("name") or f"Course {cid}"` fallback, and
  `build_notion_properties`, both as a function and as the step-by-step
  method that fills the dict.
- **The Notion database** (`Notion`): a class whose `pages` field the
  query, update and create operations read and change. `upsert_assignment`
  runs against it, and `Fault` says which HTTP call, if any, raises.
- **The digest** (`Digest`):
  - `find_syllabus_files` and `get_modules_and_items`;
  - `bullet` and `heading`;
  - the course loop of `summarize_intros_and_syllabi`, and `append_blocks`
    on a master page object.
- **`sync_once`** (`Sync`): the course loop that skips a falsy id, skips a
  course whose assignment listing raised, applies the `ONLY_DATED` filter
  and catches each upsert's `HTTPError`. Then comes the digest pass, whose
  `HTTPError` is caught too.

HTTP responses are inputs:

- each Canvas listing is a `Result` holding the records or the failing
  status;
- a course's digest materials come from `fetch`;
- an upsert's failure comes from `faults(n)`, where `n` numbers the run's
  upsert calls, so two equal records can fare differently;
- whether `append_blocks` raises comes from `appendFault`.

NFKC normalisation, `html.unescape` and `str()` of floats, lists and dicts
are fields of `Values.Lib`, left uninterpreted.

The model follows `app.py` as written in these cases:

- The digest is appended after the master page's existing children; none
  are removed.
- No course front page is fetched.
- `looks_like_syllabus` accepts any word that begins with "syllab",
  including "syllables" (`Classify.SyllablesMatches`).
- A failure of `get_active_courses` is not caught, so the run stops before
  any upsert (`Sync.SyncOnce`, `Aborted`).

## Model

| member | source | states |
|---|---|---|
| Values.StrOf | app.py:90 | `str()` returns a string unchanged, writes an int in decimal and `None` as "None" |
| Values.ParseIntToDecimal | app.py:90 | the decimal text of every integer parses back to that integer |
| Values.IntToDecimalInjective | app.py:90 | distinct integers print differently |
| Values.Or | app.py:91 | Python `a or b`: `a` when it is truthy, else `b`; the result is one of the two, and it is truthy iff either is |
| Canvas.NormalizeAssignment | app.py:88-98 | `id` is `str()` of the id; `name` is the truthy source name, else "Assignment {id}", and is always truthy; `published` defaults to True only when the key is absent; `due_at`, `url`, `points`, `workflow_state` and the course pass through unchanged |
| Canvas.DistinctIdsDistinctKeys | app.py:90 | records with different integer ids get different Canvas ID keys |
| Canvas.UnnamedAssignment | app.py:91 | a record `{"id": 42}` with no name is named "Assignment 42" |
| Canvas.CourseName | app.py:298 | the course name is the truthy `name`, else "Course {id}", and is always truthy |
| Properties.StatusValue | app.py:119 | the status is the truthy workflow state, else "published" or "unpublished" by the `published` flag; it is always truthy |
| Properties.NotionProperties | app.py:107-122 | the keys are exactly Name, Course, Canvas ID and Status, plus URL iff the url is truthy, Points iff points is not `None`, and Due iff `due_at` is truthy |
| Properties.NotionPropertyValues | app.py:108-121 | with distinct property names, each property holds the field it was built from, with its Notion type |
| Properties.BuildNotionProperties | app.py:107-122 | the dict filled entry by entry equals `NotionProperties` |
| Properties.DefaultSchemaDistinct | app.py:23-29 | the default property names are pairwise different, so every lemma assuming distinct names applies to a default setup |
| Notion.FirstMatch | app.py:100-105 | the query result is absent iff no page carries the Canvas ID; otherwise it is the lowest such page |
| Notion.Upsert | app.py:138-148 | a failing call changes nothing; an update merges the properties into the first matching page only; a create appends one page and happens only when nothing matched |
| Notion.UpsertKeepsOnePage | app.py:138-147 | a successful upsert leaves one page for its key when there was none, and keeps the count otherwise |
| Notion.SecondUpsertUpdates | app.py:138-147 | upserting the same Canvas ID a second time updates and creates nothing |
| Notion.RepeatedUpsertsLeaveOnePage | app.py:138-147 | from no page for a key, any number of successful upserts of that key leaves exactly one page |
| Notion.UpsertAllSnoc | app.py:307-316 | upserting one more record applies one more upsert to the store |
| Notion.UpsertAllAppend | app.py:307-316 | upserting `xs + ys` is upserting `xs`, then `ys`, with the calls numbered on |
| Notion.UpsertAllSize | app.py:307-316 | the page count never drops and grows by at most one per record |
| Notion.EqualRecordsFailIndependently | app.py:311-316 | two equal records are separate calls: when the first raises and the second succeeds, the key ends with exactly one page |
| Notion.FailedUpsertChangesNothing | app.py:311-316 | a record whose upsert raises leaves the store as it was |
| Notion.NotionDatabase.QueryByCanvasId | app.py:100-105 | no result iff no page carries the Canvas ID; otherwise the first page that does |
| Notion.NotionDatabase.UpdatePage | app.py:131-136 | the PATCH merges the properties into that page; no other page changes |
| Notion.NotionDatabase.CreatePage | app.py:124-129 | one page is appended and its id is returned |
| Notion.UpsertAssignment | app.py:138-148 | the database's new pages and the result are those of `Upsert` on its old pages |
| Text.Lower | app.py:161 | `lower()` keeps the length and lower-cases each character |
| Text.Collapse | app.py:161 | the result has no two adjacent whitespace characters, only plain spaces, is empty iff the input is, and starts like the input |
| Text.CollapseKeepsText | app.py:161 | collapsing whitespace keeps every other character, in order |
| Text.CollapseIdempotent | app.py:161 | an already-collapsed string is unchanged |
| Text.CollapseRun | app.py:161 | a whitespace run between non-space text becomes one space, and the text on either side collapses on its own |
| Text.Strip | app.py:161 | the result neither starts nor ends with whitespace |
| Text.StripBounds | app.py:55 | `strip()` removes only a leading and a trailing run of whitespace |
| Text.StripKeepsText | app.py:161 | stripping keeps every non-whitespace character |
| Text.Find | app.py:58-59 | `find` gives the first index of the character, or -1 when it is absent |
| Text.Split | app.py:55 | `split(c)` gives at least one part |
| Text.SplitNoSeparator | app.py:55 | no part of a split contains the separator |
| Text.JoinSplit | app.py:55 | joining the parts of a split gives back the string |
| Text.SplitJoin | app.py:55 | splitting a join of comma-free parts gives back the parts |
| Classify.Norm | app.py:159-162 | the result has no leading or trailing whitespace, no two adjacent whitespace characters and no upper-case letter |
| Classify.NormKeepsText | app.py:159-162 | `norm` keeps every non-whitespace character of the NFKC form, in order, lower-cased |
| Classify.NormOfPlain | app.py:159-162 | a title whose NFKC form is itself, trimmed and single-spaced with plain spaces, normalises to its lower-case form |
| Classify.SearchSyllab | app.py:157 | `\bsyllab\w*\b` matches exactly where "syllab" starts at position 0 or after a non-word character |
| Classify.LooksLikeSyllabusIff | app.py:168-169 | `looks_like_syllabus(t)` holds iff "syllab" begins a word of `norm(t)` |
| Classify.SyllablesMatches | app.py:157 | the pattern accepts "syllables and sounds" |
| Classify.StartHereWithoutSpace | app.py:152 | `\bstart\s*here\b` matches "starthere" |
| Classify.PhraseSearch | app.py:151-155 | a `\bA\s*B\b` pattern is found iff A starts a word, only whitespace (or nothing) follows it, then B ends a word |
| Classify.OrientPhraseIff | app.py:164-166 | each two-word orientation pattern fires on `norm(title)` iff its two words occur there as a phrase, and then the title looks like orientation |
| Classify.WordSearch | app.py:151-155 | a `\bW\b` pattern is found iff W occurs somewhere as a whole word |
| Classify.OrientWordIff | app.py:164-166 | `\borientation\b` and `\bwelcome\b` fire on `norm(title)` iff the word occurs there whole, and then the title looks like orientation |
| Classify.PolicyIff | app.py:151-155 | `\bpolic(y\|ies)\b` fires on `norm(title)` iff "policy" or "policies" occurs there as a whole word, and then the title looks like orientation |
| Classify.TopicSearch | app.py:151-155 | a `\bA\s*(W1\|W2\|...)\b` pattern is found iff A starts a word, only whitespace follows, then one of the Wk ends a word |
| Classify.CourseIff | app.py:164-166 | `\bcourse\s*(overview\|info\|information)\b` fires on `norm(title)` iff "course" and one of those words form such a phrase there, and then the title looks like orientation |
| Classify.NoLeadingWord | app.py:164-166 | a pattern opening with `\b` and a word cannot match where that word never begins a word |
| Classify.StartHereWeekOne | app.py:164-166 | "Start Here: Week 1" looks like orientation |
| Classify.RestartHereinNotOrientation | app.py:164-166 | "Restart Herein" does not look like orientation: its only "start" is inside a word, and no other pattern's first word occurs |
| Classify.StripTagsLeavesNoTag | app.py:174 | after the tag substitution, no `<...>` tag is left |
| Classify.StripTagsLength | app.py:174 | the substitution never lengthens the text |
| Classify.StripTagsTagFree | app.py:174 | text without `<` is left unchanged |
| Classify.CleanText | app.py:174-175 | the cleaned text neither starts nor ends with whitespace |
| Classify.PlainTextPreview | app.py:171-176 | "" for `None` or ""; else the cleaned text, or its first `limit` characters plus "…" when longer; at most `limit + 1` characters |
| Pagination.StripAllAt | app.py:55 | part `k` of the list is the strip of raw part `k` |
| Pagination.NextUrl | app.py:52-62 | no next URL iff the header is empty or no part contains `rel="next"`; otherwise the target of the first part that does |
| Pagination.NextTarget | app.py:52-62 | the loop continues with exactly the next URL when there is one, and stops ("") when there is none |
| Pagination.Paginate | app.py:41-63 | at most one request per response; a request is made iff the URL is non-empty and a response is available; the first carries the caller's params |
| Pagination.FirstNextSpec | app.py:56-61 | there is no next link iff no part contains `rel="next"`; otherwise the target comes from the first such part |
| Pagination.NextUrlOfEntries | app.py:52-62 | for a header of comma-free entries, the next URL is taken from the first stripped entry that contains `rel="next"` |
| Pagination.CanvasNextLinkShape | app.py:55-60 | a Canvas entry `<url>; rel="next"` is comma-free, already stripped, contains the marker and yields `url` |
| Pagination.NextOfCanvasLink | app.py:52-62 | the header `<url>; rel="next"` leads to `url` |
| Pagination.NoNextEntry | app.py:52-62 | a header with no `rel="next"` part ends the loop |
| Pagination.LinkTargetBetweenBrackets | app.py:58-60 | the target is the text between the first `<` and the first `>` |
| Pagination.LinkTargetWithoutClosingBracket | app.py:58-60 | with no `<` or `>` in the part, `p[0:-1]` drops its last character |
| Pagination.PaginateRequests | app.py:41-63 | the caller's params go with the first request only; each later request is the previous page's next link; the loop stops at the first page without one; a failed listing failed on its last request, with that response's 4xx/5xx status |
| Pagination.PaginateItems | app.py:43-51 | a complete listing yields, in order, the elements of each list page and each other page as a single item; the last page fetched has no next link |
| Pagination.FollowPages | app.py:41-63 | the `while url` loop produces exactly the requests and outcome of `Paginate` |
| Pagination.PaginateCanvas | app.py:41-63 | `paginate_canvas` with its own `Link` parser is `Paginate` with `NextTarget` |
| Pagination.ThreeLinkedPages | app.py:41-63 | three pages linked by Canvas headers give items a, b, c, d, with params on the first request only |
| Digest.TextOr | app.py:206 | `s or default` for a string that may be `None`; empty iff both are |
| Digest.OptOr | app.py:207 | `html_url or external_url`; truthy iff either is |
| Digest.BulletBlock | app.py:255-260 | a bullet with the given text, carrying the link iff `href` is truthy |
| Digest.RunHeading | app.py:267 | the run heading is a heading whose text ends with the timestamp |
| Digest.SelectAppend | app.py:216-221 | a collecting loop keeps input order |
| Digest.SelectMembers | app.py:216-221 | an element is collected iff it passes the test |
| Digest.SyllabusFiles | app.py:215-221 | no more entries than files |
| Digest.SyllabusFilesMembers | app.py:215-221 | a file is listed iff its name looks like a syllabus or its lower-cased name ends in .pdf, .doc or .docx; order is kept |
| Digest.WordFileKept | app.py:218-219 | a file with no display name and file name "Week1.DOCX" is kept under that name |
| Digest.FindSyllabusFiles | app.py:216-221 | the loop returns `SyllabusFiles` |
| Digest.ModuleEntries | app.py:205-208 | each item gives one entry with its title or "", `html_url or external_url`, its type and its module's name |
| Digest.ModuleItemsAppend | app.py:201-208 | the items of a concatenation of modules are the concatenation of their items |
| Digest.ModuleItemsCount | app.py:201-208 | there is one entry per item, each labelled with the name of one of the modules |
| Digest.CollectModuleItems | app.py:198-209 | the nested loop returns `ModuleItems` |
| Digest.SyllabusBlocks | app.py:272-275 | one syllabus bullet iff the body is non-empty, with the 120-character preview and the `/courses/{id}/assignments/syllabus` link |
| Digest.PageBlocksMembers | app.py:277-280 | a page gets a bullet iff its title looks like orientation or like a syllabus |
| Digest.ItemBlocksMembers | app.py:282-284 | a module item gets a bullet iff its title, or its module's name, passes the tests |
| Digest.FileBlocksOnePerFile | app.py:286-287 | every kept file gets exactly one bullet, in order |
| Digest.CourseBlocksAreBullets | app.py:272-287 | a course contributes bullets only |
| Digest.Then | app.py:268-290 | the first failure wins; the result succeeds iff both parts do, and then the block lists concatenate |
| Digest.CoursesBlocksAreBullets | app.py:268-288 | the course loop contributes bullets only |
| Digest.DigestHasOneHeading | app.py:267-288 | a written digest starts with the run heading and has no other heading |
| Digest.StepsAppend | app.py:268-288 | running the course loop over a concatenation sequences its parts |
| Digest.StepsSingle | app.py:268-288 | a one-course listing gives that course's step |
| Digest.StepsFailure | app.py:268-290 | once a prefix of the courses fails, the whole pass fails the same way |
| Digest.ThenAssoc | app.py:268-290 | sequencing course results is associative |
| Digest.CoursesBlocksAppend | app.py:268-288 | courses are processed independently and in order |
| Digest.FalsyIdCourseSkipped | app.py:269-270 | a course with a falsy id contributes nothing and fetches nothing |
| Digest.FailedCourseAborts | app.py:272-290 | a course whose fetch raises aborts the digest with that status |
| Digest.SingleCourseDigest | app.py:265-290 | a one-course digest is the heading followed by that course's bullets |
| Digest.DigestBlocks | app.py:265-288 | the digest fails iff the course loop fails, with its status; a built digest opens with the run heading |
| Digest.SyllabusOnlyCourse | app.py:272-287 | a course with only a syllabus body contributes exactly the syllabus bullet |
| Digest.SyllabusOnlySingle | app.py:265-290 | such a course alone gives the heading, then its syllabus bullet with the course's name and id |
| Digest.DigestPage.AppendBlocks | app.py:248-253 | an empty list changes nothing and sends nothing; otherwise the blocks go after the existing children, unless the PATCH raises, which leaves the page unchanged and reports the status |
| Digest.Collect | app.py:277-287 | the collecting loop returns `Select` |
| Digest.CourseBullets | app.py:272-287 | the body of the course loop builds `CourseBlocks` |
| Digest.SummarizeCourse | app.py:269-288 | one pass of the course loop gives `CourseStep` |
| Digest.SummarizeIntrosAndSyllabi | app.py:262-290 | on success it appends the heading plus every course's bullets and reports Written; if a course request or the final append raises, the page is untouched and that status is reported |
| Sync.CourseRecordsStep | app.py:307-310 | one more assignment adds its normalised record iff it passes the date filter |
| Sync.CourseRecords | app.py:307-310 | a course yields at most one record per assignment |
| Sync.Admitted | app.py:308-310 | one assignment yields at most one record: none iff the date filter drops it, else its normalised record |
| Sync.PlannedStep | app.py:296-316 | one more course adds its own records after those planned so far |
| Sync.DatedRecordsSelect | app.py:307-310 | under `ONLY_DATED`, a course's records are the normalised assignments with a truthy `due_at`, in order |
| Sync.EveryAssignmentWhenNotOnlyDated | app.py:307-312 | without `ONLY_DATED`, every assignment is upserted, in order |
| Sync.DatedAssignmentsUpserted | app.py:307-312 | under `ONLY_DATED`, an assignment is upserted iff its `due_at` is truthy |
| Sync.CourseRecordsDated | app.py:309-310 | under `ONLY_DATED`, every record of a course has a due date |
| Sync.OnlyDatedUpsertsDated | app.py:296-316 | under `ONLY_DATED`, no record without a due date is upserted |
| Sync.PlanAllAppend | app.py:296-316 | the records planned for a concatenation of courses are the concatenation of their records |
| Sync.PlannedAppend | app.py:296-316 | courses are independent: the plan for `a + b` is the plan for `a`, then for `b` |
| Sync.SkippedCourse | app.py:297-305 | a course with a falsy id or a failing assignment listing is skipped without disturbing the others |
| Sync.UpsertListed | app.py:307-316 | one pass of the inner loop upserts the record as the next call iff the filter keeps it, and the store follows `UpsertAll` |
| Sync.UpsertCourse | app.py:307-316 | the inner loop leaves the database as upserting the course's filtered records in order |
| Sync.UpsertPlan | app.py:297-316 | one pass of the course loop upserts exactly the course's plan: nothing for a falsy id or a failed listing |
| Sync.UpsertCourses | app.py:296-316 | the course loop leaves the database as upserting every planned record in order |
| Sync.SyncOnce | app.py:292-324 | a failing course listing aborts with nothing written; otherwise the database holds every planned upsert, each meeting its own call's fault, and the digest is appended or, on an `HTTPError` from any digest request including the append, the page is untouched |

## Left out

- HTTP:
  - `requests`, the headers and JSON decoding are not modelled;
  - each response is an input: a scripted sequence of `Response`s for a
    listing, a `Result` for a listing or a course's materials, and a
    `Fault` for an upsert;
  - `get_active_courses`, `get_current_and_future_courses`,
    `get_assignments`, `get_syllabus_html` and `get_pages_with_bodies` are
    therefore not composed with `Pagination.PaginateCanvas`.
- Environment variables (app.py:13-29) are parameters:
  - `Properties.Schema` holds the property names;
  - `Sync.Config` holds `ONLY_DATED` as a bool and the base URL;
  - the parsing of `ONLY_DATED` is not modelled.
- `time.sleep`, `print`, and the `datetime.now` timestamp, which is the
  `stamp` parameter.
- NFKC normalisation, `html.unescape`, and `str()` of floats, lists and
  dicts are uninterpreted functions in `Values.Lib`.
- Properties.NotionProperties:
  - Points keeps the raw value; `float()` is not modelled;
  - the `ValueError` that `float()` raises on a non-numeric value, which
    `sync_once` does not catch, is not modelled either.
- Regular expressions:
  - Python's regex engine is not modelled; only the patterns the script
    uses are;
  - `\w` is ASCII letters, digits and `_`;
  - `lower()` changes ASCII letters only;
  - `\bread\s*me\s*first\b` has no all-inputs characterisation of its
    own: no word edge is required between "read" and "me", so it does not
    fit the two-word shape; it is covered by the general `Search`
    definition and `Classify.NoLeadingWord` only.
- Errors and record shapes:
  - exceptions other than `requests.HTTPError` (`KeyError`, `ValueError`,
    connection errors) are not modelled;
  - a record that is not a dict is read as having no keys.
- Pagination.Paginate: the `Unanswered` outcome only means the scripted
  responses ran out while a next link was pending. The real loop would keep
  requesting.
- Digest.SummarizeIntrosAndSyllabi:
  - the master page is given as a `DigestPage`;
  - the query and create calls of `get_or_create_master_page`
    (app.py:223-246), and their failures, are not modelled;
  - a course's materials are fetched as one `Result`, so the model does not
    say which of the course's requests failed.
- Notion.FirstMatch: "first" is the lowest page in store order. The order
  Notion actually returns results in is not specified.
- `web.py` (the HTTP trigger) and overlapping runs, which are concurrency.
