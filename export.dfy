/** `export_pages_html` and `export_pages_md`: fetch every selected page, keep
    one outcome per page id, then concatenate one section per selected id, in
    the order of the selection.
    The two functions differ only in the document they build and in passing the
    page body through `markdownify`; both are modelled by one `ExportPages`
    parameterised by the `Format`. The worker threads are sequentialised: the
    `k`-th submitted future runs `fetch(page_ids[k])`, whose `_get` sees the
    network oracle `nets(k)` and ends with `replies(k)`; everything past the
    fetch loop is stated over `replies`. */
module Export {
  import opened Options
  import opened Fetcher
  import opened Pages

  datatype Format = Html | Markdown

  /** What `r.json()` yields: the page record, or a decoding error with its message. */
  datatype Body = Json(title: Option<string>, html: string) | NotJson(message: string)

  /** What `fetch(pid)` returns: `(title, html or markdown, err)`. */
  datatype Outcome = Outcome(title: string, content: Option<string>, err: Option<string>)

  /** The calling context: `id_to_title`, `str(e)` of a request exception
      caught while fetching page `pid` (its text names the request's URL,
      which holds `pid`), and `markdownify(html, heading_style="ATX")`. */
  datatype Env = Env(names: map<Id, string>, excText: (Id, Exc) -> string, toMarkdown: string -> string)

  /** `str(e)` of the `TypeError` raised by `raise None`. */
  const NoneMessage: string := "exceptions must derive from BaseException"

  /** The error `results.get` falls back on for an id with no entry. */
  const NoData: string := "No data"

  /** `id_to_title.get(pid, pid)`. */
  function Fallback(names: map<Id, string>, pid: Id): string
  {
    if pid in names then names[pid] else pid
  }

  /** `data.get("title") or id_to_title.get(pid, pid)`: `None` and `""` are both falsy. */
  function TitleOf(title: Option<string>, names: map<Id, string>, pid: Id): string
  {
    if title.Some? && title.value != "" then title.value else Fallback(names, pid)
  }

  /** How `fetch(pid)` ends: it returns an outcome, or `SystemExit` (not an
      `Exception`) passes through it. */
  datatype Fetched = Exits(status: int) | Done(outcome: Outcome)

  function Convert(fmt: Format, env: Env, html: string): string
  {
    match fmt
    case Html => html
    case Markdown => env.toMarkdown(html)
  }

  /** `fetch(pid)` once `_get` has ended with `r`. */
  function Settle(fmt: Format, env: Env, pid: Id, r: GetResult<Body>): Fetched
  {
    match r
    case Return(Json(t, h)) => Done(Outcome(TitleOf(t, env.names, pid), Some(Convert(fmt, env, h)), None))
    case Return(NotJson(m)) => Done(Outcome(Fallback(env.names, pid), None, Some(m)))
    case Failed(AuthExit(s)) => Exits(s)
    case Failed(Raised(e)) => Done(Outcome(Fallback(env.names, pid), None, Some(env.excText(pid, e))))
    case Failed(RaisedNone) => Done(Outcome(Fallback(env.names, pid), None, Some(NoneMessage)))
  }

  /** How the `_get` of each future ends. */
  function Replies(nets: nat -> nat -> Attempt<Body>): nat -> GetResult<Body>
  {
    (k: nat) => Run(nets(k), DefaultRetry).result
  }

  /** What the `k`-th future yields. */
  function FetchAt(fmt: Format, env: Env, ids: seq<Id>, replies: nat -> GetResult<Body>, k: nat): Fetched
    requires k < |ids|
  {
    Settle(fmt, env, ids[k], replies(k))
  }

  /** The `results` dict after the first `n` futures, or the `SystemExit`
      that `fut.result()` re-raised at future `at`. */
  datatype Gathering = Gathered(results: map<Id, Outcome>) | Halted(status: int, at: nat)

  function Gather(fmt: Format, env: Env, ids: seq<Id>, replies: nat -> GetResult<Body>, n: nat): Gathering
    requires n <= |ids|
  {
    if n == 0 then Gathered(map[])
    else
      match Gather(fmt, env, ids, replies, n - 1)
      case Halted(s, at) => Halted(s, at)
      case Gathered(m) =>
        match FetchAt(fmt, env, ids, replies, n - 1)
        case Exits(s) => Halted(s, n - 1)
        case Done(o) => Gathered(m[ids[n - 1] := o])
  }

  /** One more future on top of a collection that has not halted. */
  lemma {:induction false} GatherNext(fmt: Format, env: Env, ids: seq<Id>, replies: nat -> GetResult<Body>, k: nat, m: map<Id, Outcome>)
    requires k < |ids| && Gather(fmt, env, ids, replies, k) == Gathered(m)
    ensures Gather(fmt, env, ids, replies, k + 1)
         == match FetchAt(fmt, env, ids, replies, k)
            case Exits(s) => Halted(s, k)
            case Done(o) => Gathered(m[ids[k] := o])
  {
  }

  /** The nested `fetch(pid)`: one `_get` of the page, then its outcome. */
  method FetchPage(fmt: Format, env: Env, pid: Id, net: nat -> Attempt<Body>) returns (f: Fetched)
    ensures f == Settle(fmt, env, pid, Run(net, DefaultRetry).result)
  {
    var r, _, _, _ := Get(net, DefaultRetry);
    f := Settle(fmt, env, pid, r);
  }

  /** The loop `for fut, pid in futures.items(): ... results[pid] = ...`. */
  method CollectResults(fmt: Format, env: Env, ids: seq<Id>, nets: nat -> nat -> Attempt<Body>)
    returns (g: Gathering)
    ensures g == Gather(fmt, env, ids, Replies(nets), |ids|)
  {
    ghost var replies := Replies(nets);
    var results: map<Id, Outcome> := map[];
    var k := 0;
    while k < |ids|
      invariant 0 <= k <= |ids|
      invariant Gather(fmt, env, ids, replies, k) == Gathered(results)
    {
      var pid := ids[k];
      var f := FetchPage(fmt, env, pid, nets(k));
      assert f == FetchAt(fmt, env, ids, replies, k);
      GatherNext(fmt, env, ids, replies, k, results);
      if f.Exits? {
        HaltedSticks(fmt, env, ids, replies, k + 1, |ids|);
        return Halted(f.status, k);
      }
      results := results[pid := f.outcome];
      k := k + 1;
    }
    g := Gathered(results);
  }

  // ---------------------------------------------------------------------
  // Assembling the document.

  /** `results.get(pid, (id_to_title.get(pid, pid), None, "No data"))`. */
  function Lookup(results: map<Id, Outcome>, names: map<Id, string>, pid: Id): Outcome
  {
    if pid in results then results[pid] else Outcome(Fallback(names, pid), None, Some(NoData))
  }

  /** `if err:` (an empty message is falsy). */
  predicate HasError(o: Outcome)
  {
    o.err.Some? && o.err.value != ""
  }

  /** The fixed text around each part of the document, per format. */
  datatype Layout = Layout(header: string, footer: string, titleOpen: string, titleClose: string,
                           endOpen: string, endClose: string, errOpen: string, errClose: string)

  function LayoutOf(fmt: Format): Layout
  {
    match fmt
    case Html =>
      Layout("<html><head><meta charset='utf-8'><title>Combined Report</title></head><body>", "</body></html>",
             "<h1>", "</h1>\n", "\n<hr>\n<!-- End of page: ", " -->\n", "<p><em>Export error: ", "</em></p>")
    case Markdown =>
      Layout("", "", "# ", "\n\n", "\n\n---\n*End of page: ", "*\n\n", "*Export error: ", "*")
  }

  function Placeholder(lay: Layout, err: string): string
  {
    lay.errOpen + err + lay.errClose
  }

  /** The page body as it is written: `html or placeholder` after an error,
      then `html or ''`. */
  function Content(lay: Layout, o: Outcome): string
  {
    var present := o.content.Some? && o.content.value != "";
    if present then o.content.value
    else if HasError(o) then Placeholder(lay, o.err.value)
    else ""
  }

  /** `f"<h1>{title}</h1>\n{html or ''}\n<hr>\n<!-- End of page: {title} -->\n"`
      and its Markdown counterpart. */
  function Section(lay: Layout, o: Outcome): string
  {
    lay.titleOpen + o.title + lay.titleClose + Content(lay, o) + lay.endOpen + o.title + lay.endClose
  }

  /** The console warning `Failed to export: {title} ({err})`. */
  datatype Warning = Warning(title: string, err: string)

  /** The sections of `ids`, one per id, in order. */
  function Sections(lay: Layout, ids: seq<Id>, results: map<Id, Outcome>, names: map<Id, string>): (r: seq<string>)
    ensures |r| == |ids|
  {
    if ids == [] then []
    else Sections(lay, ids[..|ids| - 1], results, names) + [Section(lay, Lookup(results, names, ids[|ids| - 1]))]
  }

  /** Section `k` is the one of `ids[k]`. */
  lemma {:induction false} SectionsAt(lay: Layout, ids: seq<Id>, results: map<Id, Outcome>, names: map<Id, string>)
    ensures forall k :: 0 <= k < |ids| ==>
      Sections(lay, ids, results, names)[k] == Section(lay, Lookup(results, names, ids[k]))
  {
    if ids != [] {
      var n := |ids| - 1;
      SectionsAt(lay, ids[..n], results, names);
    }
  }

  /** The warnings for `ids`: one per id whose outcome has an error, in order. */
  function Warnings(ids: seq<Id>, results: map<Id, Outcome>, names: map<Id, string>): seq<Warning>
  {
    if ids == [] then []
    else Warnings(ids[..|ids| - 1], results, names) + WarningOf(Lookup(results, names, ids[|ids| - 1]))
  }

  /** The warning printed for one page, if any. */
  function WarningOf(o: Outcome): seq<Warning>
  {
    if HasError(o) then [Warning(o.title, o.err.value)] else []
  }

  /** The concatenation of `ss`. */
  function Join(ss: seq<string>): string
  {
    if ss == [] then "" else Join(ss[..|ss| - 1]) + ss[|ss| - 1]
  }

  /** The whole document: the header, the sections, the footer. */
  function Document(lay: Layout, sections: seq<string>): string
  {
    lay.header + Join(sections) + lay.footer
  }

  /** The second loop: `combined += section` for every selected id, between
      the header and the footer, printing a warning for every failed page. */
  method Assemble(lay: Layout, ids: seq<Id>, results: map<Id, Outcome>, names: map<Id, string>)
    returns (doc: string, warnings: seq<Warning>)
    ensures doc == Document(lay, Sections(lay, ids, results, names))
    ensures warnings == Warnings(ids, results, names)
  {
    doc := lay.header;
    warnings := [];
    var i := 0;
    while i < |ids|
      invariant 0 <= i <= |ids|
      invariant doc == lay.header + Join(Sections(lay, ids[..i], results, names))
      invariant warnings == Warnings(ids[..i], results, names)
    {
      var pid := ids[i];
      var o := Lookup(results, names, pid);
      JoinStep(lay, ids, results, names, i);
      WarningsStep(ids, results, names, i);
      doc, warnings := Emit(lay, o, doc, warnings);
      i := i + 1;
    }
    assert ids[..|ids|] == ids;
    doc := doc + lay.footer;
  }

  /** One pass of the loop body: warn if the page failed, append its section. */
  method Emit(lay: Layout, o: Outcome, doc: string, warnings: seq<Warning>) returns (doc': string, warnings': seq<Warning>)
    ensures doc' == doc + Section(lay, o)
    ensures warnings' == warnings + WarningOf(o)
  {
    warnings' := warnings;
    if HasError(o) {
      warnings' := warnings + [Warning(o.title, o.err.value)];
    }
    doc' := doc + Section(lay, o);
  }

  lemma {:induction false} WarningsStep(ids: seq<Id>, results: map<Id, Outcome>, names: map<Id, string>, i: nat)
    requires i < |ids|
    ensures Warnings(ids[..i + 1], results, names)
         == Warnings(ids[..i], results, names) + WarningOf(Lookup(results, names, ids[i]))
  {
    assert ids[..i + 1][..i] == ids[..i];
  }

  lemma {:induction false} JoinStep(lay: Layout, ids: seq<Id>, results: map<Id, Outcome>, names: map<Id, string>, i: nat)
    requires i < |ids|
    ensures lay.header + Join(Sections(lay, ids[..i + 1], results, names))
         == (lay.header + Join(Sections(lay, ids[..i], results, names))) + Section(lay, Lookup(results, names, ids[i]))
  {
    var ss := Sections(lay, ids[..i], results, names);
    var x := Section(lay, Lookup(results, names, ids[i]));
    SectionsSnoc(lay, ids, results, names, i);
    JoinSnoc(ss, x);
    assert lay.header + (Join(ss) + x) == (lay.header + Join(ss)) + x;
  }

  lemma {:induction false} SectionsSnoc(lay: Layout, ids: seq<Id>, results: map<Id, Outcome>, names: map<Id, string>, i: nat)
    requires i < |ids|
    ensures Sections(lay, ids[..i + 1], results, names)
         == Sections(lay, ids[..i], results, names) + [Section(lay, Lookup(results, names, ids[i]))]
  {
    assert ids[..i + 1][..i] == ids[..i];
  }

  lemma {:induction false} JoinSnoc(ss: seq<string>, x: string)
    ensures Join(ss + [x]) == Join(ss) + x
  {
    assert (ss + [x])[..|ss|] == ss;
  }

  /** How one export ends: `SystemExit(status)`, or the document written to
      `combined_report.html` / `combined_report.md` and the printed warnings. */
  datatype Report = Exited(status: int) | Written(doc: string, warnings: seq<Warning>)

  function ExportSpec(fmt: Format, env: Env, ids: seq<Id>, replies: nat -> GetResult<Body>): Report
  {
    match Gather(fmt, env, ids, replies, |ids|)
    case Halted(s, _) => Exited(s)
    case Gathered(m) =>
      Written(Document(LayoutOf(fmt), Sections(LayoutOf(fmt), ids, m, env.names)), Warnings(ids, m, env.names))
  }

  /** `export_pages_html` (with `Html`) and `export_pages_md` (with `Markdown`). */
  method ExportPages(fmt: Format, env: Env, ids: seq<Id>, nets: nat -> nat -> Attempt<Body>)
    returns (report: Report)
    ensures report == ExportSpec(fmt, env, ids, Replies(nets))
  {
    var g := CollectResults(fmt, env, ids, nets);
    if g.Halted? {
      return Exited(g.status);
    }
    var doc, warnings := Assemble(LayoutOf(fmt), ids, g.results, env.names);
    report := Written(doc, warnings);
  }

  // ---------------------------------------------------------------------
  // What the export promises.

  /** The last future among the first `n` that fetched `pid`, or -1. */
  function LastFetch(ids: seq<Id>, pid: Id, n: nat): (j: int)
    requires n <= |ids|
    ensures -1 <= j < n
    ensures j >= 0 ==> ids[j] == pid && forall l :: j < l < n ==> ids[l] != pid
    ensures j == -1 ==> forall l :: 0 <= l < n ==> ids[l] != pid
  {
    if n == 0 then -1 else if ids[n - 1] == pid then n - 1 else LastFetch(ids, pid, n - 1)
  }

  /** No future before `n` exits. */
  ghost predicate NoExitBefore(fmt: Format, env: Env, ids: seq<Id>, replies: nat -> GetResult<Body>, n: nat)
    requires n <= |ids|
  {
    forall l :: 0 <= l < n ==> FetchAt(fmt, env, ids, replies, l).Done?
  }

  /** Once the collection has halted, later futures change nothing. */
  lemma {:induction false} HaltedSticks(fmt: Format, env: Env, ids: seq<Id>, replies: nat -> GetResult<Body>, n: nat, m: nat)
    requires n <= m <= |ids| && Gather(fmt, env, ids, replies, n).Halted?
    ensures Gather(fmt, env, ids, replies, m) == Gather(fmt, env, ids, replies, n)
    decreases m - n
  {
    if n < m {
      HaltedSticks(fmt, env, ids, replies, n, m - 1);
    }
  }

  /** The collection halts exactly at the first future that exits. */
  lemma {:induction false} GatherHalts(fmt: Format, env: Env, ids: seq<Id>, replies: nat -> GetResult<Body>, n: nat)
    requires n <= |ids|
    ensures Gather(fmt, env, ids, replies, n).Gathered? <==> NoExitBefore(fmt, env, ids, replies, n)
    ensures Gather(fmt, env, ids, replies, n).Halted? ==>
      var g := Gather(fmt, env, ids, replies, n);
      g.at < n && NoExitBefore(fmt, env, ids, replies, g.at) && FetchAt(fmt, env, ids, replies, g.at) == Exits(g.status)
  {
    if n > 0 {
      GatherHalts(fmt, env, ids, replies, n - 1);
    }
  }

  /** After `n` futures without an exit, `results` has exactly the ids
      fetched so far, each with the outcome of its latest fetch. */
  lemma {:induction false} GatherResults(fmt: Format, env: Env, ids: seq<Id>, replies: nat -> GetResult<Body>, n: nat)
    requires n <= |ids| && Gather(fmt, env, ids, replies, n).Gathered?
    ensures var m := Gather(fmt, env, ids, replies, n).results;
      forall pid :: pid in m <==> pid in ids[..n]
    ensures var m := Gather(fmt, env, ids, replies, n).results;
      forall pid :: pid in m ==>
        LastFetch(ids, pid, n) >= 0 && FetchAt(fmt, env, ids, replies, LastFetch(ids, pid, n)) == Done(m[pid])
  {
    if n > 0 {
      GatherResults(fmt, env, ids, replies, n - 1);
      var m := Gather(fmt, env, ids, replies, n - 1).results;
      GatherNext(fmt, env, ids, replies, n - 1, m);
      var fetched := seq(n, l requires 0 <= l < n => FetchAt(fmt, env, ids, replies, l));
      LatestStep(ids, n, m, fetched);
    }
  }

  /** The `results[pid] = ...` of future `n - 1`, whatever the futures yield:
      `fetched[l]` is what future `l` yields. */
  lemma {:induction false} LatestStep(ids: seq<Id>, n: nat, m: map<Id, Outcome>, fetched: seq<Fetched>)
    requires 0 < n <= |ids| && |fetched| == n && fetched[n - 1].Done?
    requires forall pid :: pid in m <==> pid in ids[..n - 1]
    requires forall pid :: pid in m ==> LastFetch(ids, pid, n - 1) >= 0 && fetched[LastFetch(ids, pid, n - 1)] == Done(m[pid])
    ensures var m' := m[ids[n - 1] := fetched[n - 1].outcome];
      && (forall pid :: pid in m' <==> pid in ids[..n])
      && forall pid :: pid in m' ==> LastFetch(ids, pid, n) >= 0 && fetched[LastFetch(ids, pid, n)] == Done(m'[pid])
  {
    var m' := m[ids[n - 1] := fetched[n - 1].outcome];
    assert ids[..n] == ids[..n - 1] + [ids[n - 1]];
    forall pid | pid in m'
      ensures LastFetch(ids, pid, n) >= 0 && fetched[LastFetch(ids, pid, n)] == Done(m'[pid])
    {
      if pid != ids[n - 1] {
        assert LastFetch(ids, pid, n) == LastFetch(ids, pid, n - 1);
      }
    }
  }

  /** The export exits exactly when some future hits `SystemExit`, with the
      status of the first such future in selection order. */
  lemma ExportExits(fmt: Format, env: Env, ids: seq<Id>, replies: nat -> GetResult<Body>, k: nat)
    requires k < |ids| && NoExitBefore(fmt, env, ids, replies, k)
    requires FetchAt(fmt, env, ids, replies, k).Exits?
    ensures ExportSpec(fmt, env, ids, replies) == Exited(FetchAt(fmt, env, ids, replies, k).status)
  {
    GatherHalts(fmt, env, ids, replies, |ids|);
    var g := Gather(fmt, env, ids, replies, |ids|);
    assert !NoExitBefore(fmt, env, ids, replies, |ids|);
  }

  /** The last position holding the same id as position `k`. */
  function LastIndexOf(ids: seq<Id>, k: nat): (j: nat)
    requires k < |ids|
    ensures k <= j < |ids| && ids[j] == ids[k]
    ensures forall l :: j < l < |ids| ==> ids[l] != ids[k]
  {
    LastFetch(ids, ids[k], |ids|)
  }

  /** The outcome of the latest fetch of `ids[k]`. */
  ghost function LatestOutcome(fmt: Format, env: Env, ids: seq<Id>, replies: nat -> GetResult<Body>, k: nat): Outcome
    requires NoExitBefore(fmt, env, ids, replies, |ids|) && k < |ids|
  {
    FetchAt(fmt, env, ids, replies, LastIndexOf(ids, k)).outcome
  }

  /** Section `k` as determined by the latest fetch of `ids[k]` alone. */
  ghost function OutcomeSections(lay: Layout, fmt: Format, env: Env, ids: seq<Id>, replies: nat -> GetResult<Body>): (r: seq<string>)
    requires NoExitBefore(fmt, env, ids, replies, |ids|)
    ensures |r| == |ids|
    ensures forall k :: 0 <= k < |ids| ==> r[k] == Section(lay, LatestOutcome(fmt, env, ids, replies, k))
  {
    seq(|ids|, k requires 0 <= k < |ids| => Section(lay, LatestOutcome(fmt, env, ids, replies, k)))
  }

  /** Without an exit, every selected id finds its latest outcome in `results`. */
  lemma GatheredLookup(fmt: Format, env: Env, ids: seq<Id>, replies: nat -> GetResult<Body>)
    requires NoExitBefore(fmt, env, ids, replies, |ids|)
    ensures Gather(fmt, env, ids, replies, |ids|).Gathered?
    ensures var m := Gather(fmt, env, ids, replies, |ids|).results;
      forall k :: 0 <= k < |ids| ==> Lookup(m, env.names, ids[k]) == LatestOutcome(fmt, env, ids, replies, k)
  {
    GatherHalts(fmt, env, ids, replies, |ids|);
    GatherResults(fmt, env, ids, replies, |ids|);
    var m := Gather(fmt, env, ids, replies, |ids|).results;
    forall k | 0 <= k < |ids| ensures Lookup(m, env.names, ids[k]) == LatestOutcome(fmt, env, ids, replies, k) {
      assert ids[k] in ids[..|ids|];
    }
  }

  /** Without an exit, the sections built from `results` are those of the
      latest fetch of each selected id, whatever the layout. */
  lemma GatheredSections(lay: Layout, fmt: Format, env: Env, ids: seq<Id>, replies: nat -> GetResult<Body>)
    requires NoExitBefore(fmt, env, ids, replies, |ids|)
    ensures Gather(fmt, env, ids, replies, |ids|).Gathered?
    ensures Sections(lay, ids, Gather(fmt, env, ids, replies, |ids|).results, env.names)
         == OutcomeSections(lay, fmt, env, ids, replies)
  {
    GatheredLookup(fmt, env, ids, replies);
    var m := Gather(fmt, env, ids, replies, |ids|).results;
    var ss, ts := Sections(lay, ids, m, env.names), OutcomeSections(lay, fmt, env, ids, replies);
    SectionsAt(lay, ids, m, env.names);
    assert forall k :: 0 <= k < |ids| ==> ss[k] == ts[k];
  }

  /** When no future exits, the document holds exactly one section per
      selected id, in selection order, and each section is the one of the
      latest fetch of that id: the default `"No data"` is never used. */
  lemma ExportSections(fmt: Format, env: Env, ids: seq<Id>, replies: nat -> GetResult<Body>)
    requires NoExitBefore(fmt, env, ids, replies, |ids|)
    ensures ExportSpec(fmt, env, ids, replies).Written?
    ensures ExportSpec(fmt, env, ids, replies).doc
         == Document(LayoutOf(fmt), OutcomeSections(LayoutOf(fmt), fmt, env, ids, replies))
  {
    GatheredSections(LayoutOf(fmt), fmt, env, ids, replies);
  }

  /** A page's section depends on no other page: two networks that agree on
      every future fetching `ids[k]` give the same section `k`, whatever the
      others return. */
  lemma SectionIndependent(fmt: Format, env: Env, ids: seq<Id>, replies: nat -> GetResult<Body>, replies': nat -> GetResult<Body>, k: nat)
    requires NoExitBefore(fmt, env, ids, replies, |ids|) && NoExitBefore(fmt, env, ids, replies', |ids|)
    requires k < |ids|
    requires forall l :: 0 <= l < |ids| && ids[l] == ids[k] ==> replies(l) == replies'(l)
    ensures forall lay :: OutcomeSections(lay, fmt, env, ids, replies)[k] == OutcomeSections(lay, fmt, env, ids, replies')[k]
  {
    var j := LastIndexOf(ids, k);
    assert replies(j) == replies'(j);
  }

  /** The same id selected twice gets two identical sections. */
  lemma RepeatedIdSameSection(fmt: Format, env: Env, ids: seq<Id>, replies: nat -> GetResult<Body>, k: nat, l: nat)
    requires NoExitBefore(fmt, env, ids, replies, |ids|)
    requires k < |ids| && l < |ids| && ids[k] == ids[l]
    ensures forall lay :: OutcomeSections(lay, fmt, env, ids, replies)[k] == OutcomeSections(lay, fmt, env, ids, replies)[l]
  {
    assert LastIndexOf(ids, k) == LastIndexOf(ids, l);
  }

  /** The title written for a page: the API's title when it is non-empty,
      else `id_to_title[pid]`, else the id itself; a failed page always uses
      the fallback. */
  lemma TitleFallback(fmt: Format, env: Env, pid: Id, r: GetResult<Body>)
    requires Settle(fmt, env, pid, r).Done?
    ensures var t := Settle(fmt, env, pid, r).outcome.title;
      if r.Return? && r.body.Json? && r.body.title.Some? && r.body.title.value != "" then t == r.body.title.value
      else if pid in env.names then t == env.names[pid]
      else t == pid
  {
  }

  /** A page whose fetch failed gets the error placeholder as its body, unless
      the message is empty. */
  lemma ErrorPlaceholder(fmt: Format, env: Env, pid: Id, r: GetResult<Body>, lay: Layout)
    requires Settle(fmt, env, pid, r).Done? && !(r.Return? && r.body.Json?)
    ensures var o := Settle(fmt, env, pid, r).outcome;
      && (HasError(o) ==> Content(lay, o) == Placeholder(lay, o.err.value))
      && (!HasError(o) ==> Content(lay, o) == "")
  {
  }

  /** An id with no entry in `results` gets the `"No data"` placeholder under its fallback title. */
  lemma NoDataPlaceholder(lay: Layout, results: map<Id, Outcome>, names: map<Id, string>, pid: Id)
    requires pid !in results
    ensures Lookup(results, names, pid) == Outcome(Fallback(names, pid), None, Some(NoData))
    ensures Content(lay, Lookup(results, names, pid)) == Placeholder(lay, NoData)
  {
  }

  /** A page that was fetched keeps its body verbatim (converted to Markdown
      in that format), and raises no warning. */
  lemma FetchedBody(fmt: Format, env: Env, pid: Id, t: Option<string>, h: string)
    ensures forall lay :: Content(lay, Settle(fmt, env, pid, Return(Json(t, h))).outcome) == Convert(fmt, env, h)
    ensures !HasError(Settle(fmt, env, pid, Return(Json(t, h))).outcome)
  {
  }

  /** The ids whose outcome has an error, in selection order. */
  function Failing(ids: seq<Id>, results: map<Id, Outcome>, names: map<Id, string>): seq<Id>
  {
    if ids == [] then []
    else Failing(ids[..|ids| - 1], results, names)
         + (if HasError(Lookup(results, names, ids[|ids| - 1])) then [ids[|ids| - 1]] else [])
  }

  /** One warning per selected id whose outcome has an error, in order, with
      that page's title and message. */
  lemma {:induction false} WarningsFor(ids: seq<Id>, results: map<Id, Outcome>, names: map<Id, string>)
    ensures var ws, fs := Warnings(ids, results, names), Failing(ids, results, names);
      |ws| == |fs| && forall j :: 0 <= j < |fs| ==>
        HasError(Lookup(results, names, fs[j]))
        && ws[j] == Warning(Lookup(results, names, fs[j]).title, Lookup(results, names, fs[j]).err.value)
  {
    if ids != [] {
      WarningsFor(ids[..|ids| - 1], results, names);
    }
  }

  /** A page with an error appears among the failing ids, and only such pages do. */
  lemma {:induction false} FailingMembers(ids: seq<Id>, results: map<Id, Outcome>, names: map<Id, string>, pid: Id)
    ensures pid in Failing(ids, results, names) <==> pid in ids && HasError(Lookup(results, names, pid))
  {
    if ids != [] {
      var n := |ids| - 1;
      FailingMembers(ids[..n], results, names, pid);
      assert ids == ids[..n] + [ids[n]];
    }
  }

  /** The HTML section of a page, spelled out. */
  lemma HtmlSection(o: Outcome)
    ensures Section(LayoutOf(Html), o)
         == "<h1>" + o.title + "</h1>\n" + Content(LayoutOf(Html), o) + "\n<hr>\n<!-- End of page: " + o.title + " -->\n"
  {
  }

  /** The Markdown section of a page, spelled out. */
  lemma MarkdownSection(o: Outcome)
    ensures Section(LayoutOf(Markdown), o)
         == "# " + o.title + "\n\n" + Content(LayoutOf(Markdown), o) + "\n\n---\n*End of page: " + o.title + "*\n\n"
  {
  }
}
