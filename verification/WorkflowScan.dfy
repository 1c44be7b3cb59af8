/**
  The workflow-run stage of a backfill against a fixed provider: windows whose result is capped are
  bisected, newer half first, older halves waiting on a stack.
*/
module WorkflowScan {
  import opened Prelude
  import opened Jobs
  import opened Cursors

  const PAGE_SIZE := 50
  const RESULT_CAP := 1000

  datatype Run = Run(id: nat, createdAt: Instant)

  datatype ScanError = InvalidScanWindow | TooDense(window: Window)

  predicate Within(t: Instant, window: Window) {
    window.start <= t <= window.end
  }

  /** The provider's filter `created:start..end`, both ends included, in its own order. */
  function Matching(runs: seq<Run>, window: Window): seq<Run> {
    if runs == [] then []
    else (if Within(runs[0].createdAt, window) then [runs[0]] else []) + Matching(runs[1..], window)
  }

  /** The first `pages` pages of a result, of which the provider serves at most RESULT_CAP items. */
  function ReadUpTo(runs: seq<Run>, window: Window, pages: nat): seq<Run> {
    var found := Matching(runs, window);
    found[..Min(Min(pages * PAGE_SIZE, RESULT_CAP), |found|)]
  }

  datatype ProviderPage = ProviderPage(items: seq<Run>, nextPage: Option<int>, total: nat)

  function ListWorkflowRuns(runs: seq<Run>, window: Window, page: nat): ProviderPage
    requires 1 <= page
  {
    var items := ReadUpTo(runs, window, page)[|ReadUpTo(runs, window, page - 1)|..];
    var total := |Matching(runs, window)|;
    ProviderPage(items, if page * PAGE_SIZE < total && |items| == PAGE_SIZE then Some(page + 1) else None, total)
  }

  function Width(window: Window): int {
    window.end - window.start
  }

  /** Division of a timedelta by two: half-even rounding to whole microseconds. */
  function HalfEven(d: nat): nat {
    if d % 2 == 1 && d / 2 % 2 == 1 then d / 2 + 1 else d / 2
  }

  function Midpoint(window: Window): Instant
    requires NonEmpty(window)
  {
    window.start + HalfEven(Width(window))
  }

  /** One lease of the stage: the next cursor, if any, and the runs normalized on the way. */
  function ProcessPage(runs: seq<Run>, page: int, window: Window, pending: seq<Window>)
    : (Result<Option<Cursor>, ScanError>, seq<Run>)
  {
    if !NonEmpty(window) || page < 1 then (Err(InvalidScanWindow), [])
    else
      var result := ListWorkflowRuns(runs, window, page);
      if page == 1 && result.total >= RESULT_CAP then
        if Width(window) <= SECOND then (Err(TooDense(window)), [])
        else
          var mid := Midpoint(window);
          (Ok(Some(Scan(1, Window(mid, window.end), [Window(window.start, mid)] + pending))), [])
      else
        (Ok(if result.nextPage.Some? then Some(Scan(result.nextPage.value, window, pending))
            else if pending != [] then Some(Scan(1, pending[0], pending[1..]))
            else None),
         result.items)
  }

  /** The deployments table as a sink: normalizing a run is recorded, and repeats are harmless. */
  class RunSink {
    var normalized: seq<Run>

    constructor ()
      ensures normalized == []
    {
      normalized := [];
    }

    method Upsert(run: Run)
      modifies this
      ensures normalized == old(normalized) + [run]
    {
      normalized := normalized + [run];
    }
  }

  method ProcessWorkflowRunPage(runs: seq<Run>, page: int, window: Window, pending: seq<Window>, sink: RunSink)
    returns (r: Result<Option<Cursor>, ScanError>)
    modifies sink
    ensures r == ProcessPage(runs, page, window, pending).0
    ensures sink.normalized == old(sink.normalized) + ProcessPage(runs, page, window, pending).1
  {
    if window.start >= window.end || page < 1 {
      return Err(InvalidScanWindow);
    }
    var result := ListWorkflowRuns(runs, window, page);
    if page == 1 && result.total >= RESULT_CAP {
      if window.end - window.start <= SECOND {
        return Err(TooDense(window));
      }
      var mid := window.start + HalfEven(window.end - window.start);
      return Ok(Some(Scan(1, Window(mid, window.end), [Window(window.start, mid)] + pending)));
    }
    ghost var before := sink.normalized;
    for i := 0 to |result.items|
      invariant sink.normalized == before + result.items[..i]
    {
      sink.Upsert(result.items[i]);
    }
    assert result.items[..|result.items|] == result.items;
    if result.nextPage.Some? {
      r := Ok(Some(Scan(result.nextPage.value, window, pending)));
    } else if pending != [] {
      r := Ok(Some(Scan(1, pending[0], pending[1..])));
    } else {
      r := Ok(None);
    }
  }

  // ----- bisection arithmetic ------------------------------------------------------------------

  /** Half of a duration, rounded to the even microsecond. */
  lemma HalfEvenRounds(d: nat)
    ensures d % 2 == 0 ==> 2 * HalfEven(d) == d
    ensures d % 2 == 1 ==> HalfEven(d) % 2 == 0 && -1 <= 2 * HalfEven(d) - d <= 1
  {
  }

  lemma HalvesAreClose(d: nat)
    ensures -1 <= HalfEven(d) - (d - HalfEven(d)) <= 1
    ensures 2 <= d ==> 0 < HalfEven(d) < d
  {
  }

  /** A window splits into two non-empty windows that share one instant and halve its width. */
  lemma SplitHalves(window: Window)
    requires Width(window) > SECOND
    ensures var mid := Midpoint(window);
            && window.start < mid < window.end
            && Width(Window(window.start, mid)) + Width(Window(mid, window.end)) == Width(window)
            && -1 <= Width(Window(window.start, mid)) - Width(Window(mid, window.end)) <= 1
  {
    HalvesAreClose(Width(window));
  }

  // ----- the page counter ----------------------------------------------------------------------

  /** Past page one, the window's whole result is below the cap and this page exists. */
  predicate PageOk(runs: seq<Run>, page: int, window: Window) {
    && 1 <= page
    && (1 < page ==>
          |Matching(runs, window)| < RESULT_CAP && (page - 1) * PAGE_SIZE < |Matching(runs, window)|)
  }

  /** An uncapped page extends what was read; without a next page everything has been read. */
  lemma PageReads(runs: seq<Run>, page: nat, window: Window)
    requires PageOk(runs, page, window) && |Matching(runs, window)| < RESULT_CAP
    ensures var result := ListWorkflowRuns(runs, window, page);
            && ReadUpTo(runs, window, page) == ReadUpTo(runs, window, page - 1) + result.items
            && (result.nextPage.Some? ==>
                  result.nextPage == Some(page + 1) && PageOk(runs, page + 1, window) && |result.items| == 50)
            && (result.nextPage.None? ==> ReadUpTo(runs, window, page) == Matching(runs, window))
  {
    var found := Matching(runs, window);
    assert ReadUpTo(runs, window, page)[..|ReadUpTo(runs, window, page - 1)|] == ReadUpTo(runs, window, page - 1);
    assert found[..|found|] == found;
  }

  lemma {:induction false} MatchingCounts(runs: seq<Run>, window: Window, run: Run)
    ensures multiset(Matching(runs, window))[run]
         == if Within(run.createdAt, window) then multiset(runs)[run] else 0
  {
    if runs != [] {
      MatchingCounts(runs[1..], window, run);
      assert runs == [runs[0]] + runs[1..];
    }
  }

  // ----- termination ---------------------------------------------------------------------------

  function Weight(windows: seq<Window>): int {
    if windows == [] then 0 else 2 * Width(windows[0]) - 1 + Weight(windows[1..])
  }

  ghost predicate Windows(window: Window, pending: seq<Window>) {
    NonEmpty(window) && forall w | w in pending :: NonEmpty(w)
  }

  lemma {:induction false} WeightIsNat(windows: seq<Window>)
    requires forall w | w in windows :: NonEmpty(w)
    ensures 0 <= Weight(windows)
  {
    if windows != [] {
      assert NonEmpty(windows[0]);
      WeightIsNat(windows[1..]);
    }
  }

  function PagesLeft(runs: seq<Run>, page: int, window: Window): int {
    Max(0, |Matching(runs, window)| - (page - 1) * PAGE_SIZE)
  }

  ghost predicate ScanOk(runs: seq<Run>, cursor: Cursor) {
    cursor.Scan? && Windows(cursor.window, cursor.pending) && PageOk(runs, cursor.page, cursor.window)
  }

  /** Splits and finished windows lower the total weight; page advances keep it and leave fewer items. */
  lemma PageDecreases(runs: seq<Run>, cursor: Cursor)
    requires ScanOk(runs, cursor)
    requires var r := ProcessPage(runs, cursor.page, cursor.window, cursor.pending).0; r.Ok? && r.value.Some?
    ensures var next := ProcessPage(runs, cursor.page, cursor.window, cursor.pending).0.value.value;
            && ScanOk(runs, next)
            && var (w, v) := (Weight([cursor.window] + cursor.pending), Weight([next.window] + next.pending));
               && 0 <= v <= w
               && (v == w ==> next.window == cursor.window
                              && PagesLeft(runs, next.page, next.window) < PagesLeft(runs, cursor.page, cursor.window))
  {
    var next := ProcessPage(runs, cursor.page, cursor.window, cursor.pending).0.value.value;
    var result := ListWorkflowRuns(runs, cursor.window, cursor.page);
    assert ([cursor.window] + cursor.pending)[1..] == cursor.pending;
    if cursor.page == 1 && result.total >= RESULT_CAP {
      SplitHalves(cursor.window);
      var older := Window(cursor.window.start, next.window.start);
      assert ([next.window] + next.pending)[1..] == [older] + cursor.pending;
      assert ([older] + cursor.pending)[1..] == cursor.pending;
    } else {
      PageReads(runs, cursor.page, cursor.window);
      if result.nextPage.None? {
        assert [next.window] + next.pending == cursor.pending;
      }
    }
    WeightIsNat([next.window] + next.pending);
  }

  datatype ScanEnd =
    | Complete(seen: multiset<Run>, splits: set<Instant>)
    | Dense(window: Window)
    | Rejected

  /** The whole scan: leases follow one another until no cursor is left. Its termination is a theorem. */
  ghost function RunScan(runs: seq<Run>, cursor: Cursor, seen: multiset<Run>, splits: set<Instant>): ScanEnd
    requires ScanOk(runs, cursor)
    decreases Max(0, Weight([cursor.window] + cursor.pending)), PagesLeft(runs, cursor.page, cursor.window)
  {
    var (r, items) := ProcessPage(runs, cursor.page, cursor.window, cursor.pending);
    match r
    case Err(TooDense(window)) => Dense(window)
    case Err(InvalidScanWindow) => Rejected
    case Ok(None) => Complete(seen + multiset(items), splits)
    case Ok(Some(next)) =>
      PageDecreases(runs, cursor);
      RunScan(runs, next, seen + multiset(items), splits + SplitPoints(cursor, next))
  }

  /** The instant a split introduced: history, for stating where a run can be seen twice. */
  function SplitPoints(cursor: Cursor, next: Cursor): set<Instant>
    requires cursor.Scan? && next.Scan?
  {
    if |next.pending| > |cursor.pending| then {next.window.start} else {}
  }
}
