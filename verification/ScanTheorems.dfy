/** Coverage of the workflow-run scan, and the bound on its stack of pending windows. */
module ScanTheorems {
  import opened Prelude
  import opened Jobs
  import opened Cursors
  import opened WorkflowScan

  // ----- coverage ------------------------------------------------------------------------------

  /** The pending windows continue each other downwards, from `top` to `cutoff`. */
  ghost predicate Descends(pending: seq<Window>, top: Instant, cutoff: Instant) {
    if pending == [] then top == cutoff
    else pending[0].end == top && NonEmpty(pending[0]) && Descends(pending[1..], pending[0].start, cutoff)
  }

  /** Split points lie strictly between the ends, never inside an open window, and at its ends. */
  ghost predicate Fenced(window: Window, splits: set<Instant>, cutoff: Instant) {
    && (forall x | x in splits :: !(window.start < x < window.end))
    && (window.start == cutoff || window.start in splits)
  }

  ghost predicate SplitsOk(cursor: Cursor, splits: set<Instant>, cutoff: Instant, startedAt: Instant)
    requires cursor.Scan?
  {
    && (forall x | x in splits :: cutoff < x < startedAt)
    && (cursor.window.end == startedAt || cursor.window.end in splits)
    && Fenced(cursor.window, splits, cutoff)
    && (forall w | w in cursor.pending :: Fenced(w, splits, cutoff))
  }

  /** How often a run has been normalized, for a run above, at or below the current window's end. */
  ghost function Expected(runs: seq<Run>, cursor: Cursor, splits: set<Instant>, cutoff: Instant, startedAt: Instant,
                          run: Run): int
    requires cursor.Scan? && 1 <= cursor.page
  {
    var n := multiset(runs)[run];
    var reading := multiset(ReadUpTo(runs, cursor.window, cursor.page - 1))[run];
    if run.createdAt > cursor.window.end then
      if run.createdAt > startedAt then 0 else if run.createdAt in splits then 2 * n else n
    else if run.createdAt == cursor.window.end && cursor.window.end < startedAt then n + reading
    else reading
  }

  ghost predicate Covered(runs: seq<Run>, cursor: Cursor, seen: multiset<Run>, splits: set<Instant>,
                          cutoff: Instant, startedAt: Instant)
  {
    && ScanOk(runs, cursor)
    && cutoff <= cursor.window.start && cursor.window.end <= startedAt
    && Descends(cursor.pending, cursor.window.start, cutoff)
    && SplitsOk(cursor, splits, cutoff, startedAt)
    && forall run :: seen[run] == Expected(runs, cursor, splits, cutoff, startedAt, run)
  }

  lemma {:induction false} DescendsBelow(pending: seq<Window>, top: Instant, cutoff: Instant)
    requires Descends(pending, top, cutoff)
    ensures cutoff <= top
    ensures forall w | w in pending :: cutoff <= w.start && w.end <= top && NonEmpty(w)
  {
    if pending != [] {
      DescendsBelow(pending[1..], pending[0].start, cutoff);
      assert pending == [pending[0]] + pending[1..];
    }
  }

  /** A capped window is split: nothing is normalized, and the two halves meet at a new split point. */
  lemma SplitKeepsCover(runs: seq<Run>, cursor: Cursor, next: Cursor, seen: multiset<Run>, splits: set<Instant>,
                        cutoff: Instant, startedAt: Instant)
    requires Covered(runs, cursor, seen, splits, cutoff, startedAt)
    requires cursor.page == 1 && |Matching(runs, cursor.window)| >= RESULT_CAP
    requires ProcessPage(runs, cursor.page, cursor.window, cursor.pending) == (Ok(Some(next)), [])
    ensures Covered(runs, next, seen, splits + {next.window.start}, cutoff, startedAt)
  {
    var mid := next.window.start;
    var older := Window(cursor.window.start, mid);
    SplitHalves(cursor.window);
    DescendsBelow(cursor.pending, cursor.window.start, cutoff);
    assert next.pending[1..] == cursor.pending;
    forall w | w in next.pending ensures NonEmpty(w) && Fenced(w, splits + {mid}, cutoff) {
      if w != older {
        assert w in cursor.pending;
      }
    }
    assert ReadUpTo(runs, cursor.window, 0) == [] && ReadUpTo(runs, next.window, 0) == [];
    forall run ensures seen[run] == Expected(runs, next, splits + {mid}, cutoff, startedAt, run) {
      assert seen[run] == Expected(runs, cursor, splits, cutoff, startedAt, run);
    }
  }

  /** After a page that is not the window's last, its items have been normalized once more. */
  lemma PageCounts(runs: seq<Run>, cursor: Cursor, next: Cursor, items: seq<Run>, seen: multiset<Run>,
                   splits: set<Instant>, cutoff: Instant, startedAt: Instant, run: Run)
    requires Covered(runs, cursor, seen, splits, cutoff, startedAt) && 2 <= next.page
    requires next == Scan(next.page, cursor.window, cursor.pending)
    requires ReadUpTo(runs, cursor.window, next.page - 1) == ReadUpTo(runs, cursor.window, cursor.page - 1) + items
    ensures (seen + multiset(items))[run] == Expected(runs, next, splits, cutoff, startedAt, run)
  {
    assert seen[run] == Expected(runs, cursor, splits, cutoff, startedAt, run);
    MatchingCounts(runs, cursor.window, run);
    ReadWithin(runs, cursor.window, next.page - 1, run);
  }

  lemma AdvanceKeepsCover(runs: seq<Run>, cursor: Cursor, next: Cursor, items: seq<Run>, seen: multiset<Run>,
                          splits: set<Instant>, cutoff: Instant, startedAt: Instant)
    requires Covered(runs, cursor, seen, splits, cutoff, startedAt)
    requires |Matching(runs, cursor.window)| < RESULT_CAP
    requires ListWorkflowRuns(runs, cursor.window, cursor.page).nextPage.Some?
    requires ProcessPage(runs, cursor.page, cursor.window, cursor.pending) == (Ok(Some(next)), items)
    ensures Covered(runs, next, seen + multiset(items), splits, cutoff, startedAt)
  {
    PageReads(runs, cursor.page, cursor.window);
    forall run ensures (seen + multiset(items))[run] == Expected(runs, next, splits, cutoff, startedAt, run) {
      PageCounts(runs, cursor, next, items, seen, splits, cutoff, startedAt, run);
    }
  }

  lemma ReadWithin(runs: seq<Run>, window: Window, pages: nat, run: Run)
    ensures multiset(ReadUpTo(runs, window, pages))[run] <= multiset(Matching(runs, window))[run]
  {
    var found := Matching(runs, window);
    var k := |ReadUpTo(runs, window, pages)|;
    assert found == found[..k] + found[k..];
  }

  /** After a window's last page every run in it has been normalized once more. */
  lemma WindowEnds(runs: seq<Run>, cursor: Cursor, items: seq<Run>, seen: multiset<Run>, splits: set<Instant>,
                   cutoff: Instant, startedAt: Instant, run: Run)
    requires Covered(runs, cursor, seen, splits, cutoff, startedAt)
    requires |Matching(runs, cursor.window)| < RESULT_CAP
    requires items == ListWorkflowRuns(runs, cursor.window, cursor.page).items
    requires ListWorkflowRuns(runs, cursor.window, cursor.page).nextPage.None?
    ensures var n := multiset(runs)[run];
            (seen + multiset(items))[run] ==
              if run.createdAt > startedAt || run.createdAt < cursor.window.start then 0
              else if run.createdAt == cursor.window.start then n
              else if run.createdAt in splits then 2 * n else n
  {
    assert seen[run] == Expected(runs, cursor, splits, cutoff, startedAt, run);
    PageReads(runs, cursor.page, cursor.window);
    MatchingCounts(runs, cursor.window, run);
    var read := multiset(ReadUpTo(runs, cursor.window, cursor.page - 1));
    assert read[run] + multiset(items)[run] == multiset(Matching(runs, cursor.window))[run];
  }

  lemma NextWindowKeepsCover(runs: seq<Run>, cursor: Cursor, next: Cursor, items: seq<Run>, seen: multiset<Run>,
                             splits: set<Instant>, cutoff: Instant, startedAt: Instant)
    requires Covered(runs, cursor, seen, splits, cutoff, startedAt)
    requires |Matching(runs, cursor.window)| < RESULT_CAP
    requires ListWorkflowRuns(runs, cursor.window, cursor.page).nextPage.None?
    requires ProcessPage(runs, cursor.page, cursor.window, cursor.pending) == (Ok(Some(next)), items)
    ensures Covered(runs, next, seen + multiset(items), splits, cutoff, startedAt)
  {
    DescendsBelow(cursor.pending, cursor.window.start, cutoff);
    assert next.window == cursor.pending[0];
    DescendsBelow(next.pending, next.window.start, cutoff);
    assert ReadUpTo(runs, next.window, 0) == [];
    forall run ensures (seen + multiset(items))[run] == Expected(runs, next, splits, cutoff, startedAt, run) {
      WindowEnds(runs, cursor, items, seen, splits, cutoff, startedAt, run);
    }
  }

  /** Every run was normalized exactly once, or twice if a split fell on its instant; no other run was. */
  ghost predicate FullyCovered(runs: seq<Run>, seen: multiset<Run>, splits: set<Instant>, cutoff: Instant,
                               startedAt: Instant)
  {
    forall run :: seen[run] ==
      if !(cutoff <= run.createdAt <= startedAt) then 0
      else if run.createdAt in splits then 2 * multiset(runs)[run] else multiset(runs)[run]
  }

  /** Complete coverage, or proof that at least 1,000 runs share a window of at most one second. */
  ghost predicate EndsWell(runs: seq<Run>, end: ScanEnd, cutoff: Instant, startedAt: Instant) {
    && !end.Rejected?
    && (end.Complete? ==> FullyCovered(runs, end.seen, end.splits, cutoff, startedAt)
                          && forall x | x in end.splits :: cutoff < x < startedAt)
    && (end.Dense? ==> NonEmpty(end.window) && Width(end.window) <= 1_000_000
                       && cutoff <= end.window.start && end.window.end <= startedAt
                       && |Matching(runs, end.window)| >= 1_000)
  }

  /** One lease that goes on keeps the coverage invariant, with the split points it adds. */
  lemma CoverGoesOn(runs: seq<Run>, cursor: Cursor, next: Cursor, items: seq<Run>, seen: multiset<Run>,
                    splits: set<Instant>, cutoff: Instant, startedAt: Instant)
    requires Covered(runs, cursor, seen, splits, cutoff, startedAt)
    requires ProcessPage(runs, cursor.page, cursor.window, cursor.pending) == (Ok(Some(next)), items)
    ensures Covered(runs, next, seen + multiset(items), splits + SplitPoints(cursor, next), cutoff, startedAt)
  {
    if cursor.page == 1 && |Matching(runs, cursor.window)| >= RESULT_CAP {
      SplitKeepsCover(runs, cursor, next, seen, splits, cutoff, startedAt);
      assert seen + multiset(items) == seen;
    } else if ListWorkflowRuns(runs, cursor.window, cursor.page).nextPage.Some? {
      AdvanceKeepsCover(runs, cursor, next, items, seen, splits, cutoff, startedAt);
      assert splits + {} == splits;
    } else {
      NextWindowKeepsCover(runs, cursor, next, items, seen, splits, cutoff, startedAt);
      assert splits + {} == splits;
    }
  }

  /** A lease that ends the scan leaves complete coverage. */
  lemma CoverEnds(runs: seq<Run>, cursor: Cursor, items: seq<Run>, seen: multiset<Run>, splits: set<Instant>,
                  cutoff: Instant, startedAt: Instant)
    requires Covered(runs, cursor, seen, splits, cutoff, startedAt)
    requires ProcessPage(runs, cursor.page, cursor.window, cursor.pending) == (Ok(None), items)
    ensures FullyCovered(runs, seen + multiset(items), splits, cutoff, startedAt)
  {
    forall run ensures (seen + multiset(items))[run] ==
      if !(cutoff <= run.createdAt <= startedAt) then 0
      else if run.createdAt in splits then 2 * multiset(runs)[run] else multiset(runs)[run]
    {
      WindowEnds(runs, cursor, items, seen, splits, cutoff, startedAt, run);
    }
  }

  lemma {:induction false} ScanCovers(runs: seq<Run>, cursor: Cursor, seen: multiset<Run>, splits: set<Instant>,
                                      cutoff: Instant, startedAt: Instant)
    requires Covered(runs, cursor, seen, splits, cutoff, startedAt)
    ensures EndsWell(runs, RunScan(runs, cursor, seen, splits), cutoff, startedAt)
    decreases Max(0, Weight([cursor.window] + cursor.pending)), PagesLeft(runs, cursor.page, cursor.window)
  {
    var (r, items) := ProcessPage(runs, cursor.page, cursor.window, cursor.pending);
    if r.Ok? && r.value.Some? {
      var next := r.value.value;
      PageDecreases(runs, cursor);
      CoverGoesOn(runs, cursor, next, items, seen, splits, cutoff, startedAt);
      ScanCovers(runs, next, seen + multiset(items), splits + SplitPoints(cursor, next), cutoff, startedAt);
    } else if r.Ok? {
      CoverEnds(runs, cursor, items, seen, splits, cutoff, startedAt);
    }
  }

  /** A scan's first cursor covers nothing yet. */
  lemma CoverStarts(runs: seq<Run>, cutoff: Instant, startedAt: Instant)
    requires cutoff < startedAt
    ensures Covered(runs, Scan(1, Window(cutoff, startedAt), []), multiset{}, {}, cutoff, startedAt)
  {
    assert ReadUpTo(runs, Window(cutoff, startedAt), 0) == [];
  }

  /**
    The scan a backfill starts, against a fixed provider: it always ends. Without an error every run
    created in [cutoff, startedAt] was normalized at least once, and at most twice, the second time
    only at an instant where windows meet. The one possible error is 1,000 runs within a second.
  */
  lemma BackfillScanCovers(runs: seq<Run>, cutoff: Instant, startedAt: Instant)
    requires cutoff < startedAt
    ensures EndsWell(runs, RunScan(runs, Scan(1, Window(cutoff, startedAt), []), multiset{}, {}), cutoff, startedAt)
  {
    CoverStarts(runs, cutoff, startedAt);
    ScanCovers(runs, Scan(1, Window(cutoff, startedAt), []), multiset{}, {}, cutoff, startedAt);
  }
}
