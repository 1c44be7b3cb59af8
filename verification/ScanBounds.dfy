/** The stack of pending windows stays logarithmic, so the 64-entry check never rejects it. */
module ScanBounds {
  import opened Prelude
  import opened Jobs
  import opened Cursors
  import opened WorkflowScan

  const DAY: int := 86_400 * SECOND
  const MAX_SPAN: int := 365 * DAY
  const DEEPEST := 25

  /** What the provider holds at each lease; it may change from one to the next. */
  type Provider = nat -> seq<Run>

  /** The cursor after n leases of the scan, while it goes on. */
  ghost function NthCursor(provider: Provider, first: Cursor, n: nat): Option<Cursor>
    requires first.Scan?
    ensures NthCursor(provider, first, n).Some? ==> NthCursor(provider, first, n).value.Scan?
  {
    if n == 0 then Some(first)
    else
      match NthCursor(provider, first, n - 1)
      case None => None
      case Some(c) =>
        var (r, _) := ProcessPage(provider(n - 1), c.page, c.window, c.pending);
        if r.Ok? then r.value else None
  }

  ghost predicate Sound(cursor: Cursor) {
    cursor.Scan? && 1 <= cursor.page && Windows(cursor.window, cursor.pending)
  }

  /** A window left after m halvings of the span, up to rounding. */
  ghost predicate AfterHalvings(window: Window, m: nat, span: int) {
    (Width(window) - 1) * Pow2(m) <= span - 1
  }

  /** Entry i of the stack has been halved once more than there are entries beneath it. */
  ghost predicate Halved(cursor: Cursor, span: int)
    requires cursor.Scan?
  {
    && AfterHalvings(cursor.window, |cursor.pending|, span)
    && forall i | 0 <= i < |cursor.pending| :: AfterHalvings(cursor.pending[i], |cursor.pending| - i, span)
  }

  /** From the current window down the stack, widths at least double, up to rounding. */
  ghost predicate Doubling(cursor: Cursor)
    requires cursor.Scan?
  {
    var pending := cursor.pending;
    && (pending != [] ==> Width(cursor.window) <= Width(pending[0]) + 1)
    && forall i | 0 <= i < |pending| - 1 :: 2 * Width(pending[i]) <= Width(pending[i + 1]) + 2
  }

  lemma HalvingStep(window: Window, half: Window, m: nat, span: int)
    requires AfterHalvings(window, m, span)
    requires 2 * Width(half) <= Width(window) + 1
    ensures AfterHalvings(half, m + 1, span)
  {
    Pow2Grows(0, m);
    MulMonotone((Width(half) - 1) * 2, Width(window) - 1, Pow2(m));
    assert (Width(half) - 1) * Pow2(m + 1) == ((Width(half) - 1) * 2) * Pow2(m);
  }

  lemma MulMonotone(x: int, y: int, k: nat)
    requires x <= y
    ensures x * k <= y * k
  {
  }

  lemma FewerHalvings(window: Window, m: nat, span: int)
    requires NonEmpty(window) && AfterHalvings(window, m + 1, span)
    ensures AfterHalvings(window, m, span)
  {
    var w := Width(window) - 1;
    assert w * Pow2(m + 1) == w * Pow2(m) + w * Pow2(m);
    assert 0 <= w * Pow2(m);
  }

  lemma Pow2Of25()
    ensures Pow2(25) == 33_554_432 && Pow2(24) == 16_777_216
  {
    assert Pow2(5) == 32;
    assert Pow2(10) == 1024;
    assert Pow2(15) == 32_768;
    assert Pow2(20) == 1_048_576;
    assert Pow2(24) == 16_777_216;
  }

  /** A window wider than a second has at most 24 entries beneath it. */
  lemma SplittableIsShallow(window: Window, m: nat, span: int)
    requires AfterHalvings(window, m, span) && span <= MAX_SPAN && SECOND < Width(window)
    ensures m < DEEPEST
  {
    Pow2Of25();
    MulMonotone(SECOND, Width(window) - 1, Pow2(m));
    if DEEPEST <= m {
      Pow2Grows(DEEPEST, m);
    }
  }

  /** Splitting a window wider than a second pushes one more level. */
  lemma StackPush(window: Window, pending: seq<Window>, span: int)
    requires Sound(Scan(1, window, pending)) && Halved(Scan(1, window, pending), span)
    requires Doubling(Scan(1, window, pending)) && span <= MAX_SPAN && SECOND < Width(window)
    ensures var mid := Midpoint(window);
            var next := Scan(1, Window(mid, window.end), [Window(window.start, mid)] + pending);
            Sound(next) && Halved(next, span) && Doubling(next) && |next.pending| <= DEEPEST
  {
    var mid := Midpoint(window);
    var (later, earlier) := (Window(mid, window.end), Window(window.start, mid));
    var next := [earlier] + pending;
    SplitHalves(window);
    SplittableIsShallow(window, |pending|, span);
    HalvingStep(window, later, |pending|, span);
    HalvingStep(window, earlier, |pending|, span);
    forall i | 0 <= i < |next| ensures AfterHalvings(next[i], |next| - i, span) {
      assert 0 < i ==> next[i] == pending[i - 1];
    }
    forall i | 0 <= i < |next| - 1 ensures 2 * Width(next[i]) <= Width(next[i + 1]) + 2 {
      assert 0 < i ==> next[i] == pending[i - 1];
      assert next[i + 1] == pending[i];
    }
  }

  /** Finishing a window pops one level. */
  lemma StackPop(window: Window, page: nat, pending: seq<Window>, span: int)
    requires Sound(Scan(page, window, pending)) && Halved(Scan(page, window, pending), span)
    requires Doubling(Scan(page, window, pending)) && pending != []
    ensures var next := Scan(1, pending[0], pending[1..]);
            Sound(next) && Halved(next, span) && Doubling(next)
  {
    var (m, rest) := (|pending|, pending[1..]);
    assert AfterHalvings(pending[0], m, span);
    FewerHalvings(pending[0], m - 1, span);
    forall i | 0 <= i < |rest| ensures AfterHalvings(rest[i], |rest| - i, span) {
      assert rest[i] == pending[i + 1];
      assert AfterHalvings(pending[i + 1], m - (i + 1), span);
    }
    if 1 < m {
      assert 2 * Width(pending[0]) <= Width(pending[1]) + 2;
    }
    forall i | 0 <= i < |rest| - 1 ensures 2 * Width(rest[i]) <= Width(rest[i + 1]) + 2 {
      assert rest[i] == pending[i + 1] && rest[i + 1] == pending[i + 2];
    }
  }

  /** One lease keeps the stack in shape, whatever the provider answers. */
  lemma StackStep(runs: seq<Run>, cursor: Cursor, span: int)
    requires Sound(cursor) && Halved(cursor, span) && Doubling(cursor) && span <= MAX_SPAN
    requires |cursor.pending| <= DEEPEST
    requires var r := ProcessPage(runs, cursor.page, cursor.window, cursor.pending).0; r.Ok? && r.value.Some?
    ensures var next := ProcessPage(runs, cursor.page, cursor.window, cursor.pending).0.value.value;
            && Sound(next) && Halved(next, span) && Doubling(next) && |next.pending| <= DEEPEST
  {
    if cursor.page == 1 && |Matching(runs, cursor.window)| >= RESULT_CAP {
      StackPush(cursor.window, cursor.pending, span);
    } else if ListWorkflowRuns(runs, cursor.window, cursor.page).nextPage.None? {
      StackPop(cursor.window, cursor.page, cursor.pending, span);
    }
  }

  ghost predicate InShape(cursor: Cursor, span: int) {
    Sound(cursor) && Halved(cursor, span) && Doubling(cursor) && |cursor.pending| <= DEEPEST
  }

  lemma {:induction false} StackKeepsShape(provider: Provider, first: Cursor, span: int, n: nat)
    requires InShape(first, span) && span <= MAX_SPAN
    ensures var c := NthCursor(provider, first, n); c.Some? ==> InShape(c.value, span)
  {
    if 0 < n && NthCursor(provider, first, n).Some? {
      StackKeepsShape(provider, first, span, n - 1);
      StackStep(provider(n - 1), NthCursor(provider, first, n - 1).value, span);
    }
  }

  /**
    Whatever the provider answers, even if it changes, at every lease of a scan over at most 365 days
    the stack holds at most 25 windows, each at least about twice as wide as the one above it, and
    the cursor passes validation unchanged on the next lease.
  */
  lemma StackIsLogarithmic(provider: Provider, cutoff: Instant, startedAt: Instant, n: nat)
    requires cutoff < startedAt <= cutoff + MAX_SPAN
    ensures var c := NthCursor(provider, Scan(1, Window(cutoff, startedAt), []), n);
            c.Some? ==>
              && InShape(c.value, startedAt - cutoff)
              && ParseCursor(EmitCursor(c.value), cutoff, startedAt, OpenPullRequests) == Ok(c.value)
  {
    var first := Scan(1, Window(cutoff, startedAt), []);
    var c := NthCursor(provider, first, n);
    StackKeepsShape(provider, first, startedAt - cutoff, n);
    if c.Some? {
      CursorRoundTrips(c.value, cutoff, startedAt, OpenPullRequests);
    }
  }

  /** After m splits of a span the newest window is still at least this wide, up to rounding. */
  ghost predicate StillWide(window: Window, m: nat, span: int) {
    span + 1 <= (Width(window) + 1) * Pow2(m)
  }

  lemma WideStep(window: Window, half: Window, m: nat, span: int)
    requires StillWide(window, m, span) && Width(window) <= 2 * Width(half) + 1
    ensures StillWide(half, m + 1, span)
  {
    MulMonotone(Width(window) + 1, (Width(half) + 1) * 2, Pow2(m));
    assert (Width(half) + 1) * Pow2(m + 1) == ((Width(half) + 1) * 2) * Pow2(m);
  }

  lemma WideIsSplittable(window: Window, m: nat)
    requires StillWide(window, m, MAX_SPAN) && m < DEEPEST && NonEmpty(window)
    ensures SECOND < Width(window)
  {
    Pow2Grows(m, 24);
    Pow2Of25();
    MulMonotone(Pow2(m), Pow2(24), Width(window) + 1);
  }

  lemma {:induction false} MatchingGrows(runs: seq<Run>, inner: Window, outer: Window)
    requires outer.start <= inner.start && inner.end <= outer.end
    ensures |Matching(runs, inner)| <= |Matching(runs, outer)|
  {
    if runs != [] {
      MatchingGrows(runs[1..], inner, outer);
    }
  }

  /** A dense newest instant splits the newest window once more, as long as it is wider than a second. */
  lemma DenseSplits(runs: seq<Run>, window: Window, pending: seq<Window>, m: nat)
    requires |Matching(runs, Window(window.end, window.end))| >= RESULT_CAP
    requires NonEmpty(window) && StillWide(window, m, MAX_SPAN) && m < DEEPEST
    ensures var later := Window(Midpoint(window), window.end);
            && ProcessPage(runs, 1, window, pending).0
               == Ok(Some(Scan(1, later, [Window(window.start, Midpoint(window))] + pending)))
            && NonEmpty(later) && StillWide(later, m + 1, MAX_SPAN)
  {
    MatchingGrows(runs, Window(window.end, window.end), window);
    WideIsSplittable(window, m);
    SplitHalves(window);
    WideStep(window, Window(Midpoint(window), window.end), m, MAX_SPAN);
  }

  /** A provider whose list never changes. */
  function Fixed(runs: seq<Run>): Provider {
    _ => runs
  }

  /** After n leases the scan reads the first page of a window that ends where it began, n windows deep. */
  ghost predicate Deep(cursor: Option<Cursor>, startedAt: Instant, n: nat) {
    && cursor.Some? && cursor.value.Scan? && cursor.value.page == 1 && |cursor.value.pending| == n
    && cursor.value.window.end == startedAt && NonEmpty(cursor.value.window)
    && StillWide(cursor.value.window, n, MAX_SPAN)
  }

  lemma OneDeeper(runs: seq<Run>, first: Cursor, startedAt: Instant, n: nat)
    requires |Matching(runs, Window(startedAt, startedAt))| >= RESULT_CAP && n < DEEPEST
    requires first.Scan? && Deep(NthCursor(Fixed(runs), first, n), startedAt, n)
    ensures Deep(NthCursor(Fixed(runs), first, n + 1), startedAt, n + 1)
  {
    var c := NthCursor(Fixed(runs), first, n).value;
    DenseSplits(runs, c.window, c.pending, n);
  }

  /** The bound is exact: 1,000 runs at the newest instant of a 365-day scan stack up 25 windows. */
  lemma {:induction false} BoundIsReached(runs: seq<Run>, startedAt: Instant, n: nat)
    requires |Matching(runs, Window(startedAt, startedAt))| >= 1_000 && n <= 25
    ensures Deep(NthCursor(Fixed(runs), Scan(1, Window(startedAt - MAX_SPAN, startedAt), []), n), startedAt, n)
  {
    var first := Scan(1, Window(startedAt - MAX_SPAN, startedAt), []);
    if 0 < n {
      BoundIsReached(runs, startedAt, n - 1);
      OneDeeper(runs, first, startedAt, n - 1);
    }
  }
}
