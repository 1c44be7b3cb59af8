/** The backfill cursor as JSON in the job payload, and its validation on the next lease. */
module Cursors {
  import opened Prelude
  import opened Jobs

  /**
    JSON values as the backfill reads them. Text is split by what the readers make of it: an ISO
    timestamp with an offset, a numeral, or anything else.
  */
  datatype Json =
    | Null
    | Boolean(b: bool)
    | Number(i: int)
    | Timestamp(t: Instant)
    | Numeral(n: int)
    | Text(s: string)
    | List(items: seq<Json>)
    | Object(fields: map<string, Json>)

  datatype Stage = OpenPullRequests | PullRequests | WorkflowRuns | Deployments | Issues | Reviews

  datatype Window = Window(start: Instant, end: Instant)

  datatype Cursor =
    | Plain(stage: Stage, page: int)
    | Scan(page: int, window: Window, pending: seq<Window>)

  datatype CursorError = InvalidCursor | InvalidStage | InvalidPage | InvalidWindows | InvalidWindow

  const MAX_PENDING := 64

  function StageName(stage: Stage): string {
    match stage
    case OpenPullRequests => "open_pull_requests"
    case PullRequests => "pull_requests"
    case WorkflowRuns => "workflow_runs"
    case Deployments => "deployments"
    case Issues => "issues"
    case Reviews => "reviews"
  }

  function StageOf(cursor: Cursor): Stage {
    if cursor.Plain? then cursor.stage else WorkflowRuns
  }

  function ParseStage(value: Json): Option<Stage> {
    if value == Text("open_pull_requests") then Some(OpenPullRequests)
    else if value == Text("pull_requests") then Some(PullRequests)
    else if value == Text("workflow_runs") then Some(WorkflowRuns)
    else if value == Text("deployments") then Some(Deployments)
    else if value == Text("issues") then Some(Issues)
    else if value == Text("reviews") then Some(Reviews)
    else None
  }

  function Get(fields: map<string, Json>, key: string): Json {
    if key in fields then fields[key] else Null
  }

  function ParseTimestamp(value: Json): Option<Instant> {
    if value.Timestamp? then Some(value.t) else None
  }

  function ParseWindow(value: Json): Option<Window> {
    if !value.Object? then None
    else
      var start, end := ParseTimestamp(Get(value.fields, "start")), ParseTimestamp(Get(value.fields, "end"));
      if start.None? || end.None? || start.value >= end.value then None
      else Some(Window(start.value, end.value))
  }

  function ParseWindows(items: seq<Json>): Option<seq<Window>> {
    if items == [] then Some([])
    else
      var (first, rest) := (ParseWindow(items[0]), ParseWindows(items[1..]));
      if first.None? || rest.None? then None else Some([first.value] + rest.value)
  }

  /** `_cursor`: what a stored value means, or how it is rejected. */
  function ParseCursor(value: Json, cutoff: Instant, startedAt: Instant, initial: Stage): Result<Cursor, CursorError> {
    if value.Null? then Ok(Plain(initial, 1))
    else if !value.Object? then Err(InvalidCursor)
    else
      var stage, page := ParseStage(Get(value.fields, "stage")), Get(value.fields, "page");
      if stage.None? then Err(InvalidStage)
      else if !page.Number? || page.i < 1 then Err(InvalidPage)
      else if !stage.value.WorkflowRuns? then Ok(Plain(stage.value, page.i))
      else
        var start := OrElse(ParseTimestamp(Get(value.fields, "windowStart")), Some(cutoff)).value;
        var end := OrElse(ParseTimestamp(Get(value.fields, "windowEnd")), Some(startedAt)).value;
        var raw := if "pendingWindows" in value.fields then value.fields["pendingWindows"] else List([]);
        if !raw.List? || |raw.items| > MAX_PENDING then Err(InvalidWindows)
        else
          var pending := ParseWindows(raw.items);
          if pending.None? then Err(InvalidWindow)
          else if start >= end then Err(InvalidWindow)
          else Ok(Scan(page.i, Window(start, end), pending.value))
  }

  /** The loop that reads the pending windows, appending to a list. */
  method ReadPendingWindows(items: seq<Json>) returns (r: Option<seq<Window>>)
    ensures r == ParseWindows(items)
  {
    var pending: seq<Window> := [];
    assert items[0..] == items;
    assert forall rest: seq<Window> :: [] + rest == rest;
    for i := 0 to |items|
      invariant ParseWindows(items) == match ParseWindows(items[i..])
                                       case None => None
                                       case Some(rest) => Some(pending + rest)
    {
      var window := ParseWindow(items[i]);
      assert items[i..][1..] == items[i + 1..];
      if window.None? {
        return None;
      }
      assert forall rest: seq<Window> :: pending + ([window.value] + rest) == (pending + [window.value]) + rest;
      pending := pending + [window.value];
    }
    assert pending + [] == pending;
    r := Some(pending);
  }

  function EmitWindow(window: Window): Json {
    Object(map["start" := Timestamp(window.start), "end" := Timestamp(window.end)])
  }

  function EmitWindows(windows: seq<Window>): (items: seq<Json>)
    ensures |items| == |windows|
  {
    if windows == [] then [] else [EmitWindow(windows[0])] + EmitWindows(windows[1..])
  }

  /** The dictionary a stage function returns and the requeue stores. */
  function EmitCursor(cursor: Cursor): Json {
    match cursor
    case Plain(stage, page) => Object(map["stage" := Text(StageName(stage)), "page" := Number(page)])
    case Scan(page, window, pending) =>
      Object(map["stage" := Text(StageName(WorkflowRuns)), "page" := Number(page),
                 "windowStart" := Timestamp(window.start), "windowEnd" := Timestamp(window.end),
                 "pendingWindows" := List(EmitWindows(pending))])
  }

  predicate NonEmpty(window: Window) {
    window.start < window.end
  }

  predicate Acceptable(cursor: Cursor) {
    && 1 <= cursor.page
    && (cursor.Plain? ==> !cursor.stage.WorkflowRuns?)
    && (cursor.Scan? ==> |cursor.pending| <= 64 && NonEmpty(cursor.window)
                         && forall w | w in cursor.pending :: NonEmpty(w))
  }

  lemma {:induction false} WindowsRoundTrip(windows: seq<Window>)
    ensures ParseWindows(EmitWindows(windows))
         == if forall w | w in windows :: NonEmpty(w) then Some(windows) else None
  {
    if windows != [] {
      WindowsRoundTrip(windows[1..]);
      assert windows == [windows[0]] + windows[1..];
      assert EmitWindows(windows)[1..] == EmitWindows(windows[1..]);
      assert ParseWindow(EmitWindow(windows[0])) == if NonEmpty(windows[0]) then Some(windows[0]) else None;
      assert (forall w | w in windows :: NonEmpty(w)) <==>
             NonEmpty(windows[0]) && forall w | w in windows[1..] :: NonEmpty(w);
    }
  }

  /** An emitted cursor is read back as itself exactly when it is acceptable, whatever the defaults. */
  lemma CursorRoundTrips(cursor: Cursor, cutoff: Instant, startedAt: Instant, initial: Stage)
    ensures ParseCursor(EmitCursor(cursor), cutoff, startedAt, initial) == Ok(cursor) <==> Acceptable(cursor)
  {
    if cursor.Scan? {
      WindowsRoundTrip(cursor.pending);
    }
  }

  lemma {:induction false} ParsedWindowsAreNonEmpty(items: seq<Json>)
    requires ParseWindows(items).Some?
    ensures |ParseWindows(items).value| == |items|
    ensures forall w | w in ParseWindows(items).value :: NonEmpty(w)
  {
    if items != [] {
      ParsedWindowsAreNonEmpty(items[1..]);
    }
  }

  /** Whatever JSON is stored, a cursor that passes validation is acceptable. */
  lemma ParsedCursorsAreAcceptable(value: Json, cutoff: Instant, startedAt: Instant, initial: Stage)
    requires !initial.WorkflowRuns? && ParseCursor(value, cutoff, startedAt, initial).Ok?
    ensures Acceptable(ParseCursor(value, cutoff, startedAt, initial).value)
  {
    if value.Object? && "pendingWindows" in value.fields && value.fields["pendingWindows"].List? {
      var items := value.fields["pendingWindows"].items;
      if ParseWindows(items).Some? {
        ParsedWindowsAreNonEmpty(items);
      }
    }
  }

  function ScanFields(page: int): map<string, Json> {
    map["stage" := Text("workflow_runs"), "page" := Number(page)]
  }

  /** A scan cursor that leaves out its windows stands for what is missing of the whole period. */
  lemma MissingWindowsDefault(page: int, window: Window, cutoff: Instant, startedAt: Instant, initial: Stage)
    requires 1 <= page
    ensures cutoff < startedAt ==>
              ParseCursor(Object(ScanFields(page)), cutoff, startedAt, initial)
              == Ok(Scan(page, Window(cutoff, startedAt), []))
    ensures window.start < startedAt ==>
              ParseCursor(Object(ScanFields(page)["windowStart" := Timestamp(window.start)]), cutoff, startedAt,
                          initial)
              == Ok(Scan(page, Window(window.start, startedAt), []))
    ensures cutoff < window.end ==>
              ParseCursor(Object(ScanFields(page)["windowEnd" := Timestamp(window.end)]), cutoff, startedAt, initial)
              == Ok(Scan(page, Window(cutoff, window.end), []))
  {
  }

  /** No cursor yet: the first page of the mode's first stage. Anything but an object is rejected. */
  lemma NoCursorStarts(value: Json, cutoff: Instant, startedAt: Instant, initial: Stage)
    ensures ParseCursor(Null, cutoff, startedAt, initial) == Ok(Plain(initial, 1))
    ensures !value.Null? && !value.Object? ==> ParseCursor(value, cutoff, startedAt, initial) == Err(InvalidCursor)
  {
  }

  /** An object is rejected for its stage unless that is one of six names, and then for a page below 1. */
  lemma RejectedCursors(fields: map<string, Json>, cutoff: Instant, startedAt: Instant, initial: Stage)
    ensures var r := ParseCursor(Object(fields), cutoff, startedAt, initial);
            var known := "stage" in fields && fields["stage"].Text?
                         && fields["stage"].s in {"open_pull_requests", "pull_requests", "workflow_runs", "deployments",
                                                  "issues", "reviews"};
            var counted := "page" in fields && fields["page"].Number? && 1 <= fields["page"].i;
            && (r == Err(InvalidStage) <==> !known)
            && (r == Err(InvalidPage) <==> known && !counted)
            && (r.Ok? ==> StageName(StageOf(r.value)) == fields["stage"].s && r.value.page == fields["page"].i)
  {
  }
}
