/** The Jira issue table and its guarded upsert. */
module JiraIssues {
  import opened Prelude
  import opened Jobs
  import opened Upserts

  datatype IssueId = IssueId(project: Uuid, id: string)

  /** The columns that every accepted delivery overwrites; `jira_updated_at` is the reading's time. */
  datatype Fields = Fields(
    issueKey: string, issueType: Option<string>, status: Option<string>, priority: Option<string>,
    summary: string, resolvedAt: Option<Instant>, raw: string)

  datatype IssuePayload = IssuePayload(
    project: Uuid, id: Option<string>, fields: Fields, createdAt: Option<Instant>, updatedAt: Option<Instant>)

  /** `isIncident` is left to the project's mapping rules: an upsert sets it on insert only. */
  datatype Issue = Issue(reading: Reading<Fields>, createdAt: Option<Instant>, isIncident: bool, version: nat)

  type Issues = map<IssueId, Issue>

  /** A payload without an id or an issue key is skipped. */
  predicate Identified(payload: IssuePayload) {
    payload.id.Some? && Strip(payload.id.value) != "" && payload.fields.issueKey != ""
  }

  function IdOf(payload: IssuePayload): IssueId
    requires Identified(payload)
  {
    IssueId(payload.project, payload.id.value)
  }

  function ReadingFrom(payload: IssuePayload): Reading<Fields> {
    Reading(payload.updatedAt, payload.fields)
  }

  function UpsertTx(rows: Issues, payload: IssuePayload): Issues {
    if !Identified(payload) then rows
    else
      var id := IdOf(payload);
      if id !in rows then rows[id := Issue(ReadingFrom(payload), payload.createdAt, false, 1)]
      else if !Passes(rows[id].reading.at, payload.updatedAt) then rows
      else
        rows[id := Issue(ReadingFrom(payload), OrElse(payload.createdAt, rows[id].createdAt),
                         rows[id].isIncident, rows[id].version + 1)]
  }

  class IssueTable {
    var rows: Issues

    constructor ()
      ensures rows == map[]
    {
      rows := map[];
    }

    method UpsertJiraIssue(payload: IssuePayload)
      modifies this
      ensures rows == UpsertTx(old(rows), payload)
      ensures forall id | id in old(rows) :: id in rows && rows[id].isIncident == old(rows)[id].isIncident
    {
      if payload.id.None? || Strip(payload.id.value) == "" || payload.fields.issueKey == "" {
        return;
      }
      var id := IssueId(payload.project, payload.id.value);
      var incoming := Reading(payload.updatedAt, payload.fields);
      if id !in rows {
        rows := rows[id := Issue(incoming, payload.createdAt, false, 1)];
      } else {
        var row := rows[id];
        if row.reading.at.None? || (payload.updatedAt.Some? && payload.updatedAt.value >= row.reading.at.value) {
          rows := rows[id := row.(reading := incoming,
                                  createdAt := if payload.createdAt.Some? then payload.createdAt else row.createdAt,
                                  version := row.version + 1)];
        }
      }
    }
  }

  function Applied(payloads: seq<IssuePayload>): Issues {
    if payloads == [] then map[]
    else UpsertTx(Applied(payloads[..|payloads| - 1]), payloads[|payloads| - 1])
  }

  /** What the payloads say about the guarded columns. */
  function Feed(payloads: seq<IssuePayload>): seq<Keyed<IssueId, Fields>> {
    if payloads == [] then []
    else
      var last := payloads[|payloads| - 1];
      Feed(payloads[..|payloads| - 1]) + (if Identified(last) then [Keyed(IdOf(last), ReadingFrom(last))] else [])
  }

  function ReadingOf(rows: Issues, id: IssueId): Option<Reading<Fields>> {
    if id in rows then Some(rows[id].reading) else None
  }

  lemma {:induction false} RowIsFinal(payloads: seq<IssuePayload>, id: IssueId)
    ensures ReadingOf(Applied(payloads), id) == Final(ForKey(Feed(payloads), id))
  {
    if payloads != [] {
      var (before, last) := (payloads[..|payloads| - 1], payloads[|payloads| - 1]);
      RowIsFinal(before, id);
      if Identified(last) {
        FinalAppend(Feed(before), Keyed(IdOf(last), ReadingFrom(last)), id);
      } else {
        assert Feed(before) + [] == Feed(before);
      }
    }
  }

  /** An issue's guarded columns forget the order and the repetitions of its deliveries. */
  lemma IssuesForgetOrder(s: seq<IssuePayload>, t: seq<IssuePayload>, id: IssueId)
    requires SameFeed(Feed(s), Feed(t)) && Settled(ForKey(Feed(s), id))
    ensures ReadingOf(Applied(s), id) == ReadingOf(Applied(t), id)
  {
    RowIsFinal(s, id);
    RowIsFinal(t, id);
    FeedForgetsOrder(Feed(s), Feed(t), id);
  }

  // ----- bookkeeping ---------------------------------------------------------------------------

  /** The payload is one of the issue: it has the issue's project and id, and an issue key. */
  predicate Concerns(payload: IssuePayload, id: IssueId) {
    payload.project == id.project && payload.id == Some(id.id) && Strip(id.id) != "" && payload.fields.issueKey != ""
  }

  /** What the payloads of one issue say of its update and its creation. */
  function SentFor(payloads: seq<IssuePayload>, id: IssueId): seq<Sent> {
    if payloads == [] then []
    else
      var last := payloads[|payloads| - 1];
      SentFor(payloads[..|payloads| - 1], id)
      + (if Concerns(last, id) then [Sent(last.updatedAt, last.createdAt)] else [])
  }

  /** A row's bookkeeping: version 1 for the first payload, one more for each accepted one since. */
  ghost predicate Books(sent: seq<Sent>, row: Issue) {
    && Carries(sent, row.reading.at) && row.version == |Accepted(sent)| && LastKnown(sent, row.createdAt)
    && !row.isIncident
  }

  lemma BooksNext(sent: seq<Sent>, row: Issue, payload: IssuePayload, after: Issue)
    requires Books(sent, row)
    requires after == if Passes(row.reading.at, payload.updatedAt)
                      then Issue(ReadingFrom(payload), OrElse(payload.createdAt, row.createdAt), row.isIncident,
                                 row.version + 1)
                      else row
    ensures Books(sent + [Sent(payload.updatedAt, payload.createdAt)], after)
  {
    var next := Sent(payload.updatedAt, payload.createdAt);
    CarriesNext(sent, row.reading.at, next);
    KnownNext(sent, row.reading.at, row.createdAt, next);
  }

  ghost predicate KeepsBooks(id: IssueId, sent: seq<Sent>, rows: Issues) {
    (id in rows <==> sent != []) && (id in rows ==> Books(sent, rows[id]))
  }

  lemma PayloadKeepsBooks(id: IssueId, sent: seq<Sent>, rows: Issues, payload: IssuePayload)
    requires KeepsBooks(id, sent, rows)
    ensures KeepsBooks(id, sent + if Concerns(payload, id) then [Sent(payload.updatedAt, payload.createdAt)] else [],
                       UpsertTx(rows, payload))
  {
    var (next, after) := (Sent(payload.updatedAt, payload.createdAt), UpsertTx(rows, payload));
    if !Concerns(payload, id) {
      assert sent + [] == sent;
    } else if id in rows {
      BooksNext(sent, rows[id], payload, after[id]);
    } else {
      FirstSent(next);
      assert sent + [next] == [next];
    }
  }

  /**
    An issue's row exists once a payload with its id and an issue key came; it counts the accepted
    payloads, holds the last creation time among them, and no payload makes it an incident.
  */
  lemma {:induction false} RowKeepsBooks(payloads: seq<IssuePayload>, id: IssueId)
    ensures KeepsBooks(id, SentFor(payloads, id), Applied(payloads))
  {
    if payloads != [] {
      var (before, last) := (payloads[..|payloads| - 1], payloads[|payloads| - 1]);
      RowKeepsBooks(before, id);
      PayloadKeepsBooks(id, SentFor(before, id), Applied(before), last);
    }
  }
}
