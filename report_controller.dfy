/**
 * The streamed report: backend/controllers/report.controller.js. All
 * requests, joined with their project's name and e-mail and their client's
 * username, newest first, are written as a JSON array one chunk at a time:
 * "[", then each record with a "," before every record but the first, then
 * "]". How one record becomes JSON is the parameter `serialize`.
 */
module ReportController {
  import opened Wrappers
  import opened Mongo
  import opened Http
  import opened UserModel
  import opened ProjectModel
  import opened AccessRequestModel
  import opened Database

  /** `populate("project", "name email")`: `{_id, name, email}`. */
  datatype ProjectSummary = ProjectSummary(id: ObjectId, name: string, email: string)

  /** One joined record of the report. */
  datatype ReportRow = ReportRow(
    id: ObjectId,
    project: Option<ProjectSummary>,
    client: Option<UserRef>,
    status: RequestStatus,
    decidedBy: Option<ObjectId>,
    createdAt: nat,
    updatedAt: nat)

  /** The project part of the join, null once the project is deleted. */
  function PopulateSummary(projects: map<ObjectId, Project>, id: ObjectId): (r: Option<ProjectSummary>)
    ensures r.Some? <==> id in projects
    ensures r.Some? ==> r.value == ProjectSummary(id, projects[id].name, projects[id].email)
  {
    if id in projects then Some(ProjectSummary(id, projects[id].name, projects[id].email)) else None
  }

  /** A request joined with its project summary and its client's username. */
  function JoinRow(id: ObjectId, r: AccessRequest, projects: map<ObjectId, Project>, users: map<ObjectId, User>)
    : (row: ReportRow)
    ensures row.id == id && row.status == r.status && row.decidedBy == r.decidedBy
    ensures row.createdAt == r.createdAt && row.updatedAt == r.updatedAt
    ensures row.project == PopulateSummary(projects, r.project)
    ensures row.client == PopulateUser(users, r.client)
  {
    ReportRow(id, PopulateSummary(projects, r.project), PopulateUser(users, r.client),
              r.status, r.decidedBy, r.createdAt, r.updatedAt)
  }

  /** The identifiers of the requests below n, in increasing order. */
  function IdsBelow(requests: map<ObjectId, AccessRequest>, n: nat): (ids: seq<ObjectId>)
    ensures forall i, j :: 0 <= i < j < |ids| ==> ids[i] < ids[j]
    ensures forall k :: 0 <= k < |ids| ==> ids[k] in requests && ids[k] < n
    ensures forall id :: id in requests && id < n ==> id in ids
  {
    if n == 0 then []
    else
      var prefix := IdsBelow(requests, n - 1);
      prefix + (if n - 1 in requests then [n - 1] else [])
  }

  /** `sort({ createdAt: -1 })`: newest first. */
  predicate SortedNewestFirst(rows: seq<ReportRow>) {
    forall i, j :: 0 <= i < j < |rows| ==> rows[i].createdAt >= rows[j].createdAt
  }

  /** No request appears twice. */
  predicate DistinctIds(rows: seq<ReportRow>) {
    forall i, j :: 0 <= i < j < |rows| ==> rows[i].id != rows[j].id
  }

  /** Inserts a row into a newest-first list, after the rows at least as new. */
  function InsertNewestFirst(x: ReportRow, rows: seq<ReportRow>): (r: seq<ReportRow>)
    requires SortedNewestFirst(rows)
    ensures |r| == |rows| + 1
    ensures forall y :: y in r <==> y in rows || y == x
    ensures SortedNewestFirst(r)
  {
    if rows == [] then [x]
    else if rows[0].createdAt >= x.createdAt then
      var t := InsertNewestFirst(x, rows[1..]);
      assert forall y :: y in rows[1..] ==> rows[0].createdAt >= y.createdAt;
      assert forall k :: 0 <= k < |t| ==> rows[0].createdAt >= t[k].createdAt;
      [rows[0]] + t
    else [x] + rows
  }

  /** Sorts rows newest first; rows of equal age keep their order. */
  function SortNewestFirst(rows: seq<ReportRow>): (r: seq<ReportRow>)
    ensures |r| == |rows|
    ensures forall y :: y in r <==> y in rows
    ensures SortedNewestFirst(r)
  {
    if rows == [] then []
    else InsertNewestFirst(rows[|rows| - 1], SortNewestFirst(rows[..|rows| - 1]))
  }

  /** Inserting a row with a new identifier keeps identifiers distinct. */
  lemma {:induction false} InsertKeepsDistinct(x: ReportRow, rows: seq<ReportRow>)
    requires SortedNewestFirst(rows) && DistinctIds(rows)
    requires forall y :: y in rows ==> y.id != x.id
    ensures DistinctIds(InsertNewestFirst(x, rows))
  {
    if rows != [] && rows[0].createdAt >= x.createdAt {
      var tail := rows[1..];
      assert DistinctIds(tail);
      InsertKeepsDistinct(x, tail);
      var t := InsertNewestFirst(x, tail);
      var r := [rows[0]] + t;
      assert r == InsertNewestFirst(x, rows);
      assert rows[0] in rows;
      forall i, j | 0 <= i < j < |r| ensures r[i].id != r[j].id {
        assert r[j] == t[j - 1];
        if i == 0 {
          assert t[j - 1] in t;
          if t[j - 1] != x {
            var k :| 0 <= k < |tail| && tail[k] == t[j - 1];
            assert rows[k + 1] == r[j];
          }
        } else {
          assert r[i] == t[i - 1];
        }
      }
    }
  }

  /** Sorting keeps identifiers distinct. */
  lemma {:induction false} SortKeepsDistinct(rows: seq<ReportRow>)
    requires DistinctIds(rows)
    ensures DistinctIds(SortNewestFirst(rows))
  {
    if rows != [] {
      var init := rows[..|rows| - 1];
      var last := rows[|rows| - 1];
      assert DistinctIds(init);
      SortKeepsDistinct(init);
      forall y | y in SortNewestFirst(init) ensures y.id != last.id {
        var k :| 0 <= k < |init| && init[k] == y;
        assert rows[k] == y;
      }
      InsertKeepsDistinct(last, SortNewestFirst(init));
    }
  }

  /**
   * The rows the cursor delivers: every request exactly once, joined, newest
   * first. Requests of equal age come in identifier order.
   */
  function Snapshot(requests: map<ObjectId, AccessRequest>, projects: map<ObjectId, Project>,
                    users: map<ObjectId, User>, nextId: ObjectId): (rows: seq<ReportRow>)
    ensures SortedNewestFirst(rows)
    ensures forall i :: 0 <= i < |rows| ==>
      rows[i].id in requests && rows[i] == JoinRow(rows[i].id, requests[rows[i].id], projects, users)
  {
    var ids := IdsBelow(requests, nextId);
    var joined := seq(|ids|, i requires 0 <= i < |ids| => JoinRow(ids[i], requests[ids[i]], projects, users));
    var rows := SortNewestFirst(joined);
    assert forall i :: 0 <= i < |rows| ==> rows[i] in joined;
    rows
  }

  /** With all identifiers below nextId, the snapshot holds every request, each exactly once. */
  lemma SnapshotIsComplete(requests: map<ObjectId, AccessRequest>, projects: map<ObjectId, Project>,
                           users: map<ObjectId, User>, nextId: ObjectId)
    requires forall id :: id in requests ==> id < nextId
    ensures var rows := Snapshot(requests, projects, users, nextId);
            && DistinctIds(rows)
            && forall id :: id in requests ==> exists i :: 0 <= i < |rows| && rows[i].id == id
  {
    var ids := IdsBelow(requests, nextId);
    var joined := seq(|ids|, i requires 0 <= i < |ids| => JoinRow(ids[i], requests[ids[i]], projects, users));
    assert DistinctIds(joined);
    SortKeepsDistinct(joined);
    var rows := SortNewestFirst(joined);
    assert rows == Snapshot(requests, projects, users, nextId);
    forall id | id in requests ensures exists i :: 0 <= i < |rows| && rows[i].id == id {
      var k :| 0 <= k < |ids| && ids[k] == id;
      assert joined[k] in rows;
      var i :| 0 <= i < |rows| && rows[i] == joined[k];
    }
  }

  // ---- The emitted chunks ----

  /** The response body: the chunks written, in order, run together. */
  function Concat(chunks: seq<string>): string {
    if chunks == [] then "" else Concat(chunks[..|chunks| - 1]) + chunks[|chunks| - 1]
  }

  /** `xs.join(sep)`. */
  function JoinWith(sep: string, xs: seq<string>): string {
    if xs == [] then ""
    else if |xs| == 1 then xs[0]
    else JoinWith(sep, xs[..|xs| - 1]) + sep + xs[|xs| - 1]
  }

  /**
   * The chunks written for the records: each record's text, with a ","
   * chunk between neighbours, so n records take max(n - 1, 0) separators,
   * none before the first and none after the last.
   */
  function Interleave(xs: seq<string>): (r: seq<string>)
    ensures |r| == if xs == [] then 0 else 2 * |xs| - 1
    ensures forall i :: 0 <= i < |xs| ==> r[2 * i] == xs[i]
    ensures forall i :: 0 <= i < |xs| - 1 ==> r[2 * i + 1] == ","
  {
    if xs == [] then []
    else if |xs| == 1 then [xs[0]]
    else Interleave(xs[..|xs| - 1]) + [",", xs[|xs| - 1]]
  }

  /** Running chunks together distributes over appending chunk lists. */
  lemma {:induction false} ConcatAppend(a: seq<string>, b: seq<string>)
    ensures Concat(a + b) == Concat(a) + Concat(b)
  {
    if b == [] {
      assert a + b == a;
    } else {
      assert (a + b)[..|a + b| - 1] == a + b[..|b| - 1];
      assert (a + b)[|a + b| - 1] == b[|b| - 1];
      ConcatAppend(a, b[..|b| - 1]);
    }
  }

  /** The interleaved chunks run together are the records joined with ",". */
  lemma {:induction false} ConcatInterleave(xs: seq<string>)
    ensures Concat(Interleave(xs)) == JoinWith(",", xs)
  {
    if |xs| == 1 {
      assert Concat([xs[0]]) == Concat([]) + xs[0];
    } else if |xs| > 1 {
      var init := xs[..|xs| - 1];
      ConcatInterleave(init);
      ConcatAppend(Interleave(init), [",", xs[|xs| - 1]]);
      assert Concat([",", xs[|xs| - 1]]) == Concat([","]) + xs[|xs| - 1];
      assert Concat([","]) == Concat([]) + ",";
    }
  }

  /** Adding a record adds a "," chunk when there was one before, then the record. */
  lemma InterleaveSnoc(xs: seq<string>, x: string)
    ensures Interleave(xs + [x]) == Interleave(xs) + (if xs == [] then [] else [","]) + [x]
  {
    assert (xs + [x])[..|xs + [x]| - 1] == xs;
  }

  /** The text of each row, in order. */
  function Rendered(rows: seq<ReportRow>, serialize: ReportRow -> string): (r: seq<string>)
    ensures |r| == |rows| && forall i :: 0 <= i < |rows| ==> r[i] == serialize(rows[i])
  {
    seq(|rows|, i requires 0 <= i < |rows| => serialize(rows[i]))
  }

  /** Rendering one more row appends its text. */
  lemma RenderedSnoc(rows: seq<ReportRow>, i: nat, serialize: ReportRow -> string)
    requires i < |rows|
    ensures Rendered(rows[..i + 1], serialize) == Rendered(rows[..i], serialize) + [serialize(rows[i])]
  {
  }

  /**
   * What goes wrong, if anything: the query cannot be set up before any
   * byte is written, or the cursor fails after delivering some documents.
   */
  datatype Fault = NoFault | QueryFailed(message: string) | CursorFailed(delivered: nat)

  /** A streamed body (complete, or cut off), or the JSON error sent instead of a stream. */
  datatype ReportReply = Stream(chunks: seq<string>, complete: bool) | JsonError(status: nat, message: string)

  /** How many of total rows are written before the stream ends. */
  function Written(fault: Fault, total: nat): (n: nat)
    ensures n <= total
    ensures fault.CursorFailed? && fault.delivered <= total ==> n == fault.delivered
    ensures !fault.CursorFailed? ==> n == total
  {
    if fault.CursorFailed? && fault.delivered < total then fault.delivered else total
  }

  /** The full body text for the given record texts, closed or cut off. */
  lemma {:induction false} BodyText(texts: seq<string>, complete: bool)
    ensures Concat(["["] + Interleave(texts) + (if complete then ["]"] else []))
         == "[" + JoinWith(",", texts) + (if complete then "]" else "")
  {
    ConcatInterleave(texts);
    ConcatAppend(["["], Interleave(texts));
    assert Concat(["["]) == Concat([]) + "[";
    if complete {
      ConcatAppend(["["] + Interleave(texts), ["]"]);
      assert Concat(["]"]) == Concat([]) + "]";
    } else {
      assert ["["] + Interleave(texts) + [] == ["["] + Interleave(texts);
    }
  }

  /**
   * The cursor loop of `fetchReports` after "[": for each of the first n
   * rows, a "," unless it is the first, then its text.
   */
  method WriteRows(rows: seq<ReportRow>, n: nat, serialize: ReportRow -> string) returns (chunks: seq<string>)
    requires n <= |rows|
    ensures chunks == ["["] + Interleave(Rendered(rows[..n], serialize))
  {
    chunks := ["["];
    var isFirst := true;
    var i := 0;
    while i < n
      invariant 0 <= i <= n
      invariant isFirst <==> i == 0
      invariant chunks == ["["] + Interleave(Rendered(rows[..i], serialize))
    {
      ghost var texts := Rendered(rows[..i], serialize);
      RenderedSnoc(rows, i, serialize);
      InterleaveSnoc(texts, serialize(rows[i]));
      if !isFirst {
        chunks := chunks + [","];
      } else {
        isFirst := false;
      }
      chunks := chunks + [serialize(rows[i])];
      assert chunks == ["["] + (Interleave(texts) + (if texts == [] then [] else [","]) + [serialize(rows[i])]);
      i := i + 1;
    }
  }

  /**
   * `fetchReports`. A failure before the stream opens is a 500 JSON error.
   * Otherwise the chunks are "[", the records separated by ",", and "]";
   * when the cursor fails after "[" has gone out, the response just ends
   * after the records written so far, with no closing bracket. (The error
   * handler's JSON branch cannot be taken then: writing "[" has already sent
   * the headers.)
   */
  method FetchReports(db: Db, serialize: ReportRow -> string, fault: Fault) returns (reply: ReportReply)
    requires db.Valid()
    ensures fault.QueryFailed? ==> reply == JsonError(StatusServerError, fault.message)
    ensures !fault.QueryFailed? ==>
      var rows := Snapshot(db.requests, db.projects, db.users, db.nextId);
      var texts := Rendered(rows[..Written(fault, |rows|)], serialize);
      && reply.Stream?
      && reply.complete == fault.NoFault?
      && reply.chunks == ["["] + Interleave(texts) + (if reply.complete then ["]"] else [])
      && Concat(reply.chunks) == "[" + JoinWith(",", texts) + (if reply.complete then "]" else "")
  {
    if fault.QueryFailed? {
      return JsonError(StatusServerError, fault.message);
    }
    var rows := Snapshot(db.requests, db.projects, db.users, db.nextId);
    var n := Written(fault, |rows|);
    var chunks := WriteRows(rows, n, serialize);
    var complete := fault.NoFault?;
    if complete {
      chunks := chunks + ["]"];
    }
    BodyText(Rendered(rows[..n], serialize), complete);
    reply := Stream(chunks, complete);
  }

  /** An empty collection streams exactly "[]". */
  lemma EmptyReportIsBrackets(serialize: ReportRow -> string)
    ensures Concat(["["] + Interleave(Rendered([], serialize)) + ["]"]) == "[]"
  {
    assert ["["] + Interleave(Rendered([], serialize)) + ["]"] == ["[", "]"];
    assert Concat(["[", "]"]) == Concat(["["]) + "]";
    assert Concat(["["]) == Concat([]) + "[";
  }
}
