/**
 * The Admin's report page: frontend/src/pages/ReportsPage.jsx. It reads the
 * report as one JSON array and counts the statuses it finds.
 */
module ReportsPage {
  import opened Wrappers
  import opened Text
  import opened UserModel
  import opened Session
  import opened AccessRequestModel
  import opened ReportController

  /** The four counters shown above the table. */
  datatype Stats = Stats(total: nat, pending: nat, approved: nat, denied: nat)

  /** `(r.status || "").toUpperCase()`, for a record whose `status` may be absent. */
  function Label(status: Option<string>): string {
    ToUpper(status.GetOr(""))
  }

  /** The number of records whose label is `name`. */
  function CountLabel(statuses: seq<Option<string>>, name: string): (n: nat)
    ensures n <= |statuses|
  {
    if statuses == [] then 0
    else CountLabel(statuses[..|statuses| - 1], name) + (if Label(statuses[|statuses| - 1]) == name then 1 else 0)
  }

  /** The labels that have a counter. */
  predicate Known(name: string) {
    name == "PENDING" || name == "APPROVED" || name == "DENIED"
  }

  /**
   * The `reduce` over the records: `total` counts every record and each
   * other counter the records whose label names it.
   */
  method ComputeStats(statuses: seq<Option<string>>) returns (st: Stats)
    ensures st.total == |statuses|
    ensures st.pending == CountLabel(statuses, "PENDING")
    ensures st.approved == CountLabel(statuses, "APPROVED")
    ensures st.denied == CountLabel(statuses, "DENIED")
  {
    st := Stats(0, 0, 0, 0);
    for i := 0 to |statuses|
      invariant st == Stats(i, CountLabel(statuses[..i], "PENDING"), CountLabel(statuses[..i], "APPROVED"),
                            CountLabel(statuses[..i], "DENIED"))
    {
      assert statuses[..i + 1][..i] == statuses[..i];
      var shown := Label(statuses[i]);
      if shown == "PENDING" {
        st := st.(pending := st.pending + 1);
      } else if shown == "APPROVED" {
        st := st.(approved := st.approved + 1);
      } else if shown == "DENIED" {
        st := st.(denied := st.denied + 1);
      }
      st := st.(total := st.total + 1);
    }
    assert statuses[..|statuses|] == statuses;
  }

  /**
   * The three status counters never exceed the total, and they add up to it
   * exactly when every record's label is one of the three.
   */
  lemma {:induction false} CountersAddUp(statuses: seq<Option<string>>)
    ensures CountLabel(statuses, "PENDING") + CountLabel(statuses, "APPROVED") + CountLabel(statuses, "DENIED") <= |statuses|
    ensures CountLabel(statuses, "PENDING") + CountLabel(statuses, "APPROVED") + CountLabel(statuses, "DENIED") == |statuses|
      <==> forall i :: 0 <= i < |statuses| ==> Known(Label(statuses[i]))
  {
    if statuses != [] {
      var init := statuses[..|statuses| - 1];
      CountersAddUp(init);
      assert forall i :: 0 <= i < |init| ==> init[i] == statuses[i];
    }
  }

  /** A stored status is counted under its own name, whatever case the page reads it in. */
  lemma StoredStatusIsKnown(s: RequestStatus)
    ensures Known(Label(Some(StatusName(s))))
    ensures Label(Some(StatusName(s))) == StatusName(s)
  {
    assert ToUpper("PENDING") == "PENDING";
    assert ToUpper("APPROVED") == "APPROVED";
    assert ToUpper("DENIED") == "DENIED";
  }

  /** The statuses the page reads from the server's records. */
  function StatusesOf(rows: seq<ReportRow>): (s: seq<Option<string>>)
    ensures |s| == |rows| && forall i :: 0 <= i < |rows| ==> s[i] == Some(StatusName(rows[i].status))
  {
    seq(|rows|, i requires 0 <= i < |rows| => Some(StatusName(rows[i].status)))
  }

  /** For a report the server produced, the three counters always add up to the total. */
  lemma ServerReportAddsUp(rows: seq<ReportRow>)
    ensures var s := StatusesOf(rows);
      CountLabel(s, "PENDING") + CountLabel(s, "APPROVED") + CountLabel(s, "DENIED") == |rows|
  {
    var s := StatusesOf(rows);
    forall i | 0 <= i < |s|
      ensures Known(Label(s[i]))
    {
      StoredStatusIsKnown(rows[i].status);
    }
    CountersAddUp(s);
  }

  /** The colour of a status pill. */
  datatype Colour = Green | Red | Yellow

  /** APPROVED is green, DENIED red, and every other label, unknown ones included, yellow. */
  function Pill(status: Option<string>): (c: Colour)
    ensures c == Green <==> Label(status) == "APPROVED"
    ensures c == Red <==> Label(status) == "DENIED"
    ensures c == Yellow <==> Label(status) != "APPROVED" && Label(status) != "DENIED"
  {
    var shown := Label(status);
    if shown == "APPROVED" then Green else if shown == "DENIED" then Red else Yellow
  }

  /** The body of a 2xx response: an array, or text `response.json()` rejects. */
  datatype Body = Parsed(statuses: seq<Option<string>>) | Malformed(error: string)

  /** How the `fetch` ends. */
  datatype Outcome = Aborted | NetworkError(error: string) | Received(ok: bool, body: Body)

  /**
   * What the page receives for a reply of the report handler: the
   * statuses of the rows it carries when the array was closed, a rejection
   * by the JSON parser (with the parser's message) when the stream was cut,
   * and a non-2xx status for a JSON error.
   */
  function OutcomeOf(reply: ReportReply, rows: seq<ReportRow>, parseError: string): Outcome {
    match reply
    case JsonError(_, _) => Received(false, Malformed(parseError))
    case Stream(_, complete) => Received(true, if complete then Parsed(StatusesOf(rows)) else Malformed(parseError))
  }

  const LoadFailed := "Failed to load reports"
  const AlertPrefix := "Error loading reports: "

  class ReportsState {
    var reports: seq<Option<string>>
    var loading: bool
    var stats: Stats

    /** The first render: no records, zero counters, still loading. */
    constructor ()
      ensures reports == [] && loading && stats == Stats(0, 0, 0, 0)
    {
      reports := [];
      loading := true;
      stats := Stats(0, 0, 0, 0);
    }

    /**
     * The mount effect. A caller who is not an Admin is sent to /projects
     * and nothing is fetched. Otherwise the page stops loading whatever
     * happens. A parsed array replaces the records and the counters; any
     * other outcome except an abort raises an alert and keeps both.
     */
    method Load(user: Option<SessionUser>, outcome: Outcome) returns (navigate: Option<string>, alert: Option<string>)
      modifies this
      ensures user.None? || user.value.role != Admin ==>
        navigate == Some("/projects") && alert.None? && unchanged(this)
      ensures user.Some? && user.value.role == Admin ==> navigate.None? && !loading
      ensures user.Some? && user.value.role == Admin && outcome.Received? && outcome.ok && outcome.body.Parsed? ==>
        && reports == outcome.body.statuses && alert.None?
        && stats == Stats(|reports|, CountLabel(reports, "PENDING"), CountLabel(reports, "APPROVED"),
                          CountLabel(reports, "DENIED"))
      ensures user.Some? && user.value.role == Admin && !(outcome.Received? && outcome.ok && outcome.body.Parsed?) ==>
        reports == old(reports) && stats == old(stats)
      ensures user.Some? && user.value.role == Admin ==>
        match outcome
        case Aborted => alert.None?
        case NetworkError(e) => alert == Some(AlertPrefix + e)
        case Received(ok, body) =>
          if !ok then alert == Some(AlertPrefix + LoadFailed)
          else if body.Malformed? then alert == Some(AlertPrefix + body.error)
          else alert.None?
    {
      navigate, alert := None, None;
      if user.None? || user.value.role != Admin {
        navigate := Some("/projects");
        return;
      }
      match outcome {
        case Aborted =>
        case NetworkError(e) =>
          alert := Some(AlertPrefix + e);
        case Received(ok, body) =>
          if !ok {
            alert := Some(AlertPrefix + LoadFailed);
          } else if body.Malformed? {
            alert := Some(AlertPrefix + body.error);
          } else {
            reports := body.statuses;
            stats := ComputeStats(body.statuses);
          }
      }
      loading := false;
    }
  }

  /**
   * An Admin who receives a complete report sees counters that add up to
   * the total; a report cut short by a cursor failure leaves the counters
   * as they were and raises an alert.
   */
  method LoadServerReport(page: ReportsState, admin: SessionUser, rows: seq<ReportRow>, chunks: seq<string>,
                          complete: bool, parseError: string)
    returns (alert: Option<string>)
    requires admin.role == Admin
    modifies page
    ensures complete ==> alert.None? && page.stats.pending + page.stats.approved + page.stats.denied == page.stats.total
    ensures complete ==> page.stats.total == |rows|
    ensures !complete ==> alert == Some(AlertPrefix + parseError) && page.stats == old(page.stats)
  {
    var navigate;
    navigate, alert := page.Load(Some(admin), OutcomeOf(Stream(chunks, complete), rows, parseError));
    if complete {
      ServerReportAddsUp(rows);
    }
  }
}
