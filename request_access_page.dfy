/**
 * The Client's request-access page: frontend/src/pages/RequestAccessPage.jsx.
 * The page's React state is a class whose fields the handlers reassign;
 * the rendered cards are a function of that state.
 */
module RequestAccessPage {
  import opened Wrappers
  import opened Text
  import opened Mongo
  import opened UserModel
  import opened Session
  import opened AccessRequestModel
  import opened RequestController
  import opened ApiResponse

  /** A project as the page lists it (only `_id`, `name` and `location` are read). */
  datatype ProjectCard = ProjectCard(id: ObjectId, name: string, location: string)

  /**
   * An entry of `pendingRequests`: its `project` (null when the project was
   * deleted) and its `status` (possibly absent).
   */
  datatype LocalRequest = LocalRequest(project: Option<ObjectId>, status: Option<string>)

  /** `r.status?.toLowerCase() === "pending"`. */
  predicate IsPendingStatus(status: Option<string>) {
    status.Some? && ToLower(status.value) == "pending"
  }

  /** What `/requests/my-requests` delivers for one of the caller's requests. */
  function FromServer(v: MyRequestView): (l: LocalRequest)
    ensures l.project.Some? <==> v.project.Some?
    ensures l.project.Some? ==> l.project.value == v.project.value.0
    ensures l.status == Some(StatusName(v.request.status))
  {
    LocalRequest(if v.project.Some? then Some(v.project.value.0) else None, Some(StatusName(v.request.status)))
  }

  /** The stored status names: only PENDING counts as pending once lower-cased. */
  lemma ServerStatusPending(s: RequestStatus)
    ensures IsPendingStatus(Some(StatusName(s))) <==> s == Pending
  {
    assert ToLower("PENDING") == "pending";
    if s != Pending {
      assert ToLower(StatusName(s))[0] != 'p';
    }
  }

  /** `hasAccess(projectId)`: `myProjects.some(p => p._id === projectId)`. */
  predicate HasAccess(mine: seq<ProjectCard>, pid: ObjectId) {
    exists i :: 0 <= i < |mine| && mine[i].id == pid
  }

  /** Whether one entry is a pending request for the project, reading its project with `?.`. */
  predicate PendingFor(r: LocalRequest, pid: ObjectId) {
    r.project == Some(pid) && IsPendingStatus(r.status)
  }

  /**
   * `hasRequested(projectId)` as written: `r.project._id` throws (None) on
   * the first entry whose project is null unless an earlier entry already
   * matched, since `some` stops at the first match.
   */
  function HasRequestedAsWritten(reqs: seq<LocalRequest>, pid: ObjectId): (r: Option<bool>)
    ensures r.None? <==> exists i :: 0 <= i < |reqs| && reqs[i].project.None? &&
                                     forall j :: 0 <= j < i ==> !PendingFor(reqs[j], pid)
    ensures r == Some(true) <==> exists i :: 0 <= i < |reqs| && PendingFor(reqs[i], pid) &&
                                         forall j :: 0 <= j < i ==> reqs[j].project.Some?
  {
    if reqs == [] then Some(false)
    else if reqs[0].project.None? then None
    else if PendingFor(reqs[0], pid) then Some(true)
    else
      var rest := HasRequestedAsWritten(reqs[1..], pid);
      assert forall i :: 1 <= i < |reqs| ==> reqs[i] == reqs[1..][i - 1];
      rest
  }

  /**
   * `hasRequested(projectId)` with `r.project?._id`: whether some entry is a
   * pending request for the project. Entries whose project was deleted are
   * skipped.
   */
  function HasRequested(reqs: seq<LocalRequest>, pid: ObjectId): (b: bool)
    ensures b <==> exists i :: 0 <= i < |reqs| && PendingFor(reqs[i], pid)
  {
    if reqs == [] then false
    else
      PendingFor(reqs[0], pid) ||
      (var rest := HasRequested(reqs[1..], pid);
       assert forall i :: 1 <= i < |reqs| ==> reqs[i] == reqs[1..][i - 1];
       rest)
  }

  /** Where the code as written returns, it agrees with the corrected check; with no deleted project it always returns. */
  lemma {:induction false} AsWrittenAgreesWhenDefined(reqs: seq<LocalRequest>, pid: ObjectId)
    ensures HasRequestedAsWritten(reqs, pid).Some? ==> HasRequestedAsWritten(reqs, pid).value == HasRequested(reqs, pid)
    ensures (forall i :: 0 <= i < |reqs| ==> reqs[i].project.Some?) ==> HasRequestedAsWritten(reqs, pid).Some?
  {
    if reqs != [] && reqs[0].project.Some? && !PendingFor(reqs[0], pid) {
      var tail := reqs[1..];
      AsWrittenAgreesWhenDefined(tail, pid);
      assert HasRequestedAsWritten(reqs, pid) == HasRequestedAsWritten(tail, pid);
      assert HasRequested(reqs, pid) == HasRequested(tail, pid);
      assert (forall i :: 0 <= i < |reqs| ==> reqs[i].project.Some?) ==>
             (forall i :: 0 <= i < |tail| ==> tail[i].project.Some?) by {
        if forall i :: 0 <= i < |reqs| ==> reqs[i].project.Some? {
          forall i | 0 <= i < |tail| ensures tail[i].project.Some? {
            assert tail[i] == reqs[i + 1];
          }
        }
      }
    }
  }

  /**
   * A Client whose only request was for a project an Admin later deleted:
   * the server hands that request back with a null project, and checking
   * any other project throws, where the corrected check answers false.
   */
  lemma DeletedProjectThrows(req: AccessRequest, pid: ObjectId)
    ensures HasRequestedAsWritten([FromServer(MyRequestView(req, None))], pid) == None
    ensures !HasRequested([FromServer(MyRequestView(req, None))], pid)
  {
  }

  /** For the server's list, the corrected check holds exactly when a PENDING request names the project. */
  lemma HasRequestedFromServer(views: seq<MyRequestView>, pid: ObjectId)
    ensures HasRequested(seq(|views|, i requires 0 <= i < |views| => FromServer(views[i])), pid) <==>
      exists i :: 0 <= i < |views| && views[i].project.Some? && views[i].project.value.0 == pid &&
                  views[i].request.status == Pending
  {
    var local := seq(|views|, i requires 0 <= i < |views| => FromServer(views[i]));
    forall i | 0 <= i < |views|
      ensures PendingFor(local[i], pid) <==>
        views[i].project.Some? && views[i].project.value.0 == pid && views[i].request.status == Pending
    {
      ServerStatusPending(views[i].request.status);
    }
  }

  /** The entry appended after a successful request. */
  function Requested(pid: ObjectId): LocalRequest {
    LocalRequest(Some(pid), Some("pending"))
  }

  /** Once the entry is appended, the project counts as requested, whatever came before. */
  lemma AppendedRequestIsPending(reqs: seq<LocalRequest>, pid: ObjectId)
    ensures HasRequested(reqs + [Requested(pid)], pid)
  {
    assert ToLower("pending") == "pending";
    assert (reqs + [Requested(pid)])[|reqs|] == Requested(pid);
  }

  /** What a card shows below the project's name. */
  datatype Badge = AccessGranted | RequestPending | RequestButton

  /** Access granted wins over a pending request, which wins over the button. */
  function BadgeFor(mine: seq<ProjectCard>, reqs: seq<LocalRequest>, pid: ObjectId): (b: Badge)
    ensures b == AccessGranted <==> HasAccess(mine, pid)
    ensures b == RequestPending <==> !HasAccess(mine, pid) && HasRequested(reqs, pid)
    ensures b == RequestButton <==> !HasAccess(mine, pid) && !HasRequested(reqs, pid)
  {
    if HasAccess(mine, pid) then AccessGranted
    else if HasRequested(reqs, pid) then RequestPending
    else RequestButton
  }

  datatype Card = Card(project: ProjectCard, badge: Badge)

  /** One card per project, in order, each with its badge. */
  function Cards(all: seq<ProjectCard>, mine: seq<ProjectCard>, reqs: seq<LocalRequest>): (cs: seq<Card>)
    ensures |cs| == |all|
    ensures forall i :: 0 <= i < |all| ==> cs[i] == Card(all[i], BadgeFor(mine, reqs, all[i].id))
  {
    seq(|all|, i requires 0 <= i < |all| => Card(all[i], BadgeFor(mine, reqs, all[i].id)))
  }

  /** The cards of a non-empty list: the first project's card, then the rest's. */
  lemma CardsCons(all: seq<ProjectCard>, mine: seq<ProjectCard>, reqs: seq<LocalRequest>)
    requires all != []
    ensures Cards(all, mine, reqs) == [Card(all[0], BadgeFor(mine, reqs, all[0].id))] + Cards(all[1..], mine, reqs)
  {
    var lhs := Cards(all, mine, reqs);
    var rhs := [Card(all[0], BadgeFor(mine, reqs, all[0].id))] + Cards(all[1..], mine, reqs);
    forall i | 0 <= i < |all| ensures lhs[i] == rhs[i] {
      if i > 0 {
        assert all[1..][i - 1] == all[i];
      }
    }
  }

  /** Whether the as-written `hasRequested(pid)` throws. */
  predicate Throws(reqs: seq<LocalRequest>, pid: ObjectId) {
    HasRequestedAsWritten(reqs, pid).None?
  }

  /**
   * A card's badge as the page computes it: both checks run before the
   * badge is chosen, so the card throws (None) whenever the as-written
   * `hasRequested` does, even for a project the Client already has; when it
   * does not throw, the badge is the corrected one.
   */
  function BadgeAsWritten(mine: seq<ProjectCard>, reqs: seq<LocalRequest>, pid: ObjectId): (b: Option<Badge>)
    ensures b.None? <==> Throws(reqs, pid)
    ensures b.Some? ==> b.value == BadgeFor(mine, reqs, pid)
  {
    match HasRequestedAsWritten(reqs, pid)
    case None => None
    case Some(requested) =>
      AsWrittenAgreesWhenDefined(reqs, pid);
      Some(if HasAccess(mine, pid) then AccessGranted else if requested then RequestPending else RequestButton)
  }

  /**
   * The cards as the page computes them, in `allProjects.map` order: the
   * render throws (None) as soon as one card does; otherwise every card
   * carries the corrected badge.
   */
  function CardsAsWritten(all: seq<ProjectCard>, mine: seq<ProjectCard>, reqs: seq<LocalRequest>): (r: Option<seq<Card>>)
    ensures r.None? <==> exists i :: 0 <= i < |all| && Throws(reqs, all[i].id)
    ensures r.Some? ==> r.value == Cards(all, mine, reqs)
  {
    if all == [] then Some([])
    else
      var b := BadgeAsWritten(mine, reqs, all[0].id);
      var rest := CardsAsWritten(all[1..], mine, reqs);
      assert forall i :: 1 <= i < |all| ==> all[i] == all[1..][i - 1];
      CardsCons(all, mine, reqs);
      if b.None? || rest.None? then None else Some([Card(all[0], b.value)] + rest.value)
  }

  /**
   * With the request of the Finding (one request, for a deleted project)
   * and any other project on the page, the page as written throws while
   * rendering, where the corrected render shows the project with its
   * request button.
   */
  lemma RenderThrowsOnDeletedProject(req: AccessRequest, card: ProjectCard, mine: seq<ProjectCard>)
    ensures CardsAsWritten([card], mine, [FromServer(MyRequestView(req, None))]).None?
    ensures !HasAccess(mine, card.id) ==>
      BadgeFor(mine, [FromServer(MyRequestView(req, None))], card.id) == RequestButton
  {
    DeletedProjectThrows(req, card.id);
  }

  /** What the page renders. */
  datatype Screen = LoadingText | Grid(cards: seq<Card>, noneAvailable: bool)

  /**
   * `fetchX`: on a reply whose `success` holds, the list it carries (or `[]`);
   * otherwise the list stays as it was. The toast is the one the helpers raise.
   */
  function Fetched<T>(call: Call<seq<T>>, current: seq<T>, fallback: string): (r: (seq<T>, Toast))
    ensures call.Responded? && DataOf(call.response).success ==>
      r.0 == DataOf(call.response).payload.GetOr([]) && r.1 == NoToast
    ensures call.Responded? && !DataOf(call.response).success ==>
      r.0 == current && r.1 == ErrorToast(MessageOf(DataOf(call.response)))
    ensures call.Threw? ==> r.0 == current && r.1 == HandleApiError(call.error, fallback)
  {
    match call
    case Responded(res) =>
      var (data, toast) := HandleApiResponse(res, false);
      (if data.success then data.payload.GetOr([]) else current, toast)
    case Threw(e) => (current, HandleApiError(e, fallback))
  }

  class RequestAccessState {
    var allProjects: seq<ProjectCard>
    var myProjects: seq<ProjectCard>
    var pendingRequests: seq<LocalRequest>
    var loading: bool

    /** The page's first render: empty lists, still loading. */
    constructor ()
      ensures allProjects == [] && myProjects == [] && pendingRequests == [] && loading
    {
      allProjects := [];
      myProjects := [];
      pendingRequests := [];
      loading := true;
    }

    /**
     * The mount effect: nothing without a user; a non-Client is sent to
     * /projects; a Client gets the three lists, each replaced only by a
     * successful reply, and the page stops loading.
     */
    method Load(user: Option<SessionUser>, all: Call<seq<ProjectCard>>, mine: Call<seq<ProjectCard>>,
                requests: Call<seq<LocalRequest>>)
      returns (navigate: Option<string>, toasts: seq<Toast>)
      modifies this
      ensures user.None? ==> navigate.None? && toasts == [] && unchanged(this)
      ensures user.Some? && user.value.role != Client ==>
        navigate == Some("/projects") && toasts == [] && unchanged(this)
      ensures user.Some? && user.value.role == Client ==>
        && navigate.None? && !loading
        && allProjects == Fetched(all, old(allProjects), "Failed to fetch all projects").0
        && myProjects == Fetched(mine, old(myProjects), "Failed to fetch my projects").0
        && pendingRequests == Fetched(requests, old(pendingRequests), "Failed to fetch my requests").0
        && toasts == [Fetched(all, old(allProjects), "Failed to fetch all projects").1,
                      Fetched(mine, old(myProjects), "Failed to fetch my projects").1,
                      Fetched(requests, old(pendingRequests), "Failed to fetch my requests").1]
    {
      navigate := None;
      toasts := [];
      if user.None? {
        return;
      }
      if user.value.role != Client {
        navigate := Some("/projects");
        return;
      }
      loading := true;
      var a := Fetched(all, allProjects, "Failed to fetch all projects");
      var m := Fetched(mine, myProjects, "Failed to fetch my projects");
      var q := Fetched(requests, pendingRequests, "Failed to fetch my requests");
      allProjects, myProjects, pendingRequests := a.0, m.0, q.0;
      toasts := [a.1, m.1, q.1];
      loading := false;
    }

    /**
     * `handleRequestAccess(projectId)`: a successful reply appends a pending
     * entry for the project, after which its card is no longer a button;
     * anything else leaves the list alone.
     */
    method HandleRequestAccess(pid: ObjectId, call: Call<()>) returns (toast: Toast)
      modifies this`pendingRequests
      ensures call.Responded? && DataOf(call.response).success ==>
        pendingRequests == old(pendingRequests) + [Requested(pid)]
      ensures !(call.Responded? && DataOf(call.response).success) ==> pendingRequests == old(pendingRequests)
      ensures call.Responded? ==> toast == HandleApiResponse(call.response, true, "Access requested!").1
      ensures call.Threw? ==> toast == HandleApiError(call.error, "Failed to request access")
      ensures call.Responded? && DataOf(call.response).success ==>
        BadgeFor(myProjects, pendingRequests, pid) != RequestButton
    {
      match call
      case Responded(res) =>
        var (data, t) := HandleApiResponse(res, true, "Access requested!");
        toast := t;
        if data.success {
          AppendedRequestIsPending(pendingRequests, pid);
          pendingRequests := pendingRequests + [Requested(pid)];
        }
      case Threw(e) =>
        toast := HandleApiError(e, "Failed to request access");
    }

    /**
     * The render with the corrected `hasRequested`: the loading text, or one
     * card per project and the empty-list note. Wherever the page as written
     * renders at all, it renders these cards.
     */
    function Render(): (s: Screen)
      reads this
      ensures loading <==> s == LoadingText
      ensures s.Grid? && CardsAsWritten(allProjects, myProjects, pendingRequests).Some? ==>
        s.cards == CardsAsWritten(allProjects, myProjects, pendingRequests).value
      ensures s.Grid? ==> |s.cards| == |allProjects| && (s.noneAvailable <==> allProjects == [])
      ensures s.Grid? ==> forall i :: 0 <= i < |allProjects| ==>
        s.cards[i].project == allProjects[i] &&
        s.cards[i].badge == BadgeFor(myProjects, pendingRequests, allProjects[i].id)
    {
      if loading then LoadingText
      else
        Grid(Cards(allProjects, myProjects, pendingRequests), allProjects == [])
    }
  }
}
