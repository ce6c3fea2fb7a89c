/** `approve` and `reject` of approvals/routes.py: one decision record, the record it governs, and any sequence
    of requests for them. */
module DecisionRoutes {
  import opened Decisions
  import opened Options
  import opened Faults
  import P = Publication
  import R = RemoteRepository
  import G = GitService
  import C = GitChangesets
  import T = GitTrees

  /** What policy and the rest of the application say while a request is handled. */
  datatype Setting = Setting(
    effect: Effect, request: Scope, fingerprint: Option<string>, bound: bool, eligible: bool, readable: bool,
    raced: Option<T.Oid>, busy: bool, calm: bool)

  datatype Reply = Served | Conflict | Failed

  /** The decision record tells what the governed records may be. */
  ghost predicate Inv(a: Approval, p: P.PublicationAction?, k: G.CommitAction?)
    reads a, p, k
  {
    && a.audits == (if a.status == Pending then [] else [a.status])
    && (p != null ==> PublicationFits(p.status, a.status))
    && (k != null ==> CommitFits(k.status, a.status))
  }

  predicate PublicationFits(s: P.Status, decision: ApprovalStatus) {
    match s
    case PendingApproval => true
    case Rejected => decision == Rejected
    case _ => decision == Approved
  }

  predicate CommitFits(s: G.Status, decision: ApprovalStatus) {
    match s
    case PendingApproval => true
    case Rejected => decision == Rejected
    case _ => decision == Approved
  }

  /** What no request undoes. */
  predicate DecisionStays(before: ApprovalStatus, after: ApprovalStatus) {
    before != Pending ==> after == before
  }

  predicate PublicationStays(before: P.Status, after: P.Status) {
    (before == P.Published ==> after == before) && (before == P.Rejected ==> after == before)
  }

  predicate CommitStays(before: G.Status, after: G.Status) {
    (before == G.Applied ==> after == before) && (before == G.Rejected ==> after == before)
  }

  /** The record was asked for exactly this action, with its evidence, and policy still asks for confirmation. */
  predicate Warranted(a: Approval, request: Scope, fingerprint: Option<string>, effect: Effect) {
    && a.scope == request && a.fingerprint == fingerprint && a.oneAction && a.evidenceRecorded
    && effect == RequireConfirmation
  }

  predicate MayPublish(a: Approval, w: Setting) {
    Warranted(a, w.request, None, w.effect) && w.bound && w.eligible && w.readable
  }

  predicate MayApply(a: Approval, w: Setting) {
    Warranted(a, w.request, w.fingerprint, w.effect) && w.eligible
  }

  /** How carrying out a publication ends when nothing fails and nobody else acts. */
  predicate PublicationEnds(
      p: P.Plan, h: R.Hashing, before: R.RemoteState, was: P.Status, now: P.Status, code: Option<string>)
  {
    match P.Verdict(p, h, before, was in {P.Publishing, P.Failed})
    case Continue => now == P.Published
    case Halt(stop, why) => now == stop && code == Some(why)
  }

  /** How carrying out a changeset ends when nothing fails. */
  ghost predicate CommitEnds(
      c: C.Changeset, origin: set<T.Oid>, before: C.RepoState, raced: Option<T.Oid>, now: G.Status)
  {
    && (G.Stale(before, c, origin) || G.Raced(before, c, raced, origin) ==> now.Failed?)
    && (C.CanApply(before, c, origin) && !G.Raced(before, c, raced, origin) ==> now == G.Applied)
  }

  /** A publication is carried out under an approved record. */
  method CarryOutPublication(a: Approval, p: P.PublicationAction, remote: R.Remote, w: Setting) returns (r: Reply)
    requires a.status == Approved && PublicationFits(p.status, a.status)
    modifies p, remote
    ensures PublicationFits(p.status, Approved) && PublicationStays(old(p.status), p.status)
    ensures r == (if p.status == P.Published then Served else Failed)
    ensures p.status == P.Published && old(p.status) != P.Published ==> MayPublish(a, w)
    ensures !Warranted(a, w.request, None, w.effect) ==> p.status == old(p.status)
    ensures !w.busy && w.calm && MayPublish(a, w) && old(p.status) != P.Published ==>
      PublicationEnds(p.plan, remote.hashing, old(remote.s), old(p.status), p.status, p.failureCode)
  {
    var satisfied := w.effect == RequireConfirmation && a.Satisfied(w.request, None, w.effect);
    var published := p.Publish(remote, P.Circumstances(satisfied, w.bound, w.eligible, w.readable), w.busy, w.calm);
    return if published.Done? then Served else Failed;
  }

  method CarryOutCommit(
      a: Approval, k: G.CommitAction, repo: C.Repository, w: Setting, ghost origin: set<T.Oid>) returns (r: Reply)
    requires a.status == Approved && CommitFits(k.status, a.status) && C.PreparedAt(origin, k.c)
    modifies k, repo, repo.store
    ensures CommitFits(k.status, Approved) && CommitStays(old(k.status), k.status)
    ensures r == (if k.status == G.Applied then Served else Failed)
    ensures k.status == G.Applied && old(k.status) != G.Applied ==>
      MayApply(a, w) && k.resulting == Some(k.c.expected)
    ensures !Warranted(a, w.request, w.fingerprint, w.effect) ==>
      k.status == old(k.status) && repo.State() == old(repo.State())
    ensures w.calm && MayApply(a, w) && old(k.status) != G.Applied ==>
      CommitEnds(k.c, origin, old(repo.State()), w.raced, k.status)
  {
    hide C.PreparedAt, C.AttemptEnds, C.CalmEnds, C.CanApply, G.Stale, G.Raced;
    var satisfied := w.effect == RequireConfirmation && a.Satisfied(w.request, w.fingerprint, w.effect);
    var applied, _ := k.ApproveAndApply(repo, w.eligible, satisfied, w.raced, w.calm, origin);
    return if applied.Ok? then Served else Failed;
  }

  /** The approve route: decide first, then carry out; a publication takes precedence over a commit, and a commit over
      resuming a tool call, which touches none of these records. */
  method Approve(
      a: Approval, p: P.PublicationAction?, remote: R.Remote, k: G.CommitAction?, repo: C.Repository, w: Setting,
      ghost origin: set<T.Oid>)
    returns (r: Reply)
    requires Inv(a, p, k) && (k != null ==> C.PreparedAt(origin, k.c))
    modifies a`status, a`audits, p, remote, k, repo, repo.store
    ensures Inv(a, p, k)
    ensures DecisionStays(old(a.status), a.status) && (old(a.status) == Pending ==> a.status in {Pending, Approved})
    ensures w.calm && old(a.status) != Rejected ==> a.status == Approved
    ensures r == Conflict <==> old(a.status) == Rejected
    ensures w.calm && old(a.status) != Rejected && p == null && k == null && a.fingerprint.None? ==> r == Served
    ensures r == Served ==>
      && a.status == Approved
      && if p != null then p.status == P.Published else k != null ==> k.status == G.Applied
    ensures p != null ==> PublicationStays(old(p.status), p.status)
    ensures k != null ==> CommitStays(old(k.status), k.status) && (p != null ==> k.status == old(k.status))
    ensures a.status != Approved ==>
      && r != Served && (p != null ==> p.status == old(p.status)) && (k != null ==> k.status == old(k.status))
    ensures p != null && p.status == P.Published && old(p.status) != P.Published ==>
      a.status == Approved && MayPublish(a, w)
    ensures k != null && k.status == G.Applied && old(k.status) != G.Applied ==>
      a.status == Approved && MayApply(a, w) && k.resulting == Some(k.c.expected)
    ensures p != null && !w.busy && w.calm && old(a.status) != Rejected && MayPublish(a, w) ==>
      old(p.status) != P.Published ==>
      PublicationEnds(p.plan, remote.hashing, old(remote.s), old(p.status), p.status, p.failureCode)
    ensures p == null && k != null && w.calm && old(a.status) != Rejected && MayApply(a, w) ==>
      old(k.status) != G.Applied ==>
      CommitEnds(k.c, origin, old(repo.State()), w.raced, k.status)
    ensures p != null && !w.busy && w.calm && old(a.status) != Rejected && MayPublish(a, w) ==>
      P.Ready(p.plan, remote.hashing, old(remote.s)) && P.ParentReadable(p.plan, old(remote.s)) ==>
      p.status == P.Published && r == Served
  {
    hide C.PreparedAt, C.CanApply, G.Stale, G.Raced, P.Verdict, P.Ready, P.ParentReadable;
    if p != null && P.Ready(p.plan, remote.hashing, remote.s) {
      P.ReadyVerdict(p.plan, remote.hashing, remote.s, p.status in {P.Publishing, P.Failed});
    }
    var decision := a.Decide(Approved, w.calm);
    if decision != Decided {
      return if decision == AlreadyDecided then Conflict else Failed;
    }
    if p != null {
      r := CarryOutPublication(a, p, remote, w);
    } else if k != null {
      r := CarryOutCommit(a, k, repo, w, origin);
    } else if a.fingerprint.Some? {
      r := ContinueToolCall();
    } else {
      r := Served;
    }
  }

  /** The resumption or termination of a prepared tool call, after the decision: not part of this model. */
  method ContinueToolCall() returns (r: Reply)
    ensures r in {Served, Failed}
  {
    var fails := Mishap(false);
    return if fails then Failed else Served;
  }

  /** The reject route: the governed record follows in a second commit, which may be lost. */
  method Reject(a: Approval, p: P.PublicationAction?, k: G.CommitAction?, calm: bool) returns (r: Reply)
    requires Inv(a, p, k)
    modifies a`status, a`audits, p, k
    ensures Inv(a, p, k)
    ensures DecisionStays(old(a.status), a.status) && (old(a.status) == Pending ==> a.status in {Pending, Rejected})
    ensures p != null ==> PublicationStays(old(p.status), p.status)
    ensures k != null ==> CommitStays(old(k.status), k.status) && (p != null ==> k.status == old(k.status))
    ensures r == Conflict <==> old(a.status) == Approved
    ensures calm && old(a.status) != Approved && (p != null || k != null || a.fingerprint.None?) ==> r == Served
    ensures r == Served ==>
      && a.status == Rejected
      && if p != null then p.status == P.Rejected else k != null ==> k.status == G.Rejected
    ensures a.status != Rejected ==>
      (p != null ==> p.status == old(p.status)) && (k != null ==> k.status == old(k.status))
    ensures old(a.status) == Approved ==>
      r == Conflict && (p != null ==> p.status == old(p.status)) && (k != null ==> k.status == old(k.status))
    ensures calm && old(a.status) != Approved ==>
      && a.status == Rejected
      && (p != null ==> p.status == P.Rejected) && (p == null && k != null ==> k.status == G.Rejected)
  {
    var decision := a.Decide(Rejected, calm);
    if decision != Decided {
      return if decision == AlreadyDecided then Conflict else Failed;
    }
    if p == null && k == null {
      r := Served;
      if a.fingerprint.Some? {
        r := ContinueToolCall();
      }
      return;
    }
    var lost := Mishap(calm);
    if lost {
      return Failed;
    }
    if p != null {
      p.status := P.Rejected;
    } else {
      k.status := G.Rejected;
    }
    return Served;
  }

  datatype Request = ToApprove(w: Setting) | ToReject(calm: bool)

  /**
    * Main result. However requests follow each other and wherever they are interrupted, a record decided once stays
    * decided, with exactly one audit record; the records it governs are APPLIED or PUBLISHED only if it is APPROVED
    * and REJECTED only if it is REJECTED, and neither PUBLISHED nor APPLIED is ever left.
    */
  method Serve(
      a: Approval, p: P.PublicationAction?, remote: R.Remote, k: G.CommitAction?, repo: C.Repository,
      requests: seq<Request>, ghost origin: set<T.Oid>)
    returns (ghost trail: seq<ApprovalStatus>)
    requires Inv(a, p, k) && (k != null ==> C.PreparedAt(origin, k.c))
    modifies a`status, a`audits, p, remote, k, repo, repo.store
    ensures Inv(a, p, k)
    ensures |trail| == |requests| + 1 && trail[0] == old(a.status) && trail[|requests|] == a.status
    ensures forall i, j :: 0 <= i <= j < |trail| ==> DecisionStays(trail[i], trail[j])
    ensures |a.audits| <= 1 && (a.status != Pending ==> a.audits == [a.status])
    ensures p != null ==> PublicationStays(old(p.status), p.status)
    ensures k != null ==> CommitStays(old(k.status), k.status)
    ensures p != null && p.status == P.Published ==> a.status == Approved
    ensures p != null && p.status == P.Rejected ==> a.status == Rejected
    ensures k != null && k.status == G.Applied ==> a.status == Approved
    ensures k != null && k.status == G.Rejected ==> a.status == Rejected
  {
    trail := [a.status];
    for i := 0 to |requests|
      invariant Inv(a, p, k)
      invariant |trail| == i + 1 && trail[0] == old(a.status) && trail[i] == a.status
      invariant forall i, j :: 0 <= i <= j < |trail| ==> DecisionStays(trail[i], trail[j])
      invariant p != null ==> PublicationStays(old(p.status), p.status)
      invariant k != null ==> CommitStays(old(k.status), k.status)
    {
      match requests[i] {
        case ToApprove(w) =>
          var _ := Approve(a, p, remote, k, repo, w, origin);
        case ToReject(calm) =>
          var _ := Reject(a, p, k, calm);
      }
      trail := trail + [a.status];
    }
  }
}
