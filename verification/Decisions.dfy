/** The one-shot decision record: `_decide`, `is_approval_satisfied` of approvals/service.py. */
module Decisions {
  import opened Faults
  import opened Options

  datatype ApprovalStatus = Pending | Approved | Rejected
  datatype Effect = Allow | AllowWithLog | RequireConfirmation | Block

  /** What an approval was asked for, and what an action asks it for later. */
  datatype Scope = Scope(
    tenant: nat, workspace: nat, action: string, actorType: string, actorId: string, resourceType: string,
    resourceId: nat, project: Option<nat>, task: Option<nat>)

  datatype Decision = Decided | AlreadyDecided | Lost

  class Approval {
    const scope: Scope
    const oneAction: bool
    const fingerprint: Option<string>
    const evidenceRecorded: bool
    var status: ApprovalStatus
    var audits: seq<ApprovalStatus>  // the decision audit records, by the decision they record

    constructor (scope: Scope, oneAction: bool, fingerprint: Option<string>, evidenceRecorded: bool)
      ensures this.scope == scope && this.oneAction == oneAction && this.fingerprint == fingerprint
      ensures this.evidenceRecorded == evidenceRecorded && status == Pending && audits == []
    {
      this.scope, this.oneAction, this.fingerprint := scope, oneAction, fingerprint;
      this.evidenceRecorded, status, audits := evidenceRecorded, Pending, [];
    }

    /** A decision and its audit record are committed together or not at all. */
    method Decide(target: ApprovalStatus, calm: bool) returns (r: Decision)
      requires target != Pending
      modifies this`status, this`audits
      ensures r == Decided ==> status == target
      ensures r == AlreadyDecided <==> old(status) !in {Pending, target}
      ensures calm ==> r != Lost
      ensures old(status) != Pending || r == Lost ==> status == old(status) && audits == old(audits)
      ensures old(status) == Pending && r == Decided ==> audits == old(audits) + [target]
    {
      if status == target {
        return Decided;
      }
      if status != Pending {
        return AlreadyDecided;
      }
      var lost := Mishap(calm);
      if lost {
        return Lost;
      }
      status, audits := target, audits + [target];
      return Decided;
    }

    /** `is_approval_satisfied`; `effect` is what policy says now. */
    predicate Satisfied(request: Scope, mutation: Option<string>, effect: Effect)
      reads this
    {
      && status == Approved
      && scope == request && oneAction && fingerprint == mutation
      && evidenceRecorded
      && effect != Block
    }
  }
}
