/** The upgrade transition of i044a-v2/install.py (`main`, `restore_predecessor`,
    `recover_unchanged_predecessor`) with a possible failure at every step.

    Renames are atomic.  Writing the unit file is not: a failed write leaves any bytes.  A failed
    service command may or may not have taken effect.  A verification step may fail for reasons of
    its own, but passes only on the right content. */
module Upgrade {
  import opened Faults
  import opened Options

  datatype Release = Predecessor | Candidate | OtherRelease
  datatype Initial = Absent | Installed

  /** How the transition block ends: `return 0`, or one of its two exceptions. */
  datatype Outcome = Done | UpgradeFailed | RollbackFailed

  datatype Snapshot = Snapshot(target: Option<Release>, backup: Option<Release>)

  predicate Safe(s: Snapshot) {
    s.target == Some(Predecessor) || s.backup == Some(Predecessor)
  }

  class Host {
    var target: Option<Release>
    var backup: Option<Release>     // the reserved sibling
    var temporary: Option<Release>  // the materialized candidate
    var unit: string
    var unitTrusted: bool           // regular file, root:root, mode 0644
    var running: bool
    var loaded: string              // the unit as the service manager last read it
    ghost var history: seq<Snapshot>

    ghost function Now(): Snapshot
      reads this
    {
      Snapshot(target, backup)
    }

    /** Every state reached so far keeps an exact predecessor at TARGET or at the backup. */
    ghost predicate AlwaysSafe()
      reads this
    {
      Safe(Now()) && forall i :: 0 <= i < |history| ==> Safe(history[i])
    }

    constructor (target: Option<Release>, temporary: Option<Release>, unit: string, running: bool)
      ensures this.target == target && backup == None && this.temporary == temporary
      ensures this.unit == unit && unitTrusted && this.running == running && loaded == unit
      ensures history == [Snapshot(target, None)]
    {
      this.target, backup, this.temporary := target, None, temporary;
      this.unit, unitTrusted, this.running, loaded := unit, true, running, unit;
      history := [Snapshot(target, None)];
    }

    // -------------------------------------------------------------- single steps

    method Command(active: bool, calm: bool) returns (ok: bool)
      modifies this`running
      ensures ok ==> running == active
      ensures calm ==> ok
    {
      var fails := Mishap(calm);
      if fails {
        running := *;
        return false;
      }
      running := active;
      return true;
    }

    method IsActive(calm: bool) returns (ok: bool)
      ensures ok ==> running
      ensures calm && running ==> ok
    {
      var fails := Mishap(calm);
      return !fails && running;
    }

    method Quiet(calm: bool) returns (ok: bool)
      ensures calm ==> ok
    {
      var fails := Mishap(calm);
      return !fails;
    }

    /** `systemctl daemon-reload`; one that fails may have taken effect. */
    method Reload(calm: bool) returns (ok: bool)
      modifies this`loaded
      ensures ok ==> loaded == unit
      ensures calm ==> ok
    {
      var fails := Mishap(calm);
      if fails {
        loaded := *;
        return false;
      }
      loaded := unit;
      return true;
    }

    method VerifyTarget(expected: Release, calm: bool) returns (ok: bool)
      ensures ok ==> target == Some(expected)
      ensures calm && target == Some(expected) ==> ok
    {
      var fails := Mishap(calm);
      return !fails && target == Some(expected);
    }

    method VerifyBackup(calm: bool) returns (ok: bool)
      ensures ok ==> backup == Some(Predecessor)
      ensures calm && backup == Some(Predecessor) ==> ok
    {
      var fails := Mishap(calm);
      return !fails && backup == Some(Predecessor);
    }

    method VerifyUnit(expected: string, calm: bool) returns (ok: bool)
      ensures ok ==> unit == expected && unitTrusted
      ensures calm && unit == expected && unitTrusted ==> ok
    {
      var fails := Mishap(calm);
      return !fails && unit == expected && unitTrusted;
    }

    /** `write_bytes`, `chmod`, then the check. */
    method InstallUnit(bytes: string, calm: bool) returns (ok: bool)
      modifies this`unit, this`unitTrusted
      ensures ok ==> unit == bytes && unitTrusted
      ensures calm ==> ok
    {
      var fails := Mishap(calm);
      if fails {
        unit, unitTrusted := *, *;
        return false;
      }
      unit := bytes;
      fails := Mishap(calm);
      if fails {
        unitTrusted := *;
        return false;
      }
      unitTrusted := true;
      ok := VerifyUnit(bytes, calm);
    }

    method TargetToBackup(calm: bool) returns (ok: bool)
      requires AlwaysSafe() && target == Some(Predecessor) && backup == None
      modifies this`target, this`backup, this`history
      ensures AlwaysSafe() && old(history) <= history
      ensures if ok then target == None && backup == Some(Predecessor) else target == old(target) && backup == None
      ensures calm ==> ok
    {
      var fails := Mishap(calm);
      if fails {
        return false;
      }
      target, backup := None, target;
      history := history + [Now()];
      return true;
    }

    method TemporaryToTarget(ghost safe: bool, calm: bool) returns (ok: bool)
      requires target == None && temporary == Some(Candidate)
      requires safe ==> AlwaysSafe()
      modifies this`target, this`temporary, this`history
      ensures safe ==> AlwaysSafe()
      ensures old(history) <= history
      ensures if ok then target == Some(Candidate) && temporary == None
              else target == None && temporary == old(temporary)
      ensures calm ==> ok
    {
      var fails := Mishap(calm);
      if fails {
        return false;
      }
      target, temporary := temporary, None;
      history := history + [Now()];
      return true;
    }

    /** The failed release leaves TARGET for a sibling of its own. */
    method QuarantineTarget(calm: bool) returns (ok: bool)
      requires AlwaysSafe() && backup == Some(Predecessor)
      modifies this`target, this`history
      ensures AlwaysSafe() && old(history) <= history
      ensures if ok then target == None else target == old(target)
      ensures calm ==> ok
    {
      var fails := Mishap(calm);
      if fails {
        return false;
      }
      target := None;
      history := history + [Now()];
      return true;
    }

    method BackupToTarget(calm: bool) returns (ok: bool)
      requires AlwaysSafe() && backup == Some(Predecessor) && target == None
      modifies this`target, this`backup, this`history
      ensures AlwaysSafe() && old(history) <= history
      ensures if ok then target == Some(Predecessor) && backup == None else target == None && backup == old(backup)
      ensures calm ==> ok
    {
      var fails := Mishap(calm);
      if fails {
        return false;
      }
      target, backup := backup, None;
      history := history + [Now()];
      return true;
    }

    // -------------------------------------------------------------- rollback

    /** `recover_unchanged_predecessor`: nothing was moved or written. */
    method RecoverUnchanged(previousUnit: string, calm: bool) returns (ok: bool)
      modifies this`running
      ensures ok ==> target == Some(Predecessor) && unit == previousUnit && unitTrusted && running
      ensures calm && target == Some(Predecessor) && unit == previousUnit && unitTrusted ==> ok
    {
      ok := VerifyTarget(Predecessor, calm);
      if !ok { return; }
      ok := VerifyUnit(previousUnit, calm);
      if !ok { return; }
      ok := Command(true, calm);
      if !ok { return; }
      ok := IsActive(calm);
      if !ok { return; }
      ok := VerifyTarget(Predecessor, calm);
      if !ok { return; }
      ok := VerifyUnit(previousUnit, calm);
    }

    /** `restore_predecessor`: TARGET is touched only once the backup has been checked again. */
    method RestorePredecessor(previousUnit: string, calm: bool) returns (ok: bool)
      requires AlwaysSafe() && backup == Some(Predecessor)
      modifies this
      ensures AlwaysSafe() && old(history) <= history && temporary == old(temporary)
      ensures ok ==> target == Some(Predecessor) && unit == previousUnit && unitTrusted && running
      ensures ok ==> loaded == previousUnit
      ensures calm ==> ok
    {
      ok := VerifyBackup(calm);
      if !ok { return; }
      ok := Command(false, calm);
      if !ok { return; }
      if target.Some? {
        ok := QuarantineTarget(calm);
        if !ok { return; }
      }
      ok := BackupToTarget(calm);
      if !ok { return; }
      ok := InstallUnit(previousUnit, calm);
      if !ok { return; }
      ok := Reload(calm);
      if !ok { return; }
      ok := Command(true, calm);
      if !ok { return; }
      ok := IsActive(calm);
      if !ok { return; }
      ok := VerifyTarget(Predecessor, calm);
      if !ok { return; }
      ok := VerifyUnit(previousUnit, calm);
    }

    // -------------------------------------------------------------- the transition

    /** The `try` block: `moved` and `promoted` are the two flags its handlers look at. */
    method Forward(initial: Initial, candidateUnit: string, calm: bool)
      returns (done: bool, moved: bool, promoted: bool)
      requires initial == Installed ==> AlwaysSafe() && target == Some(Predecessor)
      requires initial == Absent ==> target == None
      requires backup == None && temporary == Some(Candidate)
      modifies this
      ensures initial == Installed ==> AlwaysSafe()
      ensures old(history) <= history
      ensures moved <==> backup == Some(Predecessor)
      ensures moved ==> initial == Installed
      ensures !moved ==> backup == None
      ensures !moved && initial == Installed ==>
        target == Some(Predecessor) && unit == old(unit) && unitTrusted == old(unitTrusted)
      ensures !moved && !promoted ==> target == old(target)
      ensures !promoted ==> unit == old(unit) && unitTrusted == old(unitTrusted) && loaded == old(loaded)
      ensures done ==> loaded == candidateUnit
      ensures promoted ==> target == Some(Candidate)
      ensures promoted <==> temporary == None
      ensures !promoted ==> temporary == Some(Candidate)
      ensures done ==> promoted && target == Some(Candidate) && unit == candidateUnit && unitTrusted && running
      ensures done && initial == Installed ==> moved
      ensures calm ==> done
    {
      done, moved, promoted := false, false, false;
      var ok := Command(false, calm);
      if !ok { return; }
      if initial == Installed {
        ok := Quiet(calm);
        if !ok { return; }
        ok := TargetToBackup(calm);
        if !ok { return; }
        moved := true;
      }
      ok := TemporaryToTarget(initial == Installed, calm);
      if !ok { return; }
      promoted := true;
      ok := InstallUnit(candidateUnit, calm);
      if !ok { return; }
      ok := Reload(calm);
      if !ok { return; }
      ok := Command(true, calm);
      if !ok { return; }
      ok := IsActive(calm);
      if !ok { return; }
      ok := VerifyTarget(Candidate, calm);
      if !ok { return; }
      done := Quiet(calm);
    }

    /** Main result: from an installed predecessor, whatever fails, an exact predecessor is at TARGET
        or at the backup in every state passed through; success means candidate, `upgrade_failed`
        means the predecessor is back and running, and everything else is `service_rollback_failed`.
        `tidy` is false when the final removal of the temporary tree raises over that outcome. */
    method Transition(initial: Initial, previousUnit: string, candidateUnit: string, calm: bool, calmBack: bool)
      returns (outcome: Outcome, tidy: bool)
      requires initial == Installed ==> AlwaysSafe() && target == Some(Predecessor)
      requires initial == Absent ==> target == None
      requires backup == None && temporary == Some(Candidate) && unit == previousUnit && unitTrusted
      requires loaded == previousUnit
      modifies this
      ensures initial == Installed ==> AlwaysSafe()
      ensures old(history) <= history
      ensures outcome == Done ==> target == Some(Candidate) && unit == candidateUnit && unitTrusted && running
      ensures outcome == Done ==> loaded == candidateUnit
      ensures initial == Installed && outcome == Done ==> backup == Some(Predecessor)
      ensures initial == Installed && outcome == UpgradeFailed ==>
        target == Some(Predecessor) && unit == previousUnit && unitTrusted && running && loaded == previousUnit
      ensures initial == Absent ==> outcome != RollbackFailed && backup == None && target in {None, Some(Candidate)}
      ensures initial == Absent && outcome == UpgradeFailed && target == None ==> unit == previousUnit && unitTrusted
      ensures tidy ==> temporary == None
      ensures calm ==> outcome == Done
      ensures calmBack ==> outcome != RollbackFailed && tidy
    {
      var done, moved, promoted := Forward(initial, candidateUnit, calm);
      if done {
        outcome := Done;
      } else if moved {
        var restored := RestorePredecessor(previousUnit, calmBack);
        outcome := if restored then UpgradeFailed else RollbackFailed;
      } else if initial == Installed {
        var recovered := RecoverUnchanged(previousUnit, calmBack);
        outcome := if recovered then UpgradeFailed else RollbackFailed;
      } else {
        outcome := UpgradeFailed;
      }
      tidy := true;
      if !promoted && temporary.Some? {
        tidy := Quiet(calmBack);
        if tidy {
          temporary := None;
        }
      }
    }
  }
}
