/** The states of the verification worker and its transitions: requests under the lock, completion of
    the background probe, and restart (i044a-v2/worker/i044a.py over i044b-v2/worker/worker.py). */
module Worker {
  import opened Options

  type RunId = nat
  type Capability = nat
  type Pid = nat
  type Digest = nat

  datatype Pending = Pending(capability: Capability, expires: int, peer: Pid, digest: Digest, run: RunId)
  datatype Job = Job(run: RunId, digest: Digest, cancel: bool)
  datatype Report = Finished(run: RunId, passed: bool) | Reconciled(run: RunId, snapshotDestroyed: bool)

  datatype Op =
    | Health
    | Prepare
    | Verify(capability: Capability)
    | Result(run: RunId)
    | Cancel(run: RunId)
    | Cleanup(run: RunId)

  datatype Response =
    | Ready(blocked: bool, busy: bool)
    | Prepared(capability: Capability, digest: Digest)
    | Accepted(run: RunId)
    | Running(run: RunId)
    | Reported(report: Report)
    | Error(code: string)
    | Raised  // an exception leaves the handler

  /** What the handler obtains from outside: the clock at entry and after staging, fresh random
      names, the staged digest, and whether deleting a snapshot and writing a state file work. */
  datatype Env = Env(
    now: int, later: int, run: RunId, capability: Capability, staged: Option<Digest>, cleaned: bool, stored: bool)

  /** How a probe ends: population killed, snapshot deleted, `recent.json` written, `current.json` removed. */
  datatype Completion = Completion(passed: bool, empty: bool, destroyed: bool, stored: bool, unlinked: bool)

  /** Fields, then files, then history: who was granted which capability until when, which
      capability started which run, and whether an unhandled write error left a snapshot behind. */
  datatype State = State(
    pending: Option<Pending>, active: Option<Job>, recent: Option<Report>, blocked: bool,
    current: Option<RunId>, recentFile: Option<Report>, snapshots: set<RunId>,
    issued: map<Capability, Grant>, started: seq<Start>, leaked: bool)

  datatype Grant = Grant(peer: Pid, expires: int, run: RunId)
  datatype Start = Start(capability: Capability, peer: Pid, at: int, run: RunId)

  const CAPABILITY_LIFETIME := 2

  // ---------------------------------------------------------------- the transitions

  function Discard(s: State, cleaned: bool): State
    requires s.pending.Some?
  {
    s.(pending := None, blocked := s.blocked || !cleaned,
       snapshots := if cleaned then s.snapshots - {s.pending.value.run} else s.snapshots)
  }

  function Expire(s: State, env: Env): State {
    if s.pending.Some? && env.now >= s.pending.value.expires then Discard(s, env.cleaned) else s
  }

  function OnPrepare(s: State, peer: Pid, env: Env): (State, Response) {
    if s.blocked || s.active.Some? || s.pending.Some? then
      (s, Error(if s.blocked then "unavailable" else "busy"))
    else if env.staged.None? then (s, Raised)
    else
      var expires := env.later + CAPABILITY_LIFETIME;
      (s.(pending := Some(Pending(env.capability, expires, peer, env.staged.value, env.run)),
          snapshots := s.snapshots + {env.run},
          issued := s.issued[env.capability := Grant(peer, expires, env.run)]),
       Prepared(env.capability, env.staged.value))
  }

  function OnVerify(s: State, capability: Capability, peer: Pid, env: Env): (State, Response) {
    if s.pending.None? || peer != s.pending.value.peer || capability != s.pending.value.capability then
      (s, Error("invalid_capability"))
    else
      var p := s.pending.value;
      if !env.stored then (s.(pending := None, leaked := true), Raised)
      else
        (s.(pending := None, current := Some(p.run), active := Some(Job(p.run, p.digest, false)),
            started := s.started + [Start(p.capability, peer, env.now, p.run)]),
         Accepted(p.run))
  }

  function OnRun(s: State, run: RunId, stop: bool): (State, Response) {
    if s.active.Some? && s.active.value.run == run then
      (if stop then s.(active := Some(s.active.value.(cancel := true))) else s, Running(run))
    else if s.recent.Some? && s.recent.value.run == run then (s, Reported(s.recent.value))
    else (s, Error("unknown_run"))
  }

  function Handle(s0: State, op: Op, peer: Pid, env: Env): (State, Response) {
    var s := Expire(s0, env);
    match op
    case Health => (s, Ready(s.blocked, s.active.Some? || s.pending.Some?))
    case Prepare => OnPrepare(s, peer, env)
    case Verify(capability) => OnVerify(s, capability, peer, env)
    case Result(run) => OnRun(s, run, false)
    case Cancel(run) => OnRun(s, run, true)
    case Cleanup(run) => OnRun(s, run, true)
  }

  /** The end of `execute_probe`.  The first assignment to `blocked` is a plain one. */
  function Complete(s: State, c: Completion): State
    requires s.active.Some?
  {
    var run := s.active.value.run;
    var gone := c.empty && c.destroyed;
    var blocked := !c.empty || !gone;
    s.(blocked := blocked || !c.stored || !c.unlinked,
       recentFile := if c.stored then Some(Finished(run, c.passed)) else s.recentFile,
       current := if c.stored && !blocked && c.unlinked then None else s.current,
       snapshots := if gone then s.snapshots - {run} else s.snapshots,
       recent := Some(Finished(run, c.passed)), active := None)
  }

  /** `Worker.__init__`: what a new process makes of the files it finds. */
  function Restart(disk: State, cleaned: bool): State {
    var recent :=
      if disk.current.Some? then Some(Reconciled(disk.current.value, cleaned))
      else if disk.recentFile.Some? && disk.recentFile.value.Reconciled? then
        Some(disk.recentFile.value.(snapshotDestroyed := cleaned))
      else disk.recentFile;
    State(None, None, recent, !cleaned, None, recent, if cleaned then {} else disk.snapshots, map[], [], false)
  }
}
