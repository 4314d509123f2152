/** Job runs on several instances that share one database, apps/api/src/jobs/jobRunner.ts and
    apps/api/src/jobs/jobRepo.ts.

    A session is one database connection.  The advisory lock belongs to a session, not to a run;
    a session may take a lock it already has once more, and must give it back as often.  Times are
    microseconds.  Losing a session ends the run that used it. */
module JobLocks {
  import opened Wrappers

  // ---------- rows of job_runs ----------

  datatype Status = Running | Success | Failed

  datatype Row = Row(
    enabled: bool,
    interval: int,
    maxRun: Option<int>,
    status: Option<Status>,
    lastStarted: Option<int>,
    nextRun: Option<int>)

  const SECOND: int := 1_000_000

  function Min(a: int, b: int): int { if a < b then a else b }

  /** How long a run may be RUNNING before its row counts as stale. */
  function Ceiling(row: Row): int { row.maxRun.GetOr(Min(row.interval * 5, 300)) * SECOND }

  /** The WHERE of `findDueJobs`; a comparison with NULL is not true. */
  predicate Due(row: Row, now: int) {
    && row.enabled
    && (row.nextRun.None? || row.nextRun.value <= now)
    && (row.status != Some(Running) || (row.lastStarted.Some? && row.lastStarted.value < now - Ceiling(row)))
  }

  /** What a caller knows of the last start: nothing and it does not ask (a manual trigger), or
      what it read, which the driver cuts to milliseconds. */
  datatype Expected = Unasked | Observed(lastStarted: Option<int>)

  function Millis(t: Option<int>): Option<int> { if t.None? then None else Some(t.value / 1000) }

  function Observe(row: Row): Expected { Observed(Millis(row.lastStarted)) }

  /** The WHERE of `markStarted`. */
  predicate MayClaim(row: Row, expected: Expected) {
    expected.Unasked? || Millis(row.lastStarted) == expected.lastStarted || row.status != Some(Running)
  }

  function Started(row: Row, now: int): Row { row.(lastStarted := Some(now), status := Some(Running)) }

  function Finished(row: Row, status: Status, now: int): Row {
    row.(status := Some(status), nextRun := Some(now + row.interval * SECOND))
  }

  function ResetRow(row: Row): Row { if row.status == Some(Running) then row.(status := Some(Failed)) else row }

  // ---------- sessions and locks ----------

  datatype Phase = Connected | HasLock | InBody(claimedAt: int) | Unlocking | Releasing

  datatype Use = Idle | Busy(job: string, expected: Expected, phase: Phase)

  datatype Hold = Hold(session: nat, count: nat)

  /** Sessions that are not in the map are closed. */
  datatype World = World(sessions: map<nat, Use>, locks: map<int, Hold>, rows: map<string, Row>, now: int)

  /** What an event is about: `hash` is the database's hash of a job name, which need not be
      injective. */
  datatype Event =
    | Opens(s: nat)
    | Connects(s: nat, job: string, expected: Expected)
    | TriesLock(s: nat)
    | Claims(s: nat)
    | ClaimErrors(s: nat)
    | Finishes(s: nat, success: bool)
    | FinishErrors(s: nat)
    | Unlocks(s: nat)
    | UnlockErrors(s: nat)
    | Releases(s: nat)
    | Lost(s: nat)
    | Boots
    | Configures(job: string, enabled: bool, interval: int, maxRun: Option<int>)
    | Passes(time: nat)

  predicate InUse(w: World, s: nat) { s in w.sessions && w.sessions[s].Busy? }

  predicate Enabled(w: World, ev: Event) {
    match ev
    case Opens(s) => s !in w.sessions
    case Connects(s, _, _) => s in w.sessions && w.sessions[s].Idle?
    case TriesLock(s) => InUse(w, s) && w.sessions[s].phase.Connected?
    case Claims(s) => InUse(w, s) && w.sessions[s].phase.HasLock?
    case ClaimErrors(s) => InUse(w, s) && w.sessions[s].phase.HasLock?
    case Finishes(s, _) => InUse(w, s) && w.sessions[s].phase.InBody?
    case FinishErrors(s) => InUse(w, s) && w.sessions[s].phase.InBody?
    case Unlocks(s) => InUse(w, s) && w.sessions[s].phase.Unlocking?
    case UnlockErrors(s) => InUse(w, s) && w.sessions[s].phase.Unlocking?
    case Releases(s) => InUse(w, s) && w.sessions[s].phase.Releasing?
    case Lost(s) => s in w.sessions
    case _ => true
  }

  function Put(w: World, s: nat, phase: Phase): World
    requires InUse(w, s)
  {
    w.(sessions := w.sessions[s := w.sessions[s].(phase := phase)])
  }

  /** The session's end: the database drops its locks. */
  function Close(w: World, s: nat): World {
    w.(sessions := w.sessions - {s}, locks := map k | k in w.locks && w.locks[k].session != s :: w.locks[k])
  }

  /** `pg_try_advisory_lock`. */
  function TryLock(w: World, s: nat, key: int): World
    requires InUse(w, s)
  {
    if key !in w.locks then Put(w, s, HasLock).(locks := w.locks[key := Hold(s, 1)])
    else if w.locks[key].session == s then Put(w, s, HasLock).(locks := w.locks[key := Hold(s, w.locks[key].count + 1)])
    else Put(w, s, Releasing)
  }

  /** `pg_advisory_unlock`. */
  function Unlock(w: World, s: nat, key: int): World
    requires InUse(w, s)
  {
    var next := Put(w, s, Releasing);
    if key !in w.locks || w.locks[key].session != s then next
    else if w.locks[key].count <= 1 then next.(locks := w.locks - {key})
    else next.(locks := w.locks[key := Hold(s, w.locks[key].count - 1)])
  }

  /** `markStarted` on the session's own client. */
  function Claim(w: World, s: nat): World
    requires InUse(w, s)
  {
    var job := w.sessions[s].job;
    if job in w.rows && MayClaim(w.rows[job], w.sessions[s].expected)
    then Put(w, s, InBody(w.now)).(rows := w.rows[job := Started(w.rows[job], w.now)])
    else Put(w, s, Unlocking)
  }

  function Finish(w: World, s: nat, success: bool): World
    requires InUse(w, s)
  {
    var job := w.sessions[s].job;
    var next := Put(w, s, Unlocking);
    if job !in w.rows then next
    else next.(rows := w.rows[job := Finished(w.rows[job], if success then Success else Failed, w.now)])
  }

  function Step(w: World, hash: string -> int, ev: Event): World
    requires Enabled(w, ev)
  {
    match ev
    case Opens(s) => w.(sessions := w.sessions[s := Idle])
    case Connects(s, job, expected) => w.(sessions := w.sessions[s := Busy(job, expected, Connected)])
    case TriesLock(s) => TryLock(w, s, hash(w.sessions[s].job))
    case Claims(s) => Claim(w, s)
    case ClaimErrors(s) => Put(w, s, Unlocking)
    case Finishes(s, success) => Finish(w, s, success)
    case FinishErrors(s) => Put(w, s, Unlocking)
    case Unlocks(s) => Unlock(w, s, hash(w.sessions[s].job))
    case UnlockErrors(s) => Close(w, s)
    case Releases(s) => w.(sessions := w.sessions[s := Idle])
    case Lost(s) => Close(w, s)
    case Boots => w.(rows := map j | j in w.rows :: ResetRow(w.rows[j]))
    case Configures(job, enabled, interval, maxRun) =>
      if job !in w.rows then w
      else w.(rows := w.rows[job := w.rows[job].(enabled := enabled, interval := interval, maxRun := maxRun)])
    case Passes(time) => w.(now := w.now + time)
  }

  predicate CanRun(w: World, hash: string -> int, evs: seq<Event>)
    decreases |evs|
  {
    evs == [] || (Enabled(w, evs[0]) && CanRun(Step(w, hash, evs[0]), hash, evs[1..]))
  }

  function Run(w: World, hash: string -> int, evs: seq<Event>): World
    requires CanRun(w, hash, evs)
    decreases |evs|
  {
    if evs == [] then w else Run(Step(w, hash, evs[0]), hash, evs[1..])
  }

  /** Nothing connected yet, whatever the rows say. */
  function Fresh(rows: map<string, Row>, now: int): World { World(map[], map[], rows, now) }

  // ---------- who holds a lock ----------

  /** A session between its lock and its unlock. */
  predicate NeedsLock(u: Use) { u.Busy? && (u.phase.HasLock? || u.phase.InBody? || u.phase.Unlocking?) }

  /** The lock table is exactly the sessions between lock and unlock, each holding once. */
  ghost predicate LocksMatch(w: World, hash: string -> int) {
    && (forall s :: s in w.sessions && NeedsLock(w.sessions[s]) ==>
          hash(w.sessions[s].job) in w.locks && w.locks[hash(w.sessions[s].job)] == Hold(s, 1))
    && (forall k :: k in w.locks ==>
          var s := w.locks[k].session;
          w.locks[k].count == 1 && s in w.sessions && NeedsLock(w.sessions[s]) && hash(w.sessions[s].job) == k)
  }

  /** A run in its body claimed its row at the row's last start. */
  ghost predicate BodiesOwnRows(w: World) {
    forall s :: s in w.sessions && w.sessions[s].Busy? && w.sessions[s].phase.InBody? ==>
      w.sessions[s].job in w.rows && w.rows[w.sessions[s].job].lastStarted == Some(w.sessions[s].phase.claimedAt)
  }

  lemma CloseKeepsLocks(w: World, hash: string -> int, s: nat)
    requires LocksMatch(w, hash)
    ensures LocksMatch(Close(w, s), hash)
  {
  }

  lemma TryKeepsLocks(w: World, hash: string -> int, s: nat)
    requires LocksMatch(w, hash) && Enabled(w, TriesLock(s))
    ensures LocksMatch(Step(w, hash, TriesLock(s)), hash)
  {
  }

  lemma ClaimKeepsLocks(w: World, hash: string -> int, s: nat)
    requires LocksMatch(w, hash) && Enabled(w, Claims(s))
    ensures LocksMatch(Step(w, hash, Claims(s)), hash)
  {
  }

  lemma UnlockKeepsLocks(w: World, hash: string -> int, s: nat)
    requires LocksMatch(w, hash) && Enabled(w, Unlocks(s))
    ensures LocksMatch(Step(w, hash, Unlocks(s)), hash)
  {
  }

  lemma StepKeepsLocks(w: World, hash: string -> int, ev: Event)
    requires LocksMatch(w, hash) && Enabled(w, ev)
    ensures LocksMatch(Step(w, hash, ev), hash)
  {
    hide Close, TryLock, Unlock, Claim;
    match ev
    case Claims(s) => ClaimKeepsLocks(w, hash, s);
    case TriesLock(s) => TryKeepsLocks(w, hash, s);
    case Unlocks(s) => UnlockKeepsLocks(w, hash, s);
    case UnlockErrors(s) => CloseKeepsLocks(w, hash, s);
    case Lost(s) => CloseKeepsLocks(w, hash, s);
    case _ =>
  }

  lemma StepKeepsOwnership(w: World, hash: string -> int, ev: Event)
    requires LocksMatch(w, hash) && BodiesOwnRows(w) && Enabled(w, ev)
    ensures BodiesOwnRows(Step(w, hash, ev))
  {
  }

  ghost predicate Sound(w: World, hash: string -> int) { LocksMatch(w, hash) && BodiesOwnRows(w) }

  lemma {:induction false} RunKeepsSound(w: World, hash: string -> int, evs: seq<Event>)
    requires Sound(w, hash) && CanRun(w, hash, evs)
    ensures Sound(Run(w, hash, evs), hash)
    decreases |evs|
  {
    hide Step, Enabled, LocksMatch, BodiesOwnRows;
    if evs != [] {
      StepKeepsLocks(w, hash, evs[0]);
      StepKeepsOwnership(w, hash, evs[0]);
      RunKeepsSound(Step(w, hash, evs[0]), hash, evs[1..]);
    }
  }

  predicate InBodyOf(w: World, s: nat, job: string) {
    s in w.sessions && w.sessions[s].Busy? && w.sessions[s].job == job && w.sessions[s].phase.InBody?
  }

  /** In every run from nothing connected, with crashes, slow runs selected again as stale, manual
      triggers and boots of other instances, at most one session is in a job's body. */
  lemma MutualExclusion(rows: map<string, Row>, now: int, hash: string -> int, evs: seq<Event>, a: nat, b: nat, job: string)
    requires CanRun(Fresh(rows, now), hash, evs)
    requires var w := Run(Fresh(rows, now), hash, evs); InBodyOf(w, a, job) && InBodyOf(w, b, job)
    ensures a == b
  {
    RunKeepsSound(Fresh(rows, now), hash, evs);
  }

  /** In every run no idle pooled session holds a lock, and no session holds any lock twice. */
  lemma IdleHoldsNothing(rows: map<string, Row>, now: int, hash: string -> int, evs: seq<Event>, k: int)
    requires CanRun(Fresh(rows, now), hash, evs)
    requires k in Run(Fresh(rows, now), hash, evs).locks
    ensures var w := Run(Fresh(rows, now), hash, evs);
      var h := w.locks[k];
      h.count == 1 && h.session in w.sessions && !w.sessions[h.session].Idle?
  {
    RunKeepsSound(Fresh(rows, now), hash, evs);
  }

  // ---------- only the holder writes the row ----------

  /** The session an event is a step of. */
  function Actor(ev: Event): Option<nat> {
    if ev.Boots? || ev.Configures? || ev.Passes? then None else Some(ev.s)
  }

  /** While s is in the job's body its row changes under another's step exactly when another
      instance boots while the row is RUNNING, or the row is configured differently; no other
      session touches it, and no step but its own ends the body or changes its start. */
  lemma RowChangesIff(w: World, hash: string -> int, ev: Event, s: nat, job: string)
    requires Sound(w, hash) && Enabled(w, ev) && InBodyOf(w, s, job) && Actor(ev) != Some(s)
    ensures var after := Step(w, hash, ev);
      && InBodyOf(after, s, job) && job in after.rows && after.rows[job].lastStarted == w.rows[job].lastStarted
      && (after.rows[job] != w.rows[job] <==>
          || (ev.Boots? && w.rows[job].status == Some(Running))
          || (ev.Configures? && ev.job == job && Settings(w.rows[job]) != (ev.enabled, ev.interval, ev.maxRun)))
  {
  }

  function Settings(row: Row): (bool, int, Option<int>) { (row.enabled, row.interval, row.maxRun) }

  /** A boot beside a live run turns its row to FAILED: the row is due again as soon as its next run
      has come, however little of the ceiling has passed, and every claim on it is let through;
      only the lock still keeps a second run out. */
  lemma BootResetsLiveRun(w: World, hash: string -> int, s: nat, job: string)
    requires Sound(w, hash) && InBodyOf(w, s, job) && w.rows[job].status == Some(Running)
    ensures var after := Step(w, hash, Boots);
      && InBodyOf(after, s, job) && after.rows[job].status == Some(Failed)
      && (Due(after.rows[job], w.now) <==>
          w.rows[job].enabled && (w.rows[job].nextRun.Some? ==> w.rows[job].nextRun.value <= w.now))
      && forall e :: MayClaim(after.rows[job], e)
  {
  }

  /** Such a boot is reached from nothing connected: a run in its body, its row FAILED. */
  lemma LiveRunReset(rows: map<string, Row>, now: int, hash: string -> int, job: string)
    requires job in rows
    ensures var evs := [Opens(0), Connects(0, job, Unasked), TriesLock(0), Claims(0), Boots];
      && CanRun(Fresh(rows, now), hash, evs)
      && var w := Run(Fresh(rows, now), hash, evs);
         InBodyOf(w, 0, job) && job in w.rows && w.rows[job].status == Some(Failed)
  {
    var connected := Step(Fresh(rows, now), hash, Opens(0));
    OrphanIsRunAgain(connected, hash, 0, job, Unasked);
    var evs := [Connects(0, job, Unasked), TriesLock(0), Claims(0)];
    RunAppend(connected, hash, evs, [Boots]);
    var claimed := Run(connected, hash, evs);
    assert [Boots][1..] == [];
    assert Run(claimed, hash, [Boots]) == Step(claimed, hash, Boots);
    var all := [Opens(0), Connects(0, job, Unasked), TriesLock(0), Claims(0), Boots];
    assert all[1..] == evs + [Boots];
    assert CanRun(Fresh(rows, now), hash, all) && Run(Fresh(rows, now), hash, all) == Step(claimed, hash, Boots);
  }

  lemma {:induction false} RunAppend(w: World, hash: string -> int, a: seq<Event>, b: seq<Event>)
    requires CanRun(w, hash, a) && CanRun(Run(w, hash, a), hash, b)
    ensures CanRun(w, hash, a + b) && Run(w, hash, a + b) == Run(Run(w, hash, a), hash, b)
    decreases |a|
  {
    hide Step, Enabled;
    if a == [] {
      assert a + b == b;
    } else {
      assert (a + b)[1..] == a[1..] + b;
      RunAppend(Step(w, hash, a[0]), hash, a[1..], b);
    }
  }

  /** And another run of that job that reaches the lock gives up without it. */
  lemma SecondRunGivesUp(w: World, hash: string -> int, s: nat, other: nat, job: string)
    requires Sound(w, hash) && InBodyOf(w, s, job) && other != s
    requires other in w.sessions && w.sessions[other].Busy? && w.sessions[other].job == job
    ensures w.sessions[other].phase.Connected? || w.sessions[other].phase.Releasing?
    ensures w.sessions[other].phase.Connected? ==>
      Step(w, hash, TriesLock(other)) == Put(w, other, Releasing)
  {
  }

  // ---------- the claim ----------

  /** A selection that saw the row last started in millisecond `seen` is spent: the row is RUNNING
      from a later one. */
  predicate Spent(w: World, job: string, seen: Option<int>) {
    && job in w.rows && w.rows[job].status == Some(Running)
    && w.rows[job].lastStarted.Some? && w.rows[job].lastStarted.value <= w.now
    && (seen.Some? ==> seen.value < w.rows[job].lastStarted.value / 1000)
  }

  /** No run of the job finishes and no instance boots. */
  predicate NothingEnds(w: World, hash: string -> int, evs: seq<Event>, job: string)
    requires CanRun(w, hash, evs)
    decreases |evs|
  {
    evs == []
    || (!evs[0].Boots? && !(evs[0].Finishes? && w.sessions[evs[0].s].job == job)
        && NothingEnds(Step(w, hash, evs[0]), hash, evs[1..], job))
  }

  lemma StepKeepsSpent(w: World, hash: string -> int, ev: Event, job: string, seen: Option<int>)
    requires Spent(w, job, seen) && Enabled(w, ev) && !ev.Boots? && !(ev.Finishes? && w.sessions[ev.s].job == job)
    ensures Spent(Step(w, hash, ev), job, seen)
  {
  }

  /** A spent selection stays spent: over every run, with crashes, re-selections and triggers, its
      claims are refused until a run of the job finishes or an instance boots. */
  lemma {:induction false} SpentUntilFinished(w: World, hash: string -> int, evs: seq<Event>, job: string, seen: Option<int>)
    requires Spent(w, job, seen) && CanRun(w, hash, evs) && NothingEnds(w, hash, evs, job)
    ensures var after := Run(w, hash, evs);
      Spent(after, job, seen) && !MayClaim(after.rows[job], Observed(seen))
    decreases |evs|
  {
    if evs != [] {
      StepKeepsSpent(w, hash, evs[0], job, seen);
      hide Step, Spent, Enabled;
      SpentUntilFinished(Step(w, hash, evs[0]), hash, evs[1..], job, seen);
    }
  }

  /** A row nobody touched since it was selected can always be claimed, though the driver cut its
      time; compared uncut it could not be, unless the start fell on a whole millisecond. */
  lemma UntouchedCanBeClaimed(row: Row)
    requires row.lastStarted.Some?
    ensures MayClaim(row, Observe(row))
    ensures Observe(row).lastStarted.value * 1000 == row.lastStarted.value <==> row.lastStarted.value % 1000 == 0
  {
  }

  /** Of two runs that selected the same row, once one has claimed it in a later millisecond the
      other's claim is refused until that run has finished; then it is granted again, so one due
      time can be run twice, one after the other. */
  lemma SecondClaim(row: Row, now: int, later: int, status: Status)
    requires row.lastStarted.Some? ==> row.lastStarted.value / 1000 < now / 1000
    requires status != Running
    ensures !MayClaim(Started(row, now), Observe(row))
    ensures MayClaim(Finished(Started(row, now), status, later), Observe(row))
  {
  }

  // ---------- a crashed owner's row ----------

  predicate LockFree(w: World, hash: string -> int, job: string) { hash(job) !in w.locks }

  /** Losing the session in the body leaves the row RUNNING and the lock free. */
  lemma CrashFreesLock(w: World, hash: string -> int, s: nat, job: string)
    requires Sound(w, hash) && InBodyOf(w, s, job)
    ensures var after := Step(w, hash, Lost(s));
      LockFree(after, hash, job) && after.rows == w.rows && Sound(after, hash)
  {
    StepKeepsLocks(w, hash, Lost(s));
    StepKeepsOwnership(w, hash, Lost(s));
  }

  /** Whoever then selects the row on an idle session, or triggers the job, runs it. */
  lemma OrphanIsRunAgain(w: World, hash: string -> int, s: nat, job: string, expected: Expected)
    requires LockFree(w, hash, job) && job in w.rows && s in w.sessions && w.sessions[s].Idle?
    requires expected.Unasked? || expected == Observe(w.rows[job])
    ensures var evs := [Connects(s, job, expected), TriesLock(s), Claims(s)];
      && CanRun(w, hash, evs)
      && InBodyOf(Run(w, hash, evs), s, job)
      && Run(w, hash, evs).rows == w.rows[job := Started(w.rows[job], w.now)]
  {
    var a, b, c := Connects(s, job, expected), TriesLock(s), Claims(s);
    var wa := Step(w, hash, a);
    assert wa.sessions[s] == Busy(job, expected, Connected);
    var wb := Step(wa, hash, b);
    assert wb.sessions[s] == Busy(job, expected, HasLock) && wb.rows == w.rows;
    var wc := Step(wb, hash, c);
    assert InBodyOf(wc, s, job) && wc.rows == w.rows[job := Started(w.rows[job], w.now)];
    var evs := [a, b, c];
    assert evs[1..] == [b, c] && [b, c][1..] == [c] && [c][1..] == [];
    assert CanRun(wc, hash, []) && CanRun(wb, hash, [c]) && CanRun(wa, hash, [b, c]);
    assert Run(wb, hash, [c]) == Run(wc, hash, []) == wc;
    assert Run(wa, hash, [b, c]) == wc;
  }

  /** After a crash in the body and any time: the row is due exactly once its next run has come and,
      unless a boot has reset it, the ceiling has passed since the claim; then an idle session that
      selects it gets into the body. */
  lemma CrashedRunRecovers(w: World, hash: string -> int, s: nat, t: nat, job: string, time: nat)
    requires Sound(w, hash) && InBodyOf(w, s, job) && t in w.sessions && w.sessions[t].Idle?
    ensures var row := w.rows[job];
      var after := Step(Step(w, hash, Lost(s)), hash, Passes(time));
      && job in after.rows
      && (Due(after.rows[job], after.now) <==>
          && row.enabled && (row.nextRun.Some? ==> row.nextRun.value <= w.now + time)
          && (row.status == Some(Running) ==> w.sessions[s].phase.claimedAt + CeilingOf(row) < w.now + time))
      && var evs := [Connects(t, job, Observe(after.rows[job])), TriesLock(t), Claims(t)];
         CanRun(after, hash, evs) && InBodyOf(Run(after, hash, evs), t, job)
  {
    CrashFreesLock(w, hash, s, job);
    var after := Step(Step(w, hash, Lost(s)), hash, Passes(time));
    assert after.sessions[t] == w.sessions[t];
    hide Run, CanRun, TryLock, Claim;
    OrphanIsRunAgain(after, hash, t, job, Observe(after.rows[job]));
  }

  // ---------- the table as it is updated ----------

  /** The ceiling in microseconds, by the configured or the default number of seconds. */
  function CeilingOf(row: Row): int {
    1_000_000 * (if row.maxRun.Some? then row.maxRun.value else if row.interval * 5 < 300 then row.interval * 5 else 300)
  }

  /** The job_runs table. */
  class JobRepo {
    var rows: map<string, Row>

    constructor (rows: map<string, Row>)
      ensures this.rows == rows
    {
      this.rows := rows;
    }

    /** The new start, or nothing when the claim failed. */
    method MarkStarted(name: string, expected: Expected, now: int) returns (startedAt: Option<int>)
      modifies this
      ensures startedAt.Some? <==> name in old(rows) && MayClaim(old(rows)[name], expected)
      ensures startedAt.Some? <==>
        && name in old(rows)
        && (|| expected.Unasked? || old(rows)[name].status != Some(Running)
            || expected.lastStarted == (match old(rows)[name].lastStarted case Some(t) => Some(t / 1000) case None => None))
      ensures startedAt.Some? ==> startedAt == Some(now) && rows == old(rows)[name := Started(old(rows)[name], now)]
      ensures startedAt.Some? ==>
        rows == old(rows)[name := old(rows)[name].(lastStarted := Some(now), status := Some(Running))]
      ensures startedAt.None? ==> rows == old(rows)
    {
      if name !in rows {
        return None;
      }
      var row := rows[name];
      var asSelected := expected.Unasked? || Millis(row.lastStarted) == expected.lastStarted;
      if asSelected || row.status != Some(Running) {
        rows := rows[name := row.(lastStarted := Some(now), status := Some(Running))];
        return Some(now);
      }
      return None;
    }

    method MarkFinished(name: string, status: Status, now: int)
      modifies this
      ensures rows == if name in old(rows) then old(rows)[name := Finished(old(rows)[name], status, now)] else old(rows)
      ensures name in old(rows) ==>
        && name in rows && rows[name].status == Some(status) && rows[name].lastStarted == old(rows)[name].lastStarted
        && rows[name].nextRun == Some(now + 1_000_000 * old(rows)[name].interval)
    {
      if name in rows {
        var row := rows[name];
        rows := rows[name := row.(status := Some(status), nextRun := Some(now + row.interval * SECOND))];
      }
    }

    /** Returns how many rows were RUNNING; none is afterwards. */
    method ResetStaleRunningOnStartup() returns (count: nat)
      modifies this
      ensures rows == map j | j in old(rows) :: ResetRow(old(rows)[j])
      ensures forall j :: j in rows ==> rows[j].status != Some(Running)
      ensures count == |set j | j in old(rows) && old(rows)[j].status == Some(Running)|
    {
      var stale := set j | j in rows && rows[j].status == Some(Running);
      count := |stale|;
      rows := map j | j in rows :: if j in stale then rows[j].(status := Some(Failed)) else rows[j];
    }

    /** The earliest next run among some rows, one that was never planned first. */
    method Earliest(names: set<string>) returns (first: string)
      requires names != {} && names <= rows.Keys
      ensures first in names && forall j :: j in names ==> NotLater(rows[first].nextRun, rows[j].nextRun)
    {
      first :| first in names;
      var left := names - {first};
      while left != {}
        invariant left <= names && first in names - left
        invariant forall j :: j in names - left ==> NotLater(rows[first].nextRun, rows[j].nextRun)
        decreases |left|
      {
        var j :| j in left;
        left := left - {j};
        if !NotLater(rows[first].nextRun, rows[j].nextRun) {
          first := j;
        }
      }
    }

    /** Each due row once, in the order of their next runs. */
    method FindDueJobs(now: int) returns (due: seq<string>)
      ensures forall j :: j in due <==> j in rows && Due(rows[j], now)
      ensures forall j :: j in due <==>
        && j in rows && rows[j].enabled && (rows[j].nextRun.Some? ==> rows[j].nextRun.value <= now)
        && (rows[j].status == Some(Running) ==> rows[j].lastStarted.Some? && rows[j].lastStarted.value + CeilingOf(rows[j]) < now)
      ensures forall a, b :: 0 <= a < b < |due| ==> due[a] != due[b]
      ensures forall a, b :: 0 <= a < b < |due| && rows[due[a]].nextRun.Some? ==>
        rows[due[b]].nextRun.Some? && rows[due[a]].nextRun.value <= rows[due[b]].nextRun.value
    {
      DueIs(now);
      hide Due;
      ghost var wanted := set j | j in rows && Due(rows[j], now);
      var left := set j | j in rows && Due(rows[j], now);
      due := [];
      while left != {}
        invariant left <= wanted
        invariant forall a :: 0 <= a < |due| ==> due[a] in rows && due[a] in wanted && due[a] !in left
        invariant forall j :: j in wanted ==> j in left || j in due
        invariant forall a, b :: 0 <= a < b < |due| ==>
          due[a] != due[b] && NotLater(rows[due[a]].nextRun, rows[due[b]].nextRun)
        invariant forall a, j :: 0 <= a < |due| && j in left ==> NotLater(rows[due[a]].nextRun, rows[j].nextRun)
        decreases |left|
      {
        var first := Earliest(left);
        left := left - {first};
        due := due + [first];
      }
    }
  }

  lemma DueIs(now: int)
    ensures forall row {:trigger Due(row, now)} :: Due(row, now) <==>
      && row.enabled && (row.nextRun.Some? ==> row.nextRun.value <= now)
      && (row.status == Some(Running) ==> row.lastStarted.Some? && row.lastStarted.value + CeilingOf(row) < now)
  {
    assert forall row :: Ceiling(row) == CeilingOf(row);
  }

  /** The order of next runs, never planned before all. */
  predicate NotLater(a: Option<int>, b: Option<int>) { a.None? || (b.Some? && a.value <= b.value) }
}
