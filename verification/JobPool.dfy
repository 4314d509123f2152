/** The job runner's use of one bounded connection pool, apps/api/src/jobs/jobRunner.ts.

    A run interleaves single steps of the tick, of the jobs in flight and of leader election.  A
    job holds one pooled client from its lock to its release; its body may hold up to `extra` more
    at a time, and gives none back while it waits for one. */
module JobPool {
  const LEADER_LOCK_RESERVE: nat := 4

  /** The pool's size, the concurrency asked for, how many clients a body holds at a time beside
      its job's own, and how often a body asks for one. */
  datatype Config = Config(size: nat, requested: int, extra: nat, asks: nat)

  function Max(a: int, b: int): int { if a < b then b else a }

  function Min(a: int, b: int): int { if a < b then a else b }

  /** `safeMaxConcurrency`. */
  function SafeMaxConcurrency(poolMax: nat): int { Max(1, (poolMax - LEADER_LOCK_RESERVE) / 2) }

  /** The clamp that `start` applies. */
  function MaxConcurrency(cfg: Config): int { Max(1, Min(cfg.requested, SafeMaxConcurrency(cfg.size))) }

  // ---------- states ----------

  /** Where a run of a job is in `runJob`.  In its body it holds `extra` clients beside its own, may
      be asking for one more, and will ask at most `budget` more times. */
  datatype Phase =
    | Waiting
    | Connected
    | Locked
    | Body(extra: nat, asking: bool, budget: nat)
    | Finishing
    | Unlocking
    | Releasing

  datatype Job = Job(name: string, phase: Phase)

  datatype Tick = Idle | AskingForDue | QueryingDue

  datatype Runner = Runner(jobs: seq<Job>, tick: Tick, leaders: nat, leaderAsks: nat, stopping: bool)

  const INITIAL := Runner([], Idle, 0, 0, false)

  function HeldOf(j: Job): nat {
    match j.phase
    case Waiting => 0
    case Body(extra, _, _) => 1 + extra
    case _ => 1
  }

  function AskedOf(j: Job): nat { if j.phase.Waiting? || (j.phase.Body? && j.phase.asking) then 1 else 0 }

  function Sum(f: Job -> nat, jobs: seq<Job>): nat { if jobs == [] then 0 else f(jobs[0]) + Sum(f, jobs[1..]) }

  /** The clients held. */
  function Held(st: Runner): nat { Sum(HeldOf, st.jobs) + (if st.tick.QueryingDue? then 1 else 0) + st.leaders }

  /** The clients asked for and not yet given. */
  function Asked(st: Runner): nat { Sum(AskedOf, st.jobs) + (if st.tick.AskingForDue? then 1 else 0) + st.leaderAsks }

  predicate SomeFree(st: Runner, cfg: Config) { Held(st) < cfg.size }

  /** Somebody asks for a client and none is free. */
  predicate Starved(st: Runner, cfg: Config) { Asked(st) > 0 && !SomeFree(st, cfg) }

  predicate AllAsk(jobs: seq<Job>) { forall j :: j in jobs ==> AskedOf(j) == 1 }

  /** Deadlock: every job in flight waits for a client, none is free, and no tick is about to give
      one back. */
  predicate Stuck(st: Runner, cfg: Config) {
    st.jobs != [] && AllAsk(st.jobs) && !SomeFree(st, cfg) && !st.tick.QueryingDue?
  }

  // ---------- steps ----------

  /** What one job can do next.  Acquire is being given the client it asks for, TimeOut the pool
      giving up on that. */
  datatype Move =
    | Acquire
    | TryLock(got: bool)
    | Claim(claimed: bool)
    | BodyAsk
    | BodyRelease
    | BodyEnd
    | MarkFinished
    | Unlock
    | Release
    | TimeOut

  predicate CanMove(p: Phase, cfg: Config, free: bool, m: Move) {
    match m
    case Acquire => (p.Waiting? || (p.Body? && p.asking)) && free
    case TimeOut => (p.Waiting? || (p.Body? && p.asking)) && !free
    case TryLock(_) => p.Connected?
    case Claim(_) => p.Locked?
    case BodyAsk => p.Body? && !p.asking && p.extra < cfg.extra && p.budget > 0
    case BodyRelease => p.Body? && !p.asking && p.extra > 0
    case BodyEnd => p.Body? && p.extra == 0 && !p.asking
    case MarkFinished => p.Finishing?
    case Unlock => p.Unlocking?
    case Release => p.Releasing?
  }

  /** The job after a move, or nothing once its name has left the in-flight set. */
  function Moved(j: Job, cfg: Config, m: Move): seq<Job> {
    match m
    case Acquire =>
      if j.phase.Body? then [j.(phase := j.phase.(extra := j.phase.extra + 1, asking := false))] else [j.(phase := Connected)]
    case TimeOut => if j.phase.Body? then [j.(phase := j.phase.(asking := false))] else []
    case TryLock(got) => [j.(phase := if got then Locked else Releasing)]
    case Claim(claimed) => [j.(phase := if claimed then Body(0, false, cfg.asks) else Unlocking)]
    case BodyAsk => if j.phase.Body? && j.phase.budget > 0 then [j.(phase := j.phase.(asking := true, budget := j.phase.budget - 1))] else [j]
    case BodyRelease => if j.phase.Body? && j.phase.extra > 0 then [j.(phase := j.phase.(extra := j.phase.extra - 1))] else [j]
    case BodyEnd => [j.(phase := Finishing)]
    case MarkFinished => [j.(phase := Unlocking)]
    case Unlock => [j.(phase := Releasing)]
    case Release => []
  }

  predicate InFlight(jobs: seq<Job>, name: string) { exists j :: j in jobs && j.name == name }

  /** The loop of `tick` over the due rows. */
  function StartDue(jobs: seq<Job>, due: seq<string>, limit: int): seq<Job>
    decreases |due|
  {
    if due == [] || |jobs| >= limit then jobs
    else if InFlight(jobs, due[0]) then StartDue(jobs, due[1..], limit)
    else StartDue(jobs + [Job(due[0], Waiting)], due[1..], limit)
  }

  predicate StartedFrom(jobs: seq<Job>, after: seq<Job>, due: seq<string>) {
    && jobs <= after
    && forall i :: |jobs| <= i < |after| ==> after[i].phase.Waiting? && after[i].name in due && !InFlight(jobs, after[i].name)
  }

  lemma FoundIsInFlight(jobs: seq<Job>, more: seq<Job>, name: string)
    requires jobs <= more && InFlight(jobs, name)
    ensures InFlight(more, name)
  {
    var j :| j in jobs && j.name == name;
    assert j in more;
  }

  lemma NewBefore(jobs: seq<Job>, more: seq<Job>, name: string)
    requires jobs <= more && !InFlight(more, name)
    ensures !InFlight(jobs, name)
  {
    if InFlight(jobs, name) {
      FoundIsInFlight(jobs, more, name);
    }
  }

  /** The loop only adds: waiting jobs, of due names that were not in flight, up to the limit. */
  lemma {:induction false} StartDueStarts(jobs: seq<Job>, due: seq<string>, limit: int)
    ensures var after := StartDue(jobs, due, limit);
      StartedFrom(jobs, after, due) && |after| <= Max(|jobs|, limit)
    decreases |due|
  {
    hide InFlight;
    if due != [] && |jobs| < limit {
      var after := StartDue(jobs, due, limit);
      if InFlight(jobs, due[0]) {
        StartDueStarts(jobs, due[1..], limit);
      } else {
        var more := jobs + [Job(due[0], Waiting)];
        StartDueStarts(more, due[1..], limit);
        assert more[|jobs|] == after[|jobs|];
        forall i | |jobs| <= i < |after|
          ensures after[i].phase.Waiting? && after[i].name in due && !InFlight(jobs, after[i].name)
        {
          if i > |jobs| {
            NewBefore(jobs, more, after[i].name);
          }
        }
      }
    }
  }

  /** A due name is left out only once the limit is reached, and then by names due before it. */
  lemma {:induction false} LeftOutWhenFull(jobs: seq<Job>, due: seq<string>, limit: int, k: nat)
    requires k < |due| && !InFlight(StartDue(jobs, due, limit), due[k])
    ensures var after := StartDue(jobs, due, limit); |after| >= limit && StartedFrom(jobs, after, due[..k])
    decreases |due|
  {
    var after := StartDue(jobs, due, limit);
    if |jobs| < limit {
      var was := InFlight(jobs, due[0]);
      var more := if was then jobs else jobs + [Job(due[0], Waiting)];
      StartDueStarts(more, due[1..], limit);
      if k == 0 {
        assert Job(due[0], Waiting) in jobs + [Job(due[0], Waiting)];
        FoundIsInFlight(more, after, due[0]);
      } else {
        LeftOutWhenFull(more, due[1..], limit, k - 1);
        assert due[..k] == [due[0]] + due[1..][..k - 1];
        assert due[0] in due[..k] && forall d :: d in due[1..][..k - 1] ==> d in due[..k];
        hide InFlight;
        if !was {
          assert more[|jobs|] == after[|jobs|];
          forall i | |jobs| <= i < |after|
            ensures after[i].phase.Waiting? && after[i].name in due[..k] && !InFlight(jobs, after[i].name)
          {
            if i > |jobs| {
              NewBefore(jobs, more, after[i].name);
            }
          }
        }
      }
    }
  }

  datatype Event =
    | TickAsks
    | TickGets
    | TickTimesOut
    | TickStarts(due: seq<string>)
    | JobMoves(i: nat, move: Move)
    | LeaderAsks
    | LeaderGets
    | LeaderReleases
    | Stops
    | Triggered(name: string)

  predicate Enabled(st: Runner, cfg: Config, ev: Event) {
    match ev
    case TickAsks => !st.stopping && st.tick.Idle? && |st.jobs| < MaxConcurrency(cfg)
    case TickGets => st.tick.AskingForDue? && SomeFree(st, cfg)
    case TickTimesOut => st.tick.AskingForDue? && !SomeFree(st, cfg)
    case TickStarts(_) => st.tick.QueryingDue?
    case JobMoves(i, m) => i < |st.jobs| && CanMove(st.jobs[i].phase, cfg, SomeFree(st, cfg), m)
    case LeaderAsks => st.leaders + st.leaderAsks < LEADER_LOCK_RESERVE
    case LeaderGets => st.leaderAsks > 0 && SomeFree(st, cfg)
    case LeaderReleases => st.leaders > 0
    case Stops => true
    case Triggered(name) => !InFlight(st.jobs, name)
  }

  function Step(st: Runner, cfg: Config, ev: Event): Runner
    requires Enabled(st, cfg, ev)
  {
    match ev
    case TickAsks => st.(tick := AskingForDue)
    case TickGets => st.(tick := QueryingDue)
    case TickTimesOut => st.(tick := Idle)
    case TickStarts(due) =>
      st.(tick := Idle, jobs := if st.stopping then st.jobs else StartDue(st.jobs, due, MaxConcurrency(cfg)))
    case JobMoves(i, m) => st.(jobs := st.jobs[..i] + Moved(st.jobs[i], cfg, m) + st.jobs[i + 1..])
    case LeaderAsks => st.(leaderAsks := st.leaderAsks + 1)
    case LeaderGets => st.(leaderAsks := st.leaderAsks - 1, leaders := st.leaders + 1)
    case LeaderReleases => st.(leaders := st.leaders - 1)
    case Stops => st.(stopping := true)
    case Triggered(name) => st.(jobs := st.jobs + [Job(name, Waiting)])
  }

  predicate CanRun(st: Runner, cfg: Config, evs: seq<Event>)
    decreases |evs|
  {
    evs == [] || (Enabled(st, cfg, evs[0]) && CanRun(Step(st, cfg, evs[0]), cfg, evs[1..]))
  }

  function Run(st: Runner, cfg: Config, evs: seq<Event>): Runner
    requires CanRun(st, cfg, evs)
    decreases |evs|
  {
    if evs == [] then st else Run(Step(st, cfg, evs[0]), cfg, evs[1..])
  }

  /** Only the tick starts jobs. */
  predicate TickStarted(evs: seq<Event>) { forall ev :: ev in evs ==> !ev.Triggered? }

  // ---------- sums over the jobs ----------

  lemma {:induction false} SumAppend(f: Job -> nat, a: seq<Job>, b: seq<Job>)
    ensures Sum(f, a + b) == Sum(f, a) + Sum(f, b)
    decreases |a|
  {
    if a == [] {
      assert a + b == b;
    } else {
      assert (a + b)[1..] == a[1..] + b;
      SumAppend(f, a[1..], b);
    }
  }

  /** A step of one job changes every sum by what it changes of that job. */
  lemma SumSplice(f: Job -> nat, jobs: seq<Job>, i: nat, next: seq<Job>)
    requires i < |jobs|
    ensures Sum(f, jobs[..i] + next + jobs[i + 1..]) == Sum(f, jobs) - f(jobs[i]) + Sum(f, next)
  {
    SumAppend(f, jobs[..i] + next, jobs[i + 1..]);
    SumAppend(f, jobs[..i], next);
    assert jobs == jobs[..i] + jobs[i..];
    SumAppend(f, jobs[..i], jobs[i..]);
    assert jobs[i..][1..] == jobs[i + 1..];
  }

  lemma SumOne(f: Job -> nat, j: Job)
    ensures Sum(f, [j]) == f(j)
  {
    assert [j][1..] == [];
  }

  lemma {:induction false} SumAtLeast(f: Job -> nat, jobs: seq<Job>, i: nat)
    requires i < |jobs|
    ensures Sum(f, jobs) >= f(jobs[i])
  {
    if i > 0 {
      SumAtLeast(f, jobs[1..], i - 1);
    }
  }

  // ---------- the invariant ----------

  predicate BodyFits(j: Job, cfg: Config) {
    j.phase.Body? ==> j.phase.extra + (if j.phase.asking then 1 else 0) <= cfg.extra
  }

  predicate Distinct(jobs: seq<Job>) {
    forall i, k :: 0 <= i < k < |jobs| ==> jobs[i].name != jobs[k].name
  }

  /** At most the clamp is in flight, no name twice; fewer while a tick is out; leader election
      uses its reserve at most; the pool gives out no more than it has. */
  ghost predicate Sound(st: Runner, cfg: Config) {
    && |st.jobs| <= MaxConcurrency(cfg)
    && (!st.tick.Idle? ==> |st.jobs| < MaxConcurrency(cfg))
    && Distinct(st.jobs)
    && (forall j :: j in st.jobs ==> BodyFits(j, cfg))
    && st.leaders + st.leaderAsks <= LEADER_LOCK_RESERVE
    && Held(st) <= cfg.size
  }

  /** What a started job adds. */
  lemma {:induction false} StartDueAdds(jobs: seq<Job>, due: seq<string>, limit: int, cfg: Config)
    requires Distinct(jobs) && |jobs| <= limit && forall j :: j in jobs ==> BodyFits(j, cfg)
    ensures var after := StartDue(jobs, due, limit);
      && Distinct(after) && |after| <= limit && Sum(HeldOf, after) == Sum(HeldOf, jobs)
      && forall j :: j in after ==> BodyFits(j, cfg)
    decreases |due|
  {
    if due != [] && |jobs| < limit {
      var started := Job(due[0], Waiting);
      SumAppend(HeldOf, jobs, [started]);
      StartDueAdds(jobs, due[1..], limit, cfg);
      if !InFlight(jobs, due[0]) {
        StartDueAdds(jobs + [started], due[1..], limit, cfg);
      }
    }
  }

  /** A move leaves at most one job, of the same name, whose body still fits, and takes a client
      only if one is free. */
  lemma MovedFits(j: Job, cfg: Config, free: bool, m: Move)
    requires CanMove(j.phase, cfg, free, m) && BodyFits(j, cfg)
    ensures |Moved(j, cfg, m)| <= 1
    ensures Sum(HeldOf, Moved(j, cfg, m)) <= HeldOf(j) + (if free then 1 else 0)
    ensures forall k :: k in Moved(j, cfg, m) ==> k.name == j.name && BodyFits(k, cfg)
  {
    var next := Moved(j, cfg, m);
    if next != [] {
      SumOne(HeldOf, next[0]);
      assert next == [next[0]];
    }
  }

  lemma SpliceKeepsDistinct(jobs: seq<Job>, i: nat, next: seq<Job>)
    requires i < |jobs| && Distinct(jobs) && |next| <= 1 && forall k :: k in next ==> k.name == jobs[i].name
    ensures Distinct(jobs[..i] + next + jobs[i + 1..])
  {
    if next != [] {
      assert next[0] in next;
    }
  }

  lemma MoveKeepsSound(st: Runner, cfg: Config, i: nat, m: Move)
    requires Sound(st, cfg) && Enabled(st, cfg, JobMoves(i, m))
    ensures Sound(Step(st, cfg, JobMoves(i, m)), cfg)
  {
    var next := Moved(st.jobs[i], cfg, m);
    assert st.jobs[i] in st.jobs;
    MovedFits(st.jobs[i], cfg, SomeFree(st, cfg), m);
    SumSplice(HeldOf, st.jobs, i, next);
    SpliceKeepsDistinct(st.jobs, i, next);
    hide Moved, CanMove, HeldOf, BodyFits, Distinct, MaxConcurrency;
    var after := st.jobs[..i] + next + st.jobs[i + 1..];
    forall j | j in after ensures BodyFits(j, cfg) {
      assert j in st.jobs || j in next;
    }
  }

  lemma StepKeepsSound(st: Runner, cfg: Config, ev: Event)
    requires Sound(st, cfg) && Enabled(st, cfg, ev) && !ev.Triggered?
    ensures Sound(Step(st, cfg, ev), cfg)
  {
    match ev
    case JobMoves(i, m) => MoveKeepsSound(st, cfg, i, m);
    case TickStarts(due) => StartDueAdds(st.jobs, due, MaxConcurrency(cfg), cfg);
    case _ =>
  }

  lemma {:induction false} RunKeepsSound(st: Runner, cfg: Config, evs: seq<Event>)
    requires Sound(st, cfg) && CanRun(st, cfg, evs) && TickStarted(evs)
    ensures Sound(Run(st, cfg, evs), cfg)
    decreases |evs|
  {
    hide Step, Enabled, Sound;
    if evs != [] {
      StepKeepsSound(st, cfg, evs[0]);
      RunKeepsSound(Step(st, cfg, evs[0]), cfg, evs[1..]);
    }
  }

  /** From the start of the process, if only the tick starts jobs: at most the clamp is in flight,
      no job twice, and no more clients are out than there are. */
  lemma InFlightBounded(cfg: Config, evs: seq<Event>)
    requires CanRun(INITIAL, cfg, evs) && TickStarted(evs)
    ensures var st := Run(INITIAL, cfg, evs);
      && |st.jobs| <= MaxConcurrency(cfg) && Held(st) <= cfg.size
      && forall i, k :: 0 <= i < k < |st.jobs| ==> st.jobs[i].name != st.jobs[k].name
  {
    assert Sound(INITIAL, cfg);
    hide Run, CanRun, MaxConcurrency;
    RunKeepsSound(INITIAL, cfg, evs);
  }

  // ---------- demand ----------

  /** The most clients leader election and the jobs in flight can want together. */
  function MostWanted(cfg: Config): int { LEADER_LOCK_RESERVE + MaxConcurrency(cfg) * (1 + cfg.extra) }

  lemma {:induction false} JobsWant(jobs: seq<Job>, cfg: Config)
    requires forall j :: j in jobs ==> BodyFits(j, cfg)
    ensures Sum(HeldOf, jobs) + Sum(AskedOf, jobs) <= |jobs| * (1 + cfg.extra)
    decreases |jobs|
  {
    if jobs != [] {
      assert jobs[0] in jobs;
      JobsWant(jobs[1..], cfg);
      assert |jobs| * (1 + cfg.extra) == (|jobs| - 1) * (1 + cfg.extra) + (1 + cfg.extra);
    }
  }

  lemma Monotone(a: int, b: int, c: nat)
    requires a <= b
    ensures a * c <= b * c
  {
  }

  /** What is held and asked for never exceeds it: while a tick is out a slot is empty. */
  lemma WantedIsBounded(st: Runner, cfg: Config)
    requires Sound(st, cfg)
    ensures Held(st) + Asked(st) <= MostWanted(cfg)
  {
    JobsWant(st.jobs, cfg);
    var limit := MaxConcurrency(cfg);
    if st.tick.Idle? {
      Monotone(|st.jobs|, limit, 1 + cfg.extra);
    } else {
      Monotone(|st.jobs| + 1, limit, 1 + cfg.extra);
      assert (|st.jobs| + 1) * (1 + cfg.extra) == |st.jobs| * (1 + cfg.extra) + (1 + cfg.extra);
    }
  }

  // ---------- giving clients ----------

  /** Whoever asks while a client is free can be given it. */
  lemma GrantEnabled(st: Runner, cfg: Config) returns (ev: Event)
    requires Asked(st) > 0 && SomeFree(st, cfg)
    ensures Enabled(st, cfg, ev) && !ev.Triggered?
    ensures Held(Step(st, cfg, ev)) == Held(st) + 1 && Asked(Step(st, cfg, ev)) == Asked(st) - 1
    ensures |Step(st, cfg, ev).jobs| == |st.jobs|
  {
    if st.leaderAsks > 0 {
      ev := LeaderGets;
    } else if st.tick.AskingForDue? {
      ev := TickGets;
    } else {
      var i := SomeAsks(st.jobs);
      ev := JobMoves(i, Acquire);
      var next := Moved(st.jobs[i], cfg, Acquire);
      SumSplice(HeldOf, st.jobs, i, next);
      SumSplice(AskedOf, st.jobs, i, next);
      SumOne(HeldOf, next[0]);
      SumOne(AskedOf, next[0]);
    }
  }

  lemma {:induction false} SomeAsks(jobs: seq<Job>) returns (i: nat)
    requires Sum(AskedOf, jobs) > 0
    ensures i < |jobs| && AskedOf(jobs[i]) > 0
  {
    if AskedOf(jobs[0]) > 0 {
      i := 0;
    } else {
      var k := SomeAsks(jobs[1..]);
      i := k + 1;
    }
  }

  /** Wanting more than there is starves: clients can be given until none is left. */
  lemma {:induction false} OverdemandStarves(st: Runner, cfg: Config) returns (evs: seq<Event>)
    requires Held(st) <= cfg.size < Held(st) + Asked(st)
    ensures CanRun(st, cfg, evs) && TickStarted(evs)
    ensures Starved(Run(st, cfg, evs), cfg) && |Run(st, cfg, evs).jobs| == |st.jobs|
    decreases cfg.size - Held(st)
  {
    if SomeFree(st, cfg) {
      var ev := GrantEnabled(st, cfg);
      var rest := OverdemandStarves(Step(st, cfg, ev), cfg);
      evs := [ev] + rest;
      assert evs[1..] == rest;
    } else {
      evs := [];
    }
  }

  // ---------- draining ----------

  /** How far a job is from leaving. */
  function Rank(cfg: Config, j: Job): nat {
    match j.phase
    case Waiting => 3 * cfg.asks + 7
    case Connected => 3 * cfg.asks + 6
    case Locked => 3 * cfg.asks + 5
    case Body(extra, asking, budget) => 3 * budget + (if asking then 2 else 0) + extra + 4
    case Finishing => 3
    case Unlocking => 2
    case Releasing => 1
  }

  function TotalRank(st: Runner, cfg: Config): nat { Sum(j => Rank(cfg, j), st.jobs) }

  /** Every step of a job brings it nearer to leaving. */
  lemma MoveLowersRank(st: Runner, cfg: Config, i: nat, m: Move)
    requires Enabled(st, cfg, JobMoves(i, m))
    ensures TotalRank(Step(st, cfg, JobMoves(i, m)), cfg) < TotalRank(st, cfg)
  {
    var f := j => Rank(cfg, j);
    var next := Moved(st.jobs[i], cfg, m);
    SumSplice(f, st.jobs, i, next);
    assert |next| <= 1;
    if next != [] {
      SumOne(f, next[0]);
      assert [next[0]] == next;
      assert f(next[0]) < f(st.jobs[i]);
    }
  }

  predicate OnlyJobs(evs: seq<Event>) { forall ev :: ev in evs ==> ev.JobMoves? }

  /** However the jobs in flight interleave, they take at most that many steps. */
  lemma {:induction false} RunIsBounded(st: Runner, cfg: Config, evs: seq<Event>)
    requires CanRun(st, cfg, evs) && OnlyJobs(evs)
    ensures |evs| + TotalRank(Run(st, cfg, evs), cfg) <= TotalRank(st, cfg)
    decreases |evs|
  {
    hide Step, Enabled, TotalRank;
    if evs != [] {
      assert evs[0] in evs;
      MoveLowersRank(st, cfg, evs[0].i, evs[0].move);
      RunIsBounded(Step(st, cfg, evs[0]), cfg, evs[1..]);
    }
  }

  /** A job that does not ask can always move. */
  function NextMove(p: Phase): Move {
    match p
    case Waiting => Acquire
    case Connected => TryLock(true)
    case Locked => Claim(true)
    case Body(extra, asking, _) => if asking then Acquire else if extra > 0 then BodyRelease else BodyEnd
    case Finishing => MarkFinished
    case Unlocking => Unlock
    case Releasing => Release
  }

  /** Only giving up, or a leader stepping down, gets out of a deadlock: no job moves otherwise, and
      no client comes free otherwise. */
  lemma StuckMeansGivingUp(st: Runner, cfg: Config, ev: Event)
    requires Stuck(st, cfg) && Enabled(st, cfg, ev)
    ensures ev.JobMoves? ==> ev.move.TimeOut?
    ensures SomeFree(Step(st, cfg, ev), cfg) ==> ev.LeaderReleases?
  {
    match ev
    case JobMoves(i, m) =>
      var next := Moved(st.jobs[i], cfg, m);
      assert AskedOf(st.jobs[i]) == 1;
      SumSplice(HeldOf, st.jobs, i, next);
      if next != [] {
        SumOne(HeldOf, next[0]);
        assert next == [next[0]];
      }
    case Triggered(name) =>
      SumAppend(HeldOf, st.jobs, [Job(name, Waiting)]);
      SumOne(HeldOf, Job(name, Waiting));
    case _ =>
  }

  /** The most that leader election and jobs that all ask can hold together. */
  function DeadlockBound(cfg: Config): int { LEADER_LOCK_RESERVE + MaxConcurrency(cfg) * cfg.extra }

  lemma {:induction false} AskersHold(jobs: seq<Job>, cfg: Config)
    requires AllAsk(jobs) && forall j :: j in jobs ==> BodyFits(j, cfg)
    ensures Sum(HeldOf, jobs) <= |jobs| * cfg.extra
    decreases |jobs|
  {
    if jobs != [] {
      assert jobs[0] in jobs;
      AskersHold(jobs[1..], cfg);
      assert |jobs| * cfg.extra == (|jobs| - 1) * cfg.extra + cfg.extra;
    }
  }

  lemma LargePoolNeverStuck(st: Runner, cfg: Config)
    requires Sound(st, cfg) && DeadlockBound(cfg) < cfg.size
    ensures !Stuck(st, cfg)
  {
    if AllAsk(st.jobs) {
      AskersHold(st.jobs, cfg);
      Monotone(|st.jobs|, MaxConcurrency(cfg), cfg.extra);
    }
  }

  /** With such a pool some job in flight can always move, without giving up. */
  lemma SomeJobMoves(st: Runner, cfg: Config) returns (i: nat)
    requires Sound(st, cfg) && DeadlockBound(cfg) < cfg.size && st.jobs != [] && !st.tick.QueryingDue?
    ensures i < |st.jobs| && Enabled(st, cfg, JobMoves(i, NextMove(st.jobs[i].phase)))
  {
    LargePoolNeverStuck(st, cfg);
    if AllAsk(st.jobs) {
      i := 0;
      assert st.jobs[0] in st.jobs;
    } else {
      var j :| j in st.jobs && AskedOf(j) != 1;
      i :| 0 <= i < |st.jobs| && st.jobs[i] == j;
    }
  }

  /** Only moves of jobs other than giving up, and ticks that find nothing due. */
  predicate NoTimeOut(evs: seq<Event>) {
    forall ev :: ev in evs ==> if ev.JobMoves? then !ev.move.TimeOut? else ev == TickStarts([])
  }

  /** So from every sound state the jobs in flight can all finish with the clients they ask for. */
  lemma {:induction false} Drains(st: Runner, cfg: Config) returns (evs: seq<Event>)
    requires Sound(st, cfg) && DeadlockBound(cfg) < cfg.size
    ensures CanRun(st, cfg, evs) && NoTimeOut(evs) && Run(st, cfg, evs).jobs == []
    decreases st.tick.QueryingDue?, TotalRank(st, cfg)
  {
    if st.jobs == [] {
      evs := [];
    } else if st.tick.QueryingDue? {
      var ev := TickStarts([]);
      assert Step(st, cfg, ev).jobs == st.jobs;
      StepKeepsSound(st, cfg, ev);
      var rest := Drains(Step(st, cfg, ev), cfg);
      evs := [ev] + rest;
      assert evs[1..] == rest;
    } else {
      var i := SomeJobMoves(st, cfg);
      var ev := JobMoves(i, NextMove(st.jobs[i].phase));
      assert !ev.move.TimeOut? && Step(st, cfg, ev).tick == st.tick;
      hide TotalRank, Step, Enabled, Sound, NextMove;
      StepKeepsSound(st, cfg, ev);
      MoveLowersRank(st, cfg, i, ev.move);
      var rest := Drains(Step(st, cfg, ev), cfg);
      evs := [ev] + rest;
      assert evs[1..] == rest;
    }
  }

  // ---------- exactly when the pool starves ----------

  /** Some run in which only the tick starts jobs leaves an asker without a client. */
  ghost predicate CanStarve(cfg: Config) {
    exists evs :: CanRun(INITIAL, cfg, evs) && TickStarted(evs) && Starved(Run(INITIAL, cfg, evs), cfg)
  }

  lemma LargePoolNeverStarves(cfg: Config, evs: seq<Event>)
    requires MostWanted(cfg) <= cfg.size && CanRun(INITIAL, cfg, evs) && TickStarted(evs)
    ensures !Starved(Run(INITIAL, cfg, evs), cfg)
  {
    RunKeepsSound(INITIAL, cfg, evs);
    WantedIsBounded(Run(INITIAL, cfg, evs), cfg);
  }

  /** A run from `from` that either starves or ends in `to`. */
  ghost predicate Reaches(from: Runner, cfg: Config, evs: seq<Event>, to: Runner) {
    CanRun(from, cfg, evs) && TickStarted(evs) && (Starved(Run(from, cfg, evs), cfg) || Run(from, cfg, evs) == to)
  }

  lemma {:induction false} RunAppend(st: Runner, cfg: Config, a: seq<Event>, b: seq<Event>)
    requires CanRun(st, cfg, a) && CanRun(Run(st, cfg, a), cfg, b)
    ensures CanRun(st, cfg, a + b) && Run(st, cfg, a + b) == Run(Run(st, cfg, a), cfg, b)
    decreases |a|
  {
    hide Step, Enabled;
    if a == [] {
      assert a + b == b;
    } else {
      assert (a + b)[1..] == a[1..] + b;
      RunAppend(Step(st, cfg, a[0]), cfg, a[1..], b);
    }
  }

  lemma Chain(a: Runner, cfg: Config, evs: seq<Event>, b: Runner, more: seq<Event>, c: Runner) returns (all: seq<Event>)
    requires Reaches(a, cfg, evs, b) && Reaches(b, cfg, more, c)
    ensures Reaches(a, cfg, all, c)
  {
    hide Starved, CanRun, Run;
    if Starved(Run(a, cfg, evs), cfg) {
      all := evs;
    } else {
      RunAppend(a, cfg, evs, more);
      all := evs + more;
    }
  }

  lemma One(a: Runner, cfg: Config, ev: Event) returns (evs: seq<Event>)
    requires Enabled(a, cfg, ev) && !ev.Triggered?
    ensures Reaches(a, cfg, evs, Step(a, cfg, ev))
  {
    hide Step, Enabled;
    evs := [ev];
    assert evs[1..] == [];
    assert Run(Step(a, cfg, ev), cfg, []) == Step(a, cfg, ev);
    assert Run(a, cfg, evs) == Step(a, cfg, ev);
  }

  function Replaced(st: Runner, i: nat, p: Phase): Runner
    requires i < |st.jobs|
  {
    st.(jobs := st.jobs[i := st.jobs[i].(phase := p)])
  }

  /** One move of job i, to phase p. */
  lemma Moves(st: Runner, cfg: Config, i: nat, m: Move, p: Phase) returns (evs: seq<Event>)
    requires i < |st.jobs| && !m.TimeOut? && Moved(st.jobs[i], cfg, m) == [st.jobs[i].(phase := p)]
    requires m.Acquire? ==> AskedOf(st.jobs[i]) == 1
    requires !m.Acquire? ==> CanMove(st.jobs[i].phase, cfg, true, m)
    ensures Reaches(st, cfg, evs, Replaced(st, i, p))
  {
    if m.Acquire? && !SomeFree(st, cfg) {
      SumAtLeast(AskedOf, st.jobs, i);
      evs := [];
    } else {
      var next := [st.jobs[i].(phase := p)];
      assert st.jobs[..i] + next + st.jobs[i + 1..] == st.jobs[i := next[0]];
      evs := One(st, cfg, JobMoves(i, m));
    }
  }

  lemma ReplacedTwice(st: Runner, i: nat, p: Phase, q: Phase)
    requires i < |st.jobs|
    ensures Replaced(Replaced(st, i, p), i, q) == Replaced(st, i, q)
  {
    assert st.jobs[i := st.jobs[i].(phase := p)][i := st.jobs[i].(phase := q)] == st.jobs[i := st.jobs[i].(phase := q)];
  }

  /** A body takes one more client. */
  lemma BodyTakesOne(st: Runner, cfg: Config, i: nat) returns (evs: seq<Event>)
    requires i < |st.jobs| && st.jobs[i].phase.Body? && !st.jobs[i].phase.asking
    requires st.jobs[i].phase.extra < cfg.extra && st.jobs[i].phase.budget > 0
    ensures var p := st.jobs[i].phase;
      Reaches(st, cfg, evs, Replaced(st, i, Body(p.extra + 1, false, p.budget - 1)))
  {
    hide Reaches;
    var p := st.jobs[i].phase;
    var asking, taken := Body(p.extra, true, p.budget - 1), Body(p.extra + 1, false, p.budget - 1);
    var first := Moves(st, cfg, i, BodyAsk, asking);
    var second := Moves(Replaced(st, i, asking), cfg, i, Acquire, taken);
    ReplacedTwice(st, i, asking, taken);
    evs := Chain(st, cfg, first, Replaced(st, i, asking), second, Replaced(st, i, taken));
  }

  /** A body takes all the clients it may hold. */
  lemma {:induction false} BodyTakesAll(st: Runner, cfg: Config, i: nat) returns (evs: seq<Event>)
    requires i < |st.jobs| && st.jobs[i].phase.Body? && !st.jobs[i].phase.asking
    requires st.jobs[i].phase.extra <= cfg.extra && st.jobs[i].phase.budget >= cfg.extra - st.jobs[i].phase.extra
    ensures var p := st.jobs[i].phase;
      Reaches(st, cfg, evs, Replaced(st, i, Body(cfg.extra, false, p.budget - (cfg.extra - p.extra))))
    decreases cfg.extra - st.jobs[i].phase.extra
  {
    var p := st.jobs[i].phase;
    if p.extra == cfg.extra {
      evs := [];
      assert st.jobs[i := st.jobs[i]] == st.jobs;
      assert Run(st, cfg, evs) == st;
    } else {
      hide Reaches;
      var more := Body(p.extra + 1, false, p.budget - 1);
      var next := Replaced(st, i, more);
      var first := BodyTakesOne(st, cfg, i);
      var rest := BodyTakesAll(next, cfg, i);
      var full := Body(cfg.extra, false, p.budget - (cfg.extra - p.extra));
      ReplacedTwice(st, i, more, full);
      evs := Chain(st, cfg, first, next, rest, Replaced(st, i, full));
    }
  }

  function Full(cfg: Config): Phase
    requires cfg.extra <= cfg.asks
  {
    Body(cfg.extra, false, cfg.asks - cfg.extra)
  }

  /** A waiting job goes all the way to holding its client and all its body's. */
  lemma JobFills(st: Runner, cfg: Config, i: nat) returns (evs: seq<Event>)
    requires cfg.extra <= cfg.asks && i < |st.jobs| && st.jobs[i].phase.Waiting?
    ensures Reaches(st, cfg, evs, Replaced(st, i, Full(cfg)))
  {
    hide Reaches;
    var body := Body(0, false, cfg.asks);
    var a, b, c := Replaced(st, i, Connected), Replaced(st, i, Locked), Replaced(st, i, body);
    ReplacedTwice(st, i, Connected, Locked);
    ReplacedTwice(st, i, Locked, body);
    ReplacedTwice(st, i, body, Full(cfg));
    evs := Moves(st, cfg, i, Acquire, Connected);
    var more := Moves(a, cfg, i, TryLock(true), Locked);
    evs := Chain(st, cfg, evs, a, more, b);
    more := Moves(b, cfg, i, Claim(true), body);
    evs := Chain(st, cfg, evs, b, more, c);
    more := BodyTakesAll(c, cfg, i);
    evs := Chain(st, cfg, evs, c, more, Replaced(st, i, Full(cfg)));
  }

  function Name(n: nat): string { seq(n, _ => 'j') }

  /** n jobs, the first `full` of them with all their clients, the rest waiting for their own. */
  function Jobs(cfg: Config, full: nat, n: nat): (jobs: seq<Job>)
    requires cfg.extra <= cfg.asks && full <= n
    ensures |jobs| == n
    ensures forall i :: 0 <= i < n ==> jobs[i] == Job(Name(i), if i < full then Full(cfg) else Waiting)
  {
    seq(n, i requires 0 <= i < n => Job(Name(i), if i < full then Full(cfg) else Waiting))
  }

  lemma {:induction false} JobsFill(cfg: Config, full: nat, n: nat, leaders: nat) returns (evs: seq<Event>)
    requires cfg.extra <= cfg.asks && full <= n
    ensures Reaches(Runner(Jobs(cfg, full, n), Idle, leaders, 0, false), cfg, evs,
                    Runner(Jobs(cfg, n, n), Idle, leaders, 0, false))
    decreases n - full
  {
    var st := Runner(Jobs(cfg, full, n), Idle, leaders, 0, false);
    if full == n {
      evs := [];
      assert Run(st, cfg, evs) == st;
    } else {
      hide Reaches;
      var next := Runner(Jobs(cfg, full + 1, n), Idle, leaders, 0, false);
      assert Replaced(st, full, Full(cfg)).jobs == next.jobs;
      var first := JobFills(st, cfg, full);
      var rest := JobsFill(cfg, full + 1, n, leaders);
      evs := Chain(st, cfg, first, next, rest, Runner(Jobs(cfg, n, n), Idle, leaders, 0, false));
    }
  }

  lemma {:induction false} LeadersFill(cfg: Config, leaders: nat) returns (evs: seq<Event>)
    requires leaders <= LEADER_LOCK_RESERVE
    ensures Reaches(INITIAL, cfg, evs, INITIAL.(leaders := leaders))
  {
    if leaders == 0 {
      evs := [];
      assert Run(INITIAL, cfg, evs) == INITIAL;
    } else {
      var before := INITIAL.(leaders := leaders - 1);
      var asked := before.(leaderAsks := 1);
      var first := LeadersFill(cfg, leaders - 1);
      var second := One(before, cfg, LeaderAsks);
      var third := [];
      if SomeFree(asked, cfg) {
        third := One(asked, cfg, LeaderGets);
      }
      assert Reaches(asked, cfg, third, INITIAL.(leaders := leaders));
      hide Reaches;
      evs := Chain(INITIAL, cfg, first, before, second, asked);
      evs := Chain(INITIAL, cfg, evs, asked, third, INITIAL.(leaders := leaders));
    }
  }

  function Names(from: nat, to: nat): (names: seq<string>)
    requires from <= to
    ensures |names| == to - from && forall i :: 0 <= i < to - from ==> names[i] == Name(from + i)
  {
    seq(to - from, i requires 0 <= i < to - from => Name(from + i))
  }

  /** One tick starts as many due jobs as the clamp lets it. */
  lemma {:induction false} StartsNames(cfg: Config, k: nat, n: nat)
    requires cfg.extra <= cfg.asks && k <= n
    ensures StartDue(Jobs(cfg, 0, k), Names(k, n), n) == Jobs(cfg, 0, n)
    decreases n - k
  {
    if k < n {
      var jobs := Jobs(cfg, 0, k);
      assert !InFlight(jobs, Name(k)) by {
        forall j | j in jobs ensures j.name != Name(k) {
          var i :| 0 <= i < k && j == jobs[i];
          assert |j.name| == i;
        }
      }
      assert Names(k, n)[0] == Name(k) && Names(k, n)[1..] == Names(k + 1, n);
      assert jobs + [Job(Name(k), Waiting)] == Jobs(cfg, 0, k + 1);
      StartsNames(cfg, k + 1, n);
    }
  }

  lemma TickFills(cfg: Config, n: nat) returns (evs: seq<Event>)
    requires cfg.extra <= cfg.asks && n == MaxConcurrency(cfg)
    ensures var st := INITIAL.(leaders := LEADER_LOCK_RESERVE);
      Reaches(st, cfg, evs, st.(jobs := Jobs(cfg, 0, n)))
  {
    var st := INITIAL.(leaders := LEADER_LOCK_RESERVE);
    var asking, querying := st.(tick := AskingForDue), st.(tick := QueryingDue);
    var first := One(st, cfg, TickAsks);
    var second := [];
    if SomeFree(asking, cfg) {
      second := One(asking, cfg, TickGets);
    }
    assert Reaches(asking, cfg, second, querying);
    StartsNames(cfg, 0, n);
    assert Jobs(cfg, 0, 0) == [];
    var third := One(querying, cfg, TickStarts(Names(0, n)));
    hide Reaches;
    evs := Chain(st, cfg, first, asking, second, querying);
    evs := Chain(st, cfg, evs, querying, third, st.(jobs := Jobs(cfg, 0, n)));
  }

  lemma {:induction false} FullHold(cfg: Config, jobs: seq<Job>)
    requires cfg.extra <= cfg.asks && forall j :: j in jobs ==> j.phase == Full(cfg)
    ensures Sum(HeldOf, jobs) == |jobs| * (1 + cfg.extra)
    decreases |jobs|
  {
    if jobs != [] {
      assert jobs[0] in jobs;
      FullHold(cfg, jobs[1..]);
      assert |jobs| * (1 + cfg.extra) == (|jobs| - 1) * (1 + cfg.extra) + (1 + cfg.extra);
    }
  }

  /** Too small a pool starves: everybody takes all they may, and somebody finds none. */
  lemma SmallPoolStarves(cfg: Config)
    requires cfg.extra <= cfg.asks && cfg.size < MostWanted(cfg)
    ensures CanStarve(cfg)
  {
    var n := MaxConcurrency(cfg);
    var led := INITIAL.(leaders := LEADER_LOCK_RESERVE);
    var started := led.(jobs := Jobs(cfg, 0, n));
    var filled := led.(jobs := Jobs(cfg, n, n));
    var evs := LeadersFill(cfg, LEADER_LOCK_RESERVE);
    var more := TickFills(cfg, n);
    evs := Chain(INITIAL, cfg, evs, led, more, started);
    more := JobsFill(cfg, 0, n, LEADER_LOCK_RESERVE);
    evs := Chain(INITIAL, cfg, evs, started, more, filled);
    RunKeepsSound(INITIAL, cfg, evs);
    FullHold(cfg, filled.jobs);
  }

  /** The pool can starve exactly when it is smaller than what can be wanted at once. */
  lemma StarvesIff(cfg: Config)
    requires cfg.extra <= cfg.asks
    ensures CanStarve(cfg) <==> cfg.size < MostWanted(cfg)
  {
    if cfg.size < MostWanted(cfg) {
      SmallPoolStarves(cfg);
    } else if CanStarve(cfg) {
      var evs :| CanRun(INITIAL, cfg, evs) && TickStarted(evs) && Starved(Run(INITIAL, cfg, evs), cfg);
      LargePoolNeverStarves(cfg, evs);
    }
  }

  /** Bodies that hold one client at a time: the clamp is safe from six clients up, whatever
      concurrency is asked for, and below six it is not. */
  lemma OneExtraStarvesIff(cfg: Config)
    requires cfg.extra == 1 <= cfg.asks
    ensures CanStarve(cfg) <==> cfg.size < 6
  {
    StarvesIff(cfg);
  }

  // ---------- exactly when the pool deadlocks ----------

  /** Some run in which only the tick starts jobs ends in a deadlock. */
  ghost predicate CanDeadlock(cfg: Config) {
    exists evs :: CanRun(INITIAL, cfg, evs) && TickStarted(evs) && Stuck(Run(INITIAL, cfg, evs), cfg)
  }

  /** A run from `from` to `to`. */
  ghost predicate Goes(from: Runner, cfg: Config, evs: seq<Event>, to: Runner) {
    CanRun(from, cfg, evs) && TickStarted(evs) && Run(from, cfg, evs) == to
  }

  lemma Stay(a: Runner, cfg: Config)
    ensures Goes(a, cfg, [], a)
  {
  }

  /** One more event. */
  lemma Then(a: Runner, cfg: Config, evs: seq<Event>, b: Runner, ev: Event) returns (all: seq<Event>)
    requires Goes(a, cfg, evs, b) && Enabled(b, cfg, ev) && !ev.Triggered?
    ensures Goes(a, cfg, all, Step(b, cfg, ev))
  {
    hide Step, Enabled, Run, CanRun;
    all := evs + [ev];
    OneRun(b, cfg, ev);
    RunAppend(a, cfg, evs, [ev]);
  }

  lemma OneRun(b: Runner, cfg: Config, ev: Event)
    requires Enabled(b, cfg, ev)
    ensures CanRun(b, cfg, [ev]) && Run(b, cfg, [ev]) == Step(b, cfg, ev)
  {
    hide Step, Enabled;
    var next := Step(b, cfg, ev);
    assert [ev][1..] == [];
    assert CanRun(next, cfg, []) && Run(next, cfg, []) == next;
  }

  lemma Join(a: Runner, cfg: Config, evs: seq<Event>, b: Runner, more: seq<Event>, c: Runner)
    requires Goes(a, cfg, evs, b) && Goes(b, cfg, more, c)
    ensures Goes(a, cfg, evs + more, c)
  {
    hide Run, CanRun;
    RunAppend(a, cfg, evs, more);
  }

  /** A job that holds h clients and asks for one more. */
  function Hoarding(cfg: Config, h: nat): Phase { if h == 0 then Waiting else Body(h - 1, true, if h <= cfg.asks then cfg.asks - h else 0) }

  predicate Hoards(j: Job, cfg: Config) { HeldOf(j) <= cfg.extra && j.phase == Hoarding(cfg, HeldOf(j)) }

  lemma MoveReplaces(st: Runner, cfg: Config, i: nat, m: Move, p: Phase)
    requires i < |st.jobs| && Moved(st.jobs[i], cfg, m) == [st.jobs[i].(phase := p)]
    requires CanMove(st.jobs[i].phase, cfg, SomeFree(st, cfg), m)
    ensures Enabled(st, cfg, JobMoves(i, m)) && Step(st, cfg, JobMoves(i, m)) == Replaced(st, i, p)
  {
    assert st.jobs[..i] + [st.jobs[i].(phase := p)] + st.jobs[i + 1..] == st.jobs[i := st.jobs[i].(phase := p)];
  }

  lemma ThenMoves(a: Runner, cfg: Config, evs: seq<Event>, st: Runner, i: nat, m: Move, p: Phase) returns (all: seq<Event>)
    requires Goes(a, cfg, evs, st)
    requires i < |st.jobs| && Moved(st.jobs[i], cfg, m) == [st.jobs[i].(phase := p)]
    requires CanMove(st.jobs[i].phase, cfg, SomeFree(st, cfg), m)
    ensures Goes(a, cfg, all, Replaced(st, i, p))
  {
    MoveReplaces(st, cfg, i, m, p);
    hide Goes, Step, Enabled;
    all := Then(a, cfg, evs, st, JobMoves(i, m));
  }

  /** A hoarding job with room takes a free client and asks for the next. */
  lemma HoardsOneMore(st: Runner, cfg: Config, i: nat, h: nat) returns (evs: seq<Event>)
    requires i < |st.jobs| && st.jobs[i].phase == Hoarding(cfg, h) && h < cfg.extra <= cfg.asks && SomeFree(st, cfg)
    ensures Goes(st, cfg, evs, Replaced(st, i, Hoarding(cfg, h + 1)))
  {
    hide Goes;
    Stay(st, cfg);
    if h == 0 {
      var body := Body(0, false, cfg.asks);
      var a, b, c := Replaced(st, i, Connected), Replaced(st, i, Locked), Replaced(st, i, body);
      ReplacedTwice(st, i, Connected, Locked);
      ReplacedTwice(st, i, Locked, body);
      ReplacedTwice(st, i, body, Hoarding(cfg, 1));
      evs := ThenMoves(st, cfg, [], st, i, Acquire, Connected);
      evs := ThenMoves(st, cfg, evs, a, i, TryLock(true), Locked);
      evs := ThenMoves(st, cfg, evs, b, i, Claim(true), body);
      evs := ThenMoves(st, cfg, evs, c, i, BodyAsk, Hoarding(cfg, 1));
    } else {
      var body := Body(h, false, cfg.asks - h);
      ReplacedTwice(st, i, body, Hoarding(cfg, h + 1));
      evs := ThenMoves(st, cfg, [], st, i, Acquire, body);
      evs := ThenMoves(st, cfg, evs, Replaced(st, i, body), i, BodyAsk, Hoarding(cfg, h + 1));
    }
  }

  lemma {:induction false} SomeHasRoom(jobs: seq<Job>, cfg: Config) returns (i: nat)
    requires (forall j :: j in jobs ==> Hoards(j, cfg)) && Sum(HeldOf, jobs) < |jobs| * cfg.extra
    ensures i < |jobs| && HeldOf(jobs[i]) < cfg.extra
    decreases |jobs|
  {
    assert jobs != [];
    if HeldOf(jobs[0]) < cfg.extra {
      i := 0;
    } else {
      assert jobs[0] in jobs;
      assert |jobs| * cfg.extra == (|jobs| - 1) * cfg.extra + cfg.extra;
      var k := SomeHasRoom(jobs[1..], cfg);
      i := k + 1;
    }
  }

  lemma OneMoreHeld(st: Runner, cfg: Config, i: nat)
    requires i < |st.jobs| && HeldOf(st.jobs[i]) < cfg.extra && forall j :: j in st.jobs ==> Hoards(j, cfg)
    ensures var next := Replaced(st, i, Hoarding(cfg, HeldOf(st.jobs[i]) + 1));
      && Held(next) == Held(st) + 1 && |next.jobs| == |st.jobs| && next.tick == st.tick && next.leaders == st.leaders
      && forall j :: j in next.jobs ==> Hoards(j, cfg)
  {
    var next := Replaced(st, i, Hoarding(cfg, HeldOf(st.jobs[i]) + 1));
    assert st.jobs[..i] + [next.jobs[i]] + st.jobs[i + 1..] == next.jobs;
    SumSplice(HeldOf, st.jobs, i, [next.jobs[i]]);
    SumOne(HeldOf, next.jobs[i]);
    assert st.jobs[i] in st.jobs;
    forall j | j in next.jobs ensures Hoards(j, cfg) {
      var k :| 0 <= k < |next.jobs| && next.jobs[k] == j;
      assert k != i ==> st.jobs[k] in st.jobs;
    }
  }

  /** Jobs that hoard, and can hold all there is, take it all: a deadlock. */
  lemma {:induction false} HoardersGetStuck(st: Runner, cfg: Config) returns (evs: seq<Event>)
    requires cfg.extra <= cfg.asks && st.jobs != [] && st.tick.Idle? && forall j :: j in st.jobs ==> Hoards(j, cfg)
    requires Held(st) <= cfg.size <= st.leaders + |st.jobs| * cfg.extra
    ensures CanRun(st, cfg, evs) && TickStarted(evs) && Stuck(Run(st, cfg, evs), cfg)
    ensures |Run(st, cfg, evs).jobs| == |st.jobs|
    decreases cfg.size - Held(st)
  {
    if SomeFree(st, cfg) {
      var i := SomeHasRoom(st.jobs, cfg);
      var h := HeldOf(st.jobs[i]);
      assert st.jobs[i] in st.jobs;
      var next := Replaced(st, i, Hoarding(cfg, h + 1));
      evs := HoardsOneMore(st, cfg, i, h);
      OneMoreHeld(st, cfg, i);
      var more := HoardersGetStuck(next, cfg);
      hide Stuck, Hoards;
      Join(st, cfg, evs, next, more, Run(next, cfg, more));
      evs := evs + more;
    } else {
      evs := [];
    }
  }

  lemma {:induction false} LeadersTake(st: Runner, cfg: Config, n: nat) returns (evs: seq<Event>)
    requires st.leaderAsks == 0 && st.leaders + n <= LEADER_LOCK_RESERVE && Held(st) + n <= cfg.size
    ensures Goes(st, cfg, evs, st.(leaders := st.leaders + n))
    decreases n
  {
    Stay(st, cfg);
    if n == 0 {
      evs := [];
      assert st.(leaders := st.leaders) == st;
    } else {
      evs := LeadersTake(st, cfg, n - 1);
      var before := st.(leaders := st.leaders + (n - 1));
      hide Goes;
      evs := Then(st, cfg, evs, before, LeaderAsks);
      evs := Then(st, cfg, evs, before.(leaderAsks := 1), LeaderGets);
    }
  }

  lemma TickStartsAll(cfg: Config, n: nat) returns (evs: seq<Event>)
    requires cfg.extra <= cfg.asks && n == MaxConcurrency(cfg) && cfg.size >= 1
    ensures Goes(INITIAL, cfg, evs, INITIAL.(jobs := Jobs(cfg, 0, n)))
  {
    StartsNames(cfg, 0, n);
    assert Jobs(cfg, 0, 0) == [];
    Stay(INITIAL, cfg);
    hide Goes, Jobs;
    evs := Then(INITIAL, cfg, [], INITIAL, TickAsks);
    evs := Then(INITIAL, cfg, evs, INITIAL.(tick := AskingForDue), TickGets);
    evs := Then(INITIAL, cfg, evs, INITIAL.(tick := QueryingDue), TickStarts(Names(0, n)));
  }

  /** Too small a pool deadlocks: a tick starts all it may, leader election takes its reserve, and
      every body takes what is left while it asks for more. */
  lemma SmallPoolDeadlocks(cfg: Config)
    requires cfg.extra <= cfg.asks && 1 <= cfg.size <= DeadlockBound(cfg)
    ensures CanDeadlock(cfg)
  {
    var n := MaxConcurrency(cfg);
    var started := INITIAL.(jobs := Jobs(cfg, 0, n));
    var leaders := Min(LEADER_LOCK_RESERVE, cfg.size);
    var led := started.(leaders := leaders);
    WaitingAsk(started.jobs);
    var evs := TickStartsAll(cfg, n);
    var more := LeadersTake(started, cfg, leaders);
    assert forall j :: j in led.jobs ==> Hoards(j, cfg);
    assert cfg.size <= leaders + n * cfg.extra by {
      assert n * cfg.extra >= 0;
    }
    var rest := HoardersGetStuck(led, cfg);
    hide Stuck, Jobs;
    Join(INITIAL, cfg, evs, started, more, led);
    Join(INITIAL, cfg, evs + more, led, rest, Run(led, cfg, rest));
  }

  /** Some run deadlocks exactly when the pool is no larger than what leader election and jobs that
      all ask can hold. */
  lemma DeadlocksIff(cfg: Config)
    requires cfg.extra <= cfg.asks && cfg.size >= 1
    ensures CanDeadlock(cfg) <==> cfg.size <= DeadlockBound(cfg)
  {
    if cfg.size <= DeadlockBound(cfg) {
      SmallPoolDeadlocks(cfg);
    } else if CanDeadlock(cfg) {
      var evs :| CanRun(INITIAL, cfg, evs) && TickStarted(evs) && Stuck(Run(INITIAL, cfg, evs), cfg);
      RunKeepsSound(INITIAL, cfg, evs);
      LargePoolNeverStuck(Run(INITIAL, cfg, evs), cfg);
    }
  }

  /** Bodies that hold one client at a time: no deadlock from six clients up, whatever concurrency
      is asked for. */
  lemma OneExtraDeadlocksIff(cfg: Config)
    requires cfg.extra == 1 <= cfg.asks && cfg.size >= 1
    ensures CanDeadlock(cfg) <==> cfg.size < 6
  {
    DeadlocksIff(cfg);
  }

  /** Bodies that hold one client while they need another: a deadlock below six clients, and from
      six up exactly where the pool is even and the concurrency is the safe maximum itself. */
  lemma TwoExtrasDeadlockIff(cfg: Config)
    requires cfg.extra == 2 <= cfg.asks && cfg.size >= 1
    ensures CanDeadlock(cfg) <==>
      cfg.size < 6 || (cfg.size % 2 == 0 && MaxConcurrency(cfg) == SafeMaxConcurrency(cfg.size))
  {
    DeadlocksIff(cfg);
  }

  /** At the shipped pool of twenty and concurrency of four nobody has to wait, and nothing
      deadlocks, exactly as long as bodies hold at most three clients at a time. */
  lemma ShippedDefaults(cfg: Config)
    requires cfg.size == 20 && cfg.requested == 4 && cfg.extra <= cfg.asks
    ensures MaxConcurrency(cfg) == 4
    ensures (CanStarve(cfg) <==> cfg.extra > 3) && (CanDeadlock(cfg) <==> cfg.extra > 3)
  {
    StarvesIff(cfg);
    DeadlocksIff(cfg);
  }

  // ---------- manual triggers ----------

  lemma {:induction false} TriggersPile(cfg: Config, n: nat) returns (evs: seq<Event>)
    requires cfg.extra <= cfg.asks
    ensures CanRun(INITIAL, cfg, evs) && Run(INITIAL, cfg, evs) == INITIAL.(jobs := Jobs(cfg, 0, n))
  {
    if n == 0 {
      evs := [];
      assert Run(INITIAL, cfg, evs) == INITIAL;
    } else {
      var before := TriggersPile(cfg, n - 1);
      var jobs := Jobs(cfg, 0, n - 1);
      var st := INITIAL.(jobs := jobs);
      forall j | j in jobs ensures j.name != Name(n - 1) {
        var i :| 0 <= i < n - 1 && j == jobs[i];
        assert |j.name| == i;
      }
      var ev := Triggered(Name(n - 1));
      assert jobs + [Job(Name(n - 1), Waiting)] == Jobs(cfg, 0, n);
      assert CanRun(Step(st, cfg, ev), cfg, []) && [ev][1..] == [];
      RunAppend(INITIAL, cfg, before, [ev]);
      evs := before + [ev];
    }
  }

  lemma {:induction false} WaitingAsk(jobs: seq<Job>)
    requires forall j :: j in jobs ==> j.phase.Waiting?
    ensures Sum(AskedOf, jobs) == |jobs| && Sum(HeldOf, jobs) == 0
    decreases |jobs|
  {
    if jobs != [] {
      assert jobs[0] in jobs;
      WaitingAsk(jobs[1..]);
    }
  }

  /** `triggerJob` does not look at the clamp: manual triggers exceed it and starve a pool of any
      size. */
  lemma TriggersStarveAnyPool(cfg: Config) returns (evs: seq<Event>)
    requires cfg.extra <= cfg.asks
    ensures CanRun(INITIAL, cfg, evs)
    ensures var st := Run(INITIAL, cfg, evs); Starved(st, cfg) && |st.jobs| > MaxConcurrency(cfg)
  {
    var n := cfg.size + MaxConcurrency(cfg) + 1;
    evs := TriggersPile(cfg, n);
    var st := INITIAL.(jobs := Jobs(cfg, 0, n));
    WaitingAsk(st.jobs);
    var more := OverdemandStarves(st, cfg);
    RunAppend(INITIAL, cfg, evs, more);
    evs := evs + more;
  }

  /** And where bodies take clients of their own they deadlock it. */
  lemma TriggersDeadlockAnyPool(cfg: Config) returns (evs: seq<Event>)
    requires 1 <= cfg.extra <= cfg.asks
    ensures CanRun(INITIAL, cfg, evs)
    ensures var st := Run(INITIAL, cfg, evs); Stuck(st, cfg) && |st.jobs| > MaxConcurrency(cfg)
  {
    var n := cfg.size + MaxConcurrency(cfg) + 1;
    evs := TriggersPile(cfg, n);
    var st := INITIAL.(jobs := Jobs(cfg, 0, n));
    WaitingAsk(st.jobs);
    assert forall j :: j in st.jobs ==> Hoards(j, cfg);
    Monotone(1, cfg.extra, n);
    assert n * cfg.extra == cfg.extra * n;
    var more := HoardersGetStuck(st, cfg);
    hide Stuck, Jobs;
    RunAppend(INITIAL, cfg, evs, more);
    evs := evs + more;
  }

  // ---------- the runner as it runs ----------

  /** The runner's own variables, beside the state of the whole: runner, pool and leaders. */
  class JobRunner {
    const cfg: Config
    var maxConcurrency: int
    var stopping: bool
    var ticking: bool
    var inflight: seq<Job>
    ghost var whole: Runner

    ghost predicate InStep()
      reads this
    {
      && maxConcurrency == MaxConcurrency(cfg)
      && whole.jobs == inflight && whole.stopping == stopping && (ticking <==> !whole.tick.Idle?)
    }

    /** `start`. */
    constructor (cfg: Config)
      ensures this.cfg == cfg && InStep() && whole == INITIAL
      ensures maxConcurrency >= 1 && (cfg.requested >= 1 ==> maxConcurrency <= cfg.requested)
      ensures cfg.size >= 6 ==> 4 + 2 * maxConcurrency <= cfg.size
      ensures maxConcurrency < cfg.requested ==> cfg.size < 4 + 2 * (maxConcurrency + 1)
    {
      this.cfg := cfg;
      maxConcurrency := Max(1, Min(cfg.requested, SafeMaxConcurrency(cfg.size)));
      stopping, ticking, inflight := false, false, [];
      whole := INITIAL;
    }

    /** The guards of `tick`: it asks for a client exactly when the tick may go on, and otherwise
        leaves everything alone. */
    method BeginTick() returns (queries: bool)
      requires InStep()
      modifies this
      ensures InStep() && queries == Enabled(old(whole), cfg, TickAsks)
      ensures queries == (!old(stopping) && !old(ticking) && |old(inflight)| < maxConcurrency)
      ensures if queries then whole == Step(old(whole), cfg, TickAsks) else whole == old(whole)
    {
      queries := !stopping && !ticking && |inflight| < maxConcurrency;
      if queries {
        whole := Step(whole, cfg, TickAsks);
        ticking := true;
      }
    }

    /** The pool answers the tick. */
    method TickGetsClient()
      requires InStep() && Enabled(whole, cfg, TickGets)
      modifies this
      ensures InStep() && whole == Step(old(whole), cfg, TickGets)
    {
      whole := Step(whole, cfg, TickGets);
    }

    /** The loop of `tick` over the due rows, and its end. */
    method StartDueJobs(due: seq<string>)
      requires InStep() && Enabled(whole, cfg, TickStarts(due))
      modifies this
      ensures InStep() && whole == Step(old(whole), cfg, TickStarts(due))
      ensures if old(stopping) then inflight == old(inflight)
              else StartedFrom(old(inflight), inflight, due) && |inflight| <= Max(|old(inflight)|, maxConcurrency)
      ensures !old(stopping) ==> forall k :: 0 <= k < |due| && !InFlight(inflight, due[k]) ==>
                |inflight| >= maxConcurrency && StartedFrom(old(inflight), inflight, due[..k])
    {
      var i := 0;
      ghost var was := whole;
      while i < |due| && !stopping && |inflight| < maxConcurrency
        invariant i <= |due| && whole == was && stopping == old(stopping) && maxConcurrency == old(maxConcurrency)
        invariant stopping ==> inflight == old(inflight)
        invariant StartDue(inflight, due[i..], maxConcurrency) == StartDue(old(inflight), due, maxConcurrency)
      {
        assert due[i..][0] == due[i] && due[i..][1..] == due[i + 1..];
        if !InFlight(inflight, due[i]) {
          inflight := inflight + [Job(due[i], Waiting)];
        }
        i := i + 1;
      }
      ticking := false;
      whole := Step(whole, cfg, TickStarts(due));
      StartDueStarts(old(inflight), due, maxConcurrency);
      forall k | !old(stopping) && 0 <= k < |due| && !InFlight(inflight, due[k])
        ensures |inflight| >= maxConcurrency && StartedFrom(old(inflight), inflight, due[..k])
      {
        LeftOutWhenFull(old(inflight), due, maxConcurrency, k);
      }
    }
  }
}
