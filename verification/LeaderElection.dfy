/** Leadership by session lock, apps/api/src/coordination/leaderElection.ts, over several instances
    and one database. */
module LeaderElection {
  import opened Wrappers

  /** An instance's entry in its `heldLocks`. */
  datatype Claim = Claim(instance: nat, name: string)

  datatype Use = Idle | Leading(claim: Claim)

  /** Sessions that are not in the map are closed; `held` is every instance's `heldLocks`. */
  datatype World = World(sessions: map<nat, Use>, locks: map<string, nat>, held: map<Claim, nat>)

  const INITIAL := World(map[], map[], map[])

  datatype Event =
    | Opens(s: nat)
    | TriesToLead(claim: Claim, s: nat)
    | Releases(claim: Claim, unlocked: bool)
    | Lost(s: nat)

  predicate Enabled(w: World, ev: Event) {
    match ev
    case Opens(s) => s !in w.sessions && forall c :: c in w.held ==> w.held[c] != s
    case TriesToLead(c, s) => s in w.sessions && w.sessions[s].Idle?
    case Releases(_, _) => true
    case Lost(s) => s in w.sessions
  }

  /** `tryAcquireLeadership`: the instance that leads already does not ask again. */
  function TryToLead(w: World, c: Claim, s: nat): World {
    if c in w.held || (c.name in w.locks && w.locks[c.name] != s) then w
    else World(w.sessions[s := Leading(c)], w.locks[c.name := s], w.held[c := s])
  }

  /** `releaseLeadership`: an unlock that fails is passed over, and the client goes back. */
  function Release(w: World, c: Claim, unlocked: bool): World {
    if c !in w.held then w
    else
      var s := w.held[c];
      if s !in w.sessions then w.(held := w.held - {c})
      else World(w.sessions[s := Idle], if unlocked && c.name in w.locks && w.locks[c.name] == s then w.locks - {c.name} else w.locks,
                 w.held - {c})
  }

  function Step(w: World, ev: Event): World
    requires Enabled(w, ev)
  {
    match ev
    case Opens(s) => w.(sessions := w.sessions[s := Idle])
    case TriesToLead(c, s) => TryToLead(w, c, s)
    case Releases(c, unlocked) => Release(w, c, unlocked)
    case Lost(s) => w.(sessions := w.sessions - {s}, locks := map n | n in w.locks && w.locks[n] != s :: w.locks[n])
  }

  predicate CanRun(w: World, evs: seq<Event>)
    decreases |evs|
  {
    evs == [] || (Enabled(w, evs[0]) && CanRun(Step(w, evs[0]), evs[1..]))
  }

  function Run(w: World, evs: seq<Event>): World
    requires CanRun(w, evs)
    decreases |evs|
  {
    if evs == [] then w else Run(Step(w, evs[0]), evs[1..])
  }

  predicate Leads(w: World, c: Claim) { c in w.held }

  /** The claim's session is alive. */
  predicate Backed(w: World, c: Claim) { c in w.held && w.held[c] in w.sessions }

  /** A claim with a live session has the lock on it, and the session is its own; locks are held by
      live sessions. */
  ghost predicate Sound(w: World) {
    && (forall c :: Backed(w, c) ==>
          w.sessions[w.held[c]] == Leading(c) && c.name in w.locks && w.locks[c.name] == w.held[c])
    && (forall s :: s in w.sessions && w.sessions[s].Leading? ==>
          w.sessions[s].claim in w.held && w.held[w.sessions[s].claim] == s)
    && (forall n :: n in w.locks ==> w.locks[n] in w.sessions)
  }

  lemma StepKeepsSound(w: World, ev: Event)
    requires Sound(w) && Enabled(w, ev)
    ensures Sound(Step(w, ev))
  {
  }

  lemma {:induction false} RunKeepsSound(w: World, evs: seq<Event>)
    requires Sound(w) && CanRun(w, evs)
    ensures Sound(Run(w, evs))
    decreases |evs|
  {
    hide Step, Enabled, Sound;
    if evs != [] {
      StepKeepsSound(w, evs[0]);
      RunKeepsSound(Step(w, evs[0]), evs[1..]);
    }
  }

  /** In every run, of two instances that both take themselves to lead under one name, at least one
      has lost its session. */
  lemma TwoLeadersMeanLost(evs: seq<Event>, a: Claim, b: Claim)
    requires CanRun(INITIAL, evs) && a.name == b.name && a != b
    requires Leads(Run(INITIAL, evs), a) && Leads(Run(INITIAL, evs), b)
    ensures !Backed(Run(INITIAL, evs), a) || !Backed(Run(INITIAL, evs), b)
  {
    RunKeepsSound(INITIAL, evs);
  }

  /** While nothing is lost no two lead: every leader is backed. */
  predicate NoneLost(evs: seq<Event>) { forall ev :: ev in evs ==> !ev.Lost? }

  lemma StepKeepsBacked(w: World, ev: Event)
    requires Enabled(w, ev) && !ev.Lost? && forall d :: Leads(w, d) ==> Backed(w, d)
    ensures forall d :: Leads(Step(w, ev), d) ==> Backed(Step(w, ev), d)
  {
    forall d | Leads(Step(w, ev), d) ensures Backed(Step(w, ev), d) {
      assert Leads(w, d) ==> Backed(w, d);
    }
  }

  lemma {:induction false} AllBacked(w: World, evs: seq<Event>, c: Claim)
    requires CanRun(w, evs) && NoneLost(evs) && forall d :: Leads(w, d) ==> Backed(w, d)
    requires Leads(Run(w, evs), c)
    ensures Backed(Run(w, evs), c)
    decreases |evs|
  {
    if evs != [] {
      assert evs[0] in evs;
      StepKeepsBacked(w, evs[0]);
      AllBacked(Step(w, evs[0]), evs[1..], c);
    }
  }

  lemma OneLeaderWhileNoneLost(evs: seq<Event>, a: Claim, b: Claim)
    requires CanRun(INITIAL, evs) && NoneLost(evs) && a.name == b.name
    requires Leads(Run(INITIAL, evs), a) && Leads(Run(INITIAL, evs), b)
    ensures a == b
  {
    hide Run, CanRun;
    AllBacked(INITIAL, evs, a);
    AllBacked(INITIAL, evs, b);
    if a != b {
      TwoLeadersMeanLost(evs, a, b);
    }
  }

  /** A lost session is not noticed: the instance goes on leading, also when it tries again, and
      another instance can lead beside it. */
  lemma LostLeaderGoesOn(w: World, a: Claim, b: Claim, s: nat, t: nat)
    requires Sound(w) && Backed(w, a) && w.held[a] == s && t in w.sessions && w.sessions[t].Idle?
    requires a.name == b.name && a.instance != b.instance && !Leads(w, b)
    ensures var lost := Step(w, Lost(s));
      && Leads(lost, a)
      && TryToLead(lost, a, t) == lost
      && Enabled(lost, TriesToLead(b, t))
      && var both := Step(lost, TriesToLead(b, t));
         Leads(both, a) && Leads(both, b) && Backed(both, b) && !Backed(both, a)
  {
  }

  /** An unlock that fails without ending the session leaves the name locked by an idle client: an
      instance can lead under it again exactly by being given that very client. */
  lemma FailedUnlockBlocks(w: World, a: Claim, b: Claim, s: nat)
    requires Sound(w) && Backed(w, a) && a.name == b.name
    requires var after := Release(w, a, false); !Leads(after, b) && s in after.sessions && after.sessions[s].Idle?
    ensures Leads(TryToLead(Release(w, a, false), b, s), b) <==> s == w.held[a]
  {
  }

  // ---------- one instance as it runs ----------

  /** One instance's `heldLocks`, beside the world it is part of. */
  class Leadership {
    const instance: nat
    var heldLocks: map<string, nat>
    ghost var world: World

    /** The map is the instance's part of the world. */
    ghost predicate InStep()
      reads this
    {
      forall n :: (n in heldLocks <==> Claim(instance, n) in world.held)
                  && (n in heldLocks ==> heldLocks[n] == world.held[Claim(instance, n)])
    }

    constructor (instance: nat)
      ensures this.instance == instance && world == INITIAL && heldLocks == map[] && InStep()
    {
      this.instance := instance;
      heldLocks := map[];
      world := INITIAL;
    }

    /** `tryAcquireLeadership` on the session the pool gives, with what the database answers. */
    method TryAcquire(name: string, session: nat, granted: bool) returns (leads: bool)
      requires InStep() && Enabled(world, TriesToLead(Claim(instance, name), session))
      requires granted <==> name !in world.locks || world.locks[name] == session
      modifies this
      ensures InStep() && world == TryToLead(old(world), Claim(instance, name), session)
      ensures leads == Leads(world, Claim(instance, name))
    {
      if name in heldLocks {
        return true;
      }
      world := TryToLead(world, Claim(instance, name), session);
      if granted {
        heldLocks := heldLocks[name := session];
      }
      return granted;
    }

    /** `releaseLeadership`. */
    method ReleaseOne(name: string, ghost unlocked: bool)
      requires InStep()
      modifies this
      ensures InStep() && world == Release(old(world), Claim(instance, name), unlocked)
      ensures heldLocks == old(heldLocks) - {name}
    {
      world := Release(world, Claim(instance, name), unlocked);
      heldLocks := heldLocks - {name};
    }

    /** `releaseAllLeadership`: nothing is led afterwards, and other instances' claims stay. */
    method ReleaseAll()
      requires InStep()
      modifies this
      ensures InStep() && heldLocks == map[]
      ensures forall c :: c in world.held <==> c in old(world).held && c.instance != instance
      ensures forall c :: c in world.held ==> world.held[c] == old(world).held[c]
    {
      var names := heldLocks.Keys;
      while names != {}
        invariant InStep() && names == heldLocks.Keys
        invariant forall c :: c in world.held <==> c in old(world).held && (c.instance == instance ==> c.name in names)
        invariant forall c :: c in world.held ==> world.held[c] == old(world).held[c]
        decreases |names|
      {
        var name :| name in names;
        names := names - {name};
        ReleaseOne(name, true);
      }
      assert forall c :: c in world.held && c.instance == instance ==> Claim(instance, c.name) == c;
    }
  }
}
