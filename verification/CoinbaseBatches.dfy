/** The connections of the Coinbase batches, apps/api/src/feeds/coinbaseWs.ts.

    Sockets are numbered as they are created, over all batches.  Reconciling is one step, taken
    when its symbol lookup has come back, which may be after a stop.  Late events of old sockets
    are included: SocketEnded and SocketOpened may name any socket. */
module CoinbaseBatches {
  import opened Wrappers

  datatype Batch = Batch(socket: Option<nat>, connected: bool, timer: bool)

  datatype Feed = Feed(stopped: bool, sockets: nat, batches: map<nat, Batch>)

  const INITIAL := Feed(false, 0, map[])

  const NEW_BATCH := Batch(None, false, false)

  /** `connectBatch`. */
  function Connect(f: Feed, i: nat): Feed
    requires i in f.batches
  {
    if f.stopped then f
    else f.(sockets := f.sockets + 1, batches := f.batches[i := f.batches[i].(socket := Some(f.sockets))])
  }

  /** `releaseSocket`. */
  function Released(b: Batch): Batch { b.(socket := None, connected := false) }

  /** `scheduleBatchReconnect`, for a batch that is still in the map. */
  function Scheduled(b: Batch, stopped: bool): Batch { if stopped || b.timer then b else b.(timer := true) }

  /** `dropBatchSocket`: only the batch's current socket can be dropped. */
  function Dropped(b: Batch, id: nat, stopped: bool): Batch {
    if b.socket != Some(id) then b else Scheduled(Released(b), stopped)
  }

  /** `killBatch`. */
  function Killed(b: Batch, enabled: bool, stopped: bool): Batch {
    if !enabled || b.socket.None? then b else Dropped(b, b.socket.value, stopped)
  }

  function TimerFires(f: Feed, i: nat): Feed {
    if i in f.batches && f.batches[i].timer
    then Connect(f.(batches := f.batches[i := f.batches[i].(timer := false)]), i) else f
  }

  /** The first loop of `reconcileBatches`, from batch i on: batches that are missing are made. */
  function Created(f: Feed, i: nat, count: nat): Feed
    decreases count - i
  {
    if i >= count then f
    else if i in f.batches then Created(f, i + 1, count)
    else Created(Connect(f.(batches := f.batches[i := NEW_BATCH]), i), i + 1, count)
  }

  /** Its second loop: batches beyond the count are torn down. */
  function Shrunk(f: Feed, count: nat): Feed {
    f.(batches := map i | i in f.batches && i < count :: f.batches[i])
  }

  function Reconcile(f: Feed, count: nat): Feed { Shrunk(Created(f, 0, count), count) }

  datatype Event =
    | Starts
    | Stops
    | Reconciles(count: nat)
    | SocketOpened(i: nat)
    | SocketEnded(id: nat)
    | TimerFired(i: nat)
    | WatchdogKills(i: nat, enabled: bool)

  function Step(f: Feed, ev: Event): Feed {
    match ev
    case Starts => f.(stopped := false)
    case Stops => f.(stopped := true, batches := map[])
    case Reconciles(count) => Reconcile(f, count)
    case SocketOpened(i) => if i in f.batches then f.(batches := f.batches[i := f.batches[i].(connected := true)]) else f
    case SocketEnded(id) => f.(batches := map i | i in f.batches :: Dropped(f.batches[i], id, f.stopped))
    case TimerFired(i) => TimerFires(f, i)
    case WatchdogKills(i, enabled) =>
      if i in f.batches && f.batches[i].connected
      then f.(batches := f.batches[i := Killed(f.batches[i], enabled, f.stopped)]) else f
  }

  function Run(f: Feed, evs: seq<Event>): Feed
    decreases |evs|
  {
    if evs == [] then f else Run(Step(f, evs[0]), evs[1..])
  }

  // ---------- one connection for each batch ----------

  predicate One(b: Batch) { b.socket.Some? != b.timer }

  predicate Dead(b: Batch) { b.socket.None? && !b.timer }

  /** No two batches share a socket, none has one that was not created, and none has both a socket
      and a timer; a stopped feed has no live batch. */
  ghost predicate Sound(f: Feed) {
    && (forall i :: i in f.batches ==> One(f.batches[i]) || Dead(f.batches[i]))
    && (forall i :: i in f.batches && f.batches[i].socket.Some? ==> f.batches[i].socket.value < f.sockets)
    && (forall i, j :: i in f.batches && j in f.batches && i != j && f.batches[i].socket.Some? ==>
          f.batches[i].socket != f.batches[j].socket)
    && (f.stopped ==> forall i :: i in f.batches ==> Dead(f.batches[i]))
  }

  /** Every batch has exactly one of a socket and a pending reconnect. */
  ghost predicate AllOne(f: Feed) { forall i :: i in f.batches ==> One(f.batches[i]) }

  lemma ConnectKeeps(f: Feed, i: nat)
    requires Sound(f) && i in f.batches && Dead(f.batches[i])
    ensures Sound(Connect(f, i))
    ensures !f.stopped ==> One(Connect(f, i).batches[i])
  {
  }

  lemma NewIsSound(f: Feed, i: nat)
    requires Sound(f) && i !in f.batches
    ensures Sound(f.(batches := f.batches[i := NEW_BATCH]))
  {
  }

  lemma {:induction false} CreatedKeeps(f: Feed, i: nat, count: nat)
    requires Sound(f)
    ensures var after := Created(f, i, count);
      && Sound(after) && after.stopped == f.stopped
      && (AllOne(f) && !f.stopped ==> AllOne(after))
      && (forall k :: k in f.batches ==> k in after.batches && after.batches[k] == f.batches[k])
      && (forall k :: i <= k < count ==> k in after.batches)
    decreases count - i
  {
    hide Sound;
    if i < count {
      if i in f.batches {
        CreatedKeeps(f, i + 1, count);
      } else {
        var made := f.(batches := f.batches[i := NEW_BATCH]);
        NewIsSound(f, i);
        ConnectKeeps(made, i);
        CreatedKeeps(Connect(made, i), i + 1, count);
      }
    }
  }

  lemma TimerKeeps(f: Feed, i: nat)
    requires Sound(f)
    ensures Sound(TimerFires(f, i))
  {
    if i in f.batches && f.batches[i].timer {
      var idle := f.(batches := f.batches[i := f.batches[i].(timer := false)]);
      assert Sound(idle) && Dead(idle.batches[i]);
      hide Sound;
      ConnectKeeps(idle, i);
    }
  }

  lemma DropKeepsBatch(b: Batch, id: nat, stopped: bool)
    requires One(b) || Dead(b)
    ensures var next := Dropped(b, id, stopped);
      && (next == b || (next.socket.None? && b.socket == Some(id)))
      && (One(b) && !stopped ==> One(next))
      && (Dead(b) ==> next == b)
  {
  }

  lemma EndedKeeps(f: Feed, id: nat)
    requires Sound(f)
    ensures Sound(Step(f, SocketEnded(id)))
  {
    forall i | i in f.batches ensures
      var b, next := f.batches[i], Dropped(f.batches[i], id, f.stopped);
      && (next == b || next.socket.None?) && (One(b) && !f.stopped ==> One(next)) && (Dead(b) ==> next == b)
    {
      DropKeepsBatch(f.batches[i], id, f.stopped);
    }
    hide Dropped;
  }

  lemma KilledKeeps(f: Feed, i: nat, enabled: bool)
    requires Sound(f)
    ensures Sound(Step(f, WatchdogKills(i, enabled)))
  {
  }

  lemma StepKeepsSound(f: Feed, ev: Event)
    requires Sound(f)
    ensures Sound(Step(f, ev))
  {
    hide Created, TimerFires, Killed, Dropped;
    match ev
    case Reconciles(count) => CreatedKeeps(f, 0, count);
    case TimerFired(i) => TimerKeeps(f, i);
    case SocketEnded(id) => EndedKeeps(f, id);
    case WatchdogKills(i, enabled) => KilledKeeps(f, i, enabled);
    case _ =>
  }

  lemma {:induction false} RunKeepsSound(f: Feed, evs: seq<Event>)
    requires Sound(f)
    ensures Sound(Run(f, evs))
    decreases |evs|
  {
    hide Step, Sound;
    if evs != [] {
      StepKeepsSound(f, evs[0]);
      RunKeepsSound(Step(f, evs[0]), evs[1..]);
    }
  }

  /** No reconcile comes back while the feed is stopped. */
  predicate NoLateReconcile(stopped: bool, evs: seq<Event>)
    decreases |evs|
  {
    evs == []
    || (!(stopped && evs[0].Reconciles?)
        && NoLateReconcile(if evs[0].Starts? then false else evs[0].Stops? || stopped, evs[1..]))
  }

  lemma StepKeepsOne(f: Feed, ev: Event)
    requires Sound(f) && AllOne(f) && !(f.stopped && ev.Reconciles?)
    ensures AllOne(Step(f, ev))
    ensures Step(f, ev).stopped == if ev.Starts? then false else ev.Stops? || f.stopped
  {
    match ev
    case Reconciles(count) => CreatedKeeps(f, 0, count);
    case _ =>
  }

  /** Without a late reconcile, in every run every batch in the map has exactly one of a current
      socket and a pending reconnect. */
  lemma {:induction false} RunKeepsOne(f: Feed, evs: seq<Event>)
    requires Sound(f) && AllOne(f) && NoLateReconcile(f.stopped, evs)
    ensures AllOne(Run(f, evs))
    decreases |evs|
  {
    hide Step, Sound, AllOne;
    if evs != [] {
      StepKeepsOne(f, evs[0]);
      StepKeepsSound(f, evs[0]);
      RunKeepsOne(Step(f, evs[0]), evs[1..]);
    }
  }

  /** From the start of the process: a batch's one connection, shared with no other batch. */
  lemma AlwaysOneConnection(evs: seq<Event>, i: nat, j: nat)
    requires NoLateReconcile(false, evs)
    ensures var f := Run(INITIAL, evs);
      && (i in f.batches ==> f.batches[i].socket.Some? != f.batches[i].timer)
      && (i in f.batches && j in f.batches && i != j && f.batches[i].socket.Some? ==> f.batches[i].socket != f.batches[j].socket)
  {
    hide Run, NoLateReconcile;
    RunKeepsOne(INITIAL, evs);
    RunKeepsSound(INITIAL, evs);
  }

  /** A step leaves a batch without socket and timer exactly when there was such a batch that stays,
      or a reconcile comes back to a stopped feed and makes one. */
  lemma DeadIff(f: Feed, ev: Event)
    requires Sound(f)
    ensures AllOne(Step(f, ev)) <==>
      && (forall i :: i in f.batches && Dead(f.batches[i]) ==> i !in Step(f, ev).batches)
      && !(f.stopped && ev.Reconciles? && exists i :: 0 <= i < ev.count && i !in f.batches)
  {
    if ev.Reconciles? {
      hide Sound;
      LateReconcile(f, ev.count);
      TimelyReconcile(f, ev.count);
    }
  }

  lemma LateReconcile(f: Feed, count: nat)
    requires Sound(f)
    ensures f.stopped ==> (AllOne(Reconcile(f, count)) <==> count == 0)
    ensures f.stopped && count > 0 && 0 in f.batches ==> Dead(f.batches[0]) && 0 in Reconcile(f, count).batches
  {
    CreatedKeeps(f, 0, count);
    if f.stopped {
      CreatedStopped(f, 0, count);
      assert count > 0 ==> 0 in Reconcile(f, count).batches;
    }
  }

  lemma TimelyReconcile(f: Feed, count: nat)
    requires Sound(f)
    ensures !f.stopped ==> (AllOne(Reconcile(f, count)) <==>
                            forall i :: i in f.batches && Dead(f.batches[i]) ==> i !in Reconcile(f, count).batches)
  {
    CreatedKeeps(f, 0, count);
    if !f.stopped {
      CreatedNewOne(f, 0, count);
    }
  }

  lemma {:induction false} CreatedStopped(f: Feed, i: nat, count: nat)
    requires f.stopped && forall k :: k in f.batches ==> Dead(f.batches[k])
    ensures forall k :: k in Created(f, i, count).batches ==> Dead(Created(f, i, count).batches[k])
    decreases count - i
  {
    if i < count {
      CreatedStopped(f, i + 1, count);
      CreatedStopped(f.(batches := f.batches[i := NEW_BATCH]), i + 1, count);
    }
  }

  lemma {:induction false} CreatedNewOne(f: Feed, i: nat, count: nat)
    requires !f.stopped
    ensures var after := Created(f, i, count);
      forall k :: k in after.batches ==> One(after.batches[k]) || (k in f.batches && after.batches[k] == f.batches[k])
    decreases count - i
  {
    if i < count {
      CreatedNewOne(f, i + 1, count);
      if i !in f.batches {
        CreatedNewOne(Connect(f.(batches := f.batches[i := NEW_BATCH]), i), i + 1, count);
      }
    }
  }

  /** A dead batch stays dead until it is torn down: no later start, reconcile, timer or socket
      event connects it. */
  lemma DeadStaysDead(f: Feed, ev: Event, i: nat)
    requires Sound(f) && i in f.batches && Dead(f.batches[i])
    ensures i in Step(f, ev).batches ==> Dead(Step(f, ev).batches[i])
  {
    if ev.Reconciles? {
      CreatedKeeps(f, 0, ev.count);
    }
  }

  /** So a stop that overtakes a reconcile, followed by a start, leaves a batch that never
      connects. */
  lemma StopDuringReconcile(count: nat)
    requires count > 0
    ensures var f := Run(INITIAL, [Starts, Stops, Reconciles(count), Starts, Reconciles(count)]);
      !f.stopped && 0 in f.batches && Dead(f.batches[0])
  {
    var stopped := INITIAL.(stopped := true);
    assert Step(INITIAL, Starts) == INITIAL && Step(INITIAL, Stops) == stopped;
    var late := Reconcile(stopped, count);
    CreatedKeeps(stopped, 0, count);
    assert Sound(late);
    CreatedStopped(stopped, 0, count);
    assert 0 in late.batches && Dead(late.batches[0]);
    var again := late.(stopped := false);
    CreatedKeeps(again, 0, count);
    assert Sound(again) && Dead(again.batches[0]);
    DeadStaysDead(again, Reconciles(count), 0);
    assert 0 in Reconcile(again, count).batches;
    var evs := [Starts, Stops, Reconciles(count), Starts, Reconciles(count)];
    assert Step(stopped, evs[2]) == late && Step(late, evs[3]) == again && Step(again, evs[4]) == Reconcile(again, count);
    hide Reconcile, Step, Sound, Dead;
    assert Run(INITIAL, evs) == Run(INITIAL, evs[1..]) == Run(stopped, evs[2..]) == Run(late, evs[3..])
        == Run(again, evs[4..]) == Run(Reconcile(again, count), evs[5..]);
  }

  // ---------- the feed as it runs ----------

  /** The module's variables. */
  class BatchFeed {
    var stopped: bool
    var sockets: nat
    var batches: map<nat, Batch>

    ghost function View(): Feed
      reads this
    {
      Feed(stopped, sockets, batches)
    }

    constructor ()
      ensures View() == INITIAL
    {
      stopped, sockets, batches := false, 0, map[];
    }

    method ConnectBatch(i: nat)
      requires i in batches
      modifies this
      ensures View() == Connect(old(View()), i)
    {
      if stopped {
        return;
      }
      batches := batches[i := batches[i].(socket := Some(sockets))];
      sockets := sockets + 1;
    }

    method DropBatchSocket(i: nat, id: nat)
      requires i in batches
      modifies this
      ensures View() == old(View()).(batches := old(batches)[i := Dropped(old(batches)[i], id, stopped)])
    {
      var b := batches[i];
      if b.socket != Some(id) {
        assert batches[i := b] == batches;
        return;
      }
      b := b.(socket := None, connected := false);
      if !stopped && !b.timer {
        b := b.(timer := true);
      }
      batches := batches[i := b];
    }

    method OnTimer(i: nat)
      modifies this
      ensures View() == TimerFires(old(View()), i)
    {
      if i in batches && batches[i].timer {
        batches := batches[i := batches[i].(timer := false)];
        ConnectBatch(i);
      }
    }

    method ReconcileBatches(count: nat)
      modifies this
      ensures View() == Reconcile(old(View()), count)
    {
      var i := 0;
      while i < count
        invariant i <= count
        invariant Created(View(), i, count) == Created(old(View()), 0, count)
      {
        if i !in batches {
          batches := batches[i := NEW_BATCH];
          ConnectBatch(i);
        }
        i := i + 1;
      }
      batches := map k | k in batches && k < count :: batches[k];
    }

    method StopFeed()
      modifies this
      ensures View() == Step(old(View()), Stops)
    {
      stopped := true;
      batches := map[];
    }
  }
}
