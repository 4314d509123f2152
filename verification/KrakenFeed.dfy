/** The Kraken feed's book gate and its connection, apps/api/src/market/krakenWs.ts.

    Symbols are named by their own symbol; books are held as values.  Times are passed in by the
    caller, as is whether the socket is ready to send.  Log is what the feed does to the outside
    that later steps must space out: resubscribes sent, sockets dropped. */
module KrakenFeed {
  import opened Wrappers
  import opened KrakenBook

  datatype Config = Config(enforce: bool, depth: nat, cooldownMs: int, timeoutMs: int, massSymbols: nat,
                           massWindowMs: int)

  datatype LogEntry = Sent(symbol: string, at: int) | Dropped

  /** One book message for one symbol: a snapshot or an update, Kraken's checksum if it is there,
      and the pair's precision if it is known. */
  datatype Entry = Entry(symbol: string, message: Message, checksum: Option<bv32>, precision: Option<Precision>)

  /** The module's state.  Sockets are numbered as they are created. */
  datatype State = State(
    socket: Option<nat>,
    connected: bool,
    timer: bool,
    stopped: bool,
    sockets: nat,
    books: map<string, Book>,
    published: map<string, Book>,
    resyncs: map<string, Option<int>>,
    lastSent: map<string, int>,
    recent: map<string, int>,
    active: set<string>,
    loaded: bool,
    log: seq<LogEntry>)

  const INITIAL := State(None, false, false, false, 0, map[], map[], map[], map[], map[], {}, false, [])

  // ---------- the connection ----------

  /** `resetBookState`. */
  function ResetBooks(st: State): State {
    st.(books := map[], resyncs := map[], lastSent := map[], recent := map[], log := st.log + [Dropped])
  }

  function ScheduleReconnect(st: State): State {
    if st.stopped || st.timer then st else st.(timer := true)
  }

  /** `dropSocket`: only the current socket can be dropped. */
  function DropSocket(st: State, id: nat): State {
    if st.socket != Some(id) then st
    else ScheduleReconnect(ResetBooks(st.(socket := None, connected := false)))
  }

  /** `killSocket`: the state after it, and whether it killed. */
  function KillSocket(st: State, enabled: bool): (State, bool) {
    if !enabled || st.socket.None? then (st, false) else (DropSocket(st, st.socket.value), true)
  }

  function Connect(st: State): State {
    if st.stopped then st else st.(socket := Some(st.sockets), sockets := st.sockets + 1)
  }

  /** The reconnect timer's callback. */
  function TimerFires(st: State): State {
    if st.timer then Connect(st.(timer := false)) else st
  }

  /** `startKrakenFeed`. */
  function Start(st: State): State { Connect(st.(stopped := false)) }

  /** `stopKrakenFeed`. */
  function Stop(st: State): State {
    ResetBooks(st.(stopped := true, connected := false, timer := false)).(socket := None)
  }

  // ---------- the book gate ----------

  /** `forgetBookState`. */
  function Forget(st: State, s: string): State {
    st.(books := st.books - {s}, resyncs := st.resyncs - {s}, lastSent := st.lastSent - {s},
        recent := st.recent - {s})
  }

  /** Some symbols forgotten. */
  function Without(st: State, gone: set<string>): State {
    st.(books := st.books - gone, resyncs := st.resyncs - gone, lastSent := st.lastSent - gone, recent := st.recent - gone)
  }

  /** `reconcileSubscriptions` once its lookup is back: the new symbols are in force, and the removed
      ones forgotten. */
  function Refresh(st: State, active: set<string>): State {
    Without(st, st.active - active).(active := active, loaded := true)
  }

  /** The first lookup, made when a socket opens while none has succeeded yet. */
  function Load(st: State, active: set<string>): State {
    if st.loaded then st else st.(active := active, loaded := true)
  }

  /** `requestBookResync`. */
  function RequestResync(st: State, cfg: Config, s: string, now: int, ready: bool): State {
    if s !in st.resyncs || st.resyncs[s].Some? || st.socket.None? || !ready then st
    else if s in st.lastSent && now - st.lastSent[s] < cfg.cooldownMs then st
    else if s !in st.active then Forget(st, s)
    else st.(resyncs := st.resyncs[s := Some(now)], lastSent := st.lastSent[s := now], log := st.log + [Sent(s, now)])
  }

  /** The mismatches still inside the window. */
  function Recent(recent: map<string, int>, cfg: Config, now: int): map<string, int> {
    map s | s in recent && now - recent[s] <= cfg.massWindowMs :: recent[s]
  }

  function Publish(st: State, s: string, b: Book): State { st.(published := st.published[s := b]) }

  /** The bad book is taken away and a resync opened. */
  function Hide(st: State, cfg: Config, s: string, now: int): State {
    st.(books := st.books - {s}, published := st.published - {s}, resyncs := st.resyncs[s := None],
        recent := Recent(st.recent[s := now], cfg, now))
  }

  /** `onChecksumMismatch` for a symbol whose book is now `b`. */
  function OnMismatch(st: State, cfg: Config, s: string, b: Book, now: int, ready: bool): State {
    if !cfg.enforce then Publish(st, s, b)
    else
      var hidden := Hide(st, cfg, s, now);
      if |hidden.recent| >= cfg.massSymbols then KillSocket(hidden, true).0
      else RequestResync(hidden, cfg, s, now, ready)
  }

  /** The rest of `applyBookEntry` once the book `b` has taken the message. */
  function Verify(st: State, cfg: Config, e: Entry, b: Book, now: int, ready: bool): State {
    if e.checksum.None? || e.precision.None? || Checksum(b, e.precision.value) == e.checksum.value
    then Publish(st, e.symbol, b)
    else OnMismatch(st, cfg, e.symbol, b, now, ready)
  }

  /** `applyBookEntry`. */
  function ApplyEntry(st: State, cfg: Config, e: Entry, now: int, ready: bool): State {
    var s := e.symbol;
    match e.message
    case SnapshotMessage(bids, asks) =>
      var (b, ok) := Snapshot(EMPTY_BOOK, bids, asks, cfg.depth);
      if !ok then OnMismatch(st, cfg, s, b, now, ready)
      else Verify(st.(books := st.books[s := b], resyncs := st.resyncs - {s}), cfg, e, b, now, ready)
    case UpdateMessage(bids, asks) =>
      if s !in st.books then st
      else
        var (b, ok) := Update(st.books[s], bids, asks, cfg.depth);
        var taken := st.(books := st.books[s := b]);
        if !ok then OnMismatch(taken, cfg, s, b, now, ready) else Verify(taken, cfg, e, b, now, ready)
  }

  /** `checkBookResyncs` over the symbols in `order`. */
  function CheckResyncs(st: State, cfg: Config, order: seq<string>, now: int, ready: bool): State
    decreases |order|
  {
    if order == [] then st
    else if order[0] !in st.resyncs then CheckResyncs(st, cfg, order[1..], now, ready)
    else match st.resyncs[order[0]]
      case None => CheckResyncs(RequestResync(st, cfg, order[0], now, ready), cfg, order[1..], now, ready)
      case Some(at) =>
        if now - at > cfg.timeoutMs && KillSocket(st, true).1 then KillSocket(st, true).0
        else CheckResyncs(st, cfg, order[1..], now, ready)
  }

  /** Step 4 of `runWatchdogs`. */
  function WatchdogPass(st: State, cfg: Config, order: seq<string>, now: int, ready: bool): State {
    if st.socket.None? || !st.connected then st else CheckResyncs(st, cfg, order, now, ready)
  }

  // ---------- runs ----------

  /** Everything that can happen to the module.  SocketOpened and SocketEnded may name any socket
      ever created: late events of old sockets are included. */
  datatype Event =
    | Started
    | StoppedFeed
    | SocketOpened(id: nat)
    | SocketEnded(id: nat)
    | TimerFired
    | Killed(enabled: bool)
    | BookEntry(entry: Entry, at: int, ready: bool)
    | Watchdog(order: seq<string>, at: int, ready: bool)
    | SymbolsLoaded(active: set<string>)
    | Refreshed(active: set<string>, at: int)

  function Step(st: State, cfg: Config, ev: Event): State {
    match ev
    case Started => Start(st)
    case StoppedFeed => Stop(st)
    case SocketOpened(id) => st.(connected := true)
    case SocketEnded(id) => DropSocket(st, id)
    case TimerFired => TimerFires(st)
    case Killed(enabled) => KillSocket(st, enabled).0
    case BookEntry(e, now, ready) => ApplyEntry(st, cfg, e, now, ready)
    case Watchdog(order, now, ready) => WatchdogPass(st, cfg, order, now, ready)
    case SymbolsLoaded(active) => Load(st, active)
    case Refreshed(active, _) => Refresh(st, active)
  }

  function Run(st: State, cfg: Config, evs: seq<Event>): State
    decreases |evs|
  {
    if evs == [] then st else Run(Step(st, cfg, evs[0]), cfg, evs[1..])
  }

  // ---------- a bad book is never readable ----------

  predicate Unreadable(st: State, s: string) { s !in st.books && s !in st.published }

  /** A symbol with an open resync has no exact book and no published snapshot; without
      enforcement there are no resyncs. */
  ghost predicate Gated(st: State, cfg: Config) {
    && (forall s :: s in st.resyncs ==> Unreadable(st, s))
    && (!cfg.enforce ==> st.resyncs == map[])
  }

  lemma RequestKeepsGate(st: State, cfg: Config, s: string, now: int, ready: bool)
    requires Gated(st, cfg)
    ensures Gated(RequestResync(st, cfg, s, now, ready), cfg)
  {
  }

  lemma KillKeepsGate(st: State, cfg: Config)
    requires Gated(st, cfg)
    ensures Gated(KillSocket(st, true).0, cfg)
  {
  }

  lemma MismatchKeepsGate(st: State, cfg: Config, s: string, b: Book, now: int, ready: bool)
    requires Gated(st, cfg)
    ensures Gated(OnMismatch(st, cfg, s, b, now, ready), cfg)
  {
    if cfg.enforce {
      var hidden := Hide(st, cfg, s, now);
      assert Gated(hidden, cfg);
      hide RequestResync, KillSocket, Hide, Gated;
      KillKeepsGate(hidden, cfg);
      RequestKeepsGate(hidden, cfg, s, now, ready);
    }
  }

  lemma EntryKeepsGate(st: State, cfg: Config, e: Entry, now: int, ready: bool)
    requires Gated(st, cfg)
    ensures Gated(ApplyEntry(st, cfg, e, now, ready), cfg)
  {
    hide OnMismatch, Snapshot, Update, Checksum;
    var s := e.symbol;
    match e.message
    case SnapshotMessage(bids, asks) =>
      var (b, ok) := Snapshot(EMPTY_BOOK, bids, asks, cfg.depth);
      MismatchKeepsGate(st, cfg, s, b, now, ready);
      MismatchKeepsGate(st.(books := st.books[s := b], resyncs := st.resyncs - {s}), cfg, s, b, now, ready);
    case UpdateMessage(bids, asks) =>
      if s in st.books {
        var (b, ok) := Update(st.books[s], bids, asks, cfg.depth);
        MismatchKeepsGate(st.(books := st.books[s := b]), cfg, s, b, now, ready);
      }
  }

  lemma {:induction false} CheckKeepsGate(st: State, cfg: Config, order: seq<string>, now: int, ready: bool)
    requires Gated(st, cfg)
    ensures Gated(CheckResyncs(st, cfg, order, now, ready), cfg)
    decreases |order|
  {
    hide RequestResync;
    if order != [] {
      RequestKeepsGate(st, cfg, order[0], now, ready);
      CheckKeepsGate(st, cfg, order[1..], now, ready);
      CheckKeepsGate(RequestResync(st, cfg, order[0], now, ready), cfg, order[1..], now, ready);
    }
  }

  lemma StepKeepsGate(st: State, cfg: Config, ev: Event)
    requires Gated(st, cfg)
    ensures Gated(Step(st, cfg, ev), cfg)
  {
    hide ApplyEntry, CheckResyncs;
    match ev
    case BookEntry(e, now, ready) => EntryKeepsGate(st, cfg, e, now, ready);
    case Watchdog(order, now, ready) => CheckKeepsGate(st, cfg, order, now, ready);
    case _ =>
  }

  /** In every reachable state the gate holds. */
  lemma {:induction false} RunKeepsGate(st: State, cfg: Config, evs: seq<Event>)
    requires Gated(st, cfg)
    ensures Gated(Run(st, cfg, evs), cfg)
    decreases |evs|
  {
    hide Step, Gated;
    if evs != [] {
      StepKeepsGate(st, cfg, evs[0]);
      RunKeepsGate(Step(st, cfg, evs[0]), cfg, evs[1..]);
    }
  }

  /** From the start of the process, after any events: with a resync open, neither the exact book
      nor a published snapshot of the symbol can be read. */
  lemma BadBookNeverReadable(cfg: Config, evs: seq<Event>, s: string)
    ensures var st := Run(INITIAL, cfg, evs);
      s in st.resyncs ==> s !in st.books && s !in st.published && cfg.enforce
  {
    hide Run;
    RunKeepsGate(INITIAL, cfg, evs);
  }

  /** A snapshot message for s. */
  predicate SnapshotFor(ev: Event, s: string) {
    ev.BookEntry? && ev.entry.symbol == s && ev.entry.message.SnapshotMessage?
  }

  lemma RequestKeepsUnreadable(st: State, cfg: Config, r: string, now: int, ready: bool, s: string)
    requires Unreadable(st, s)
    ensures Unreadable(RequestResync(st, cfg, r, now, ready), s)
  {
  }

  lemma {:induction false} CheckKeepsUnreadable(st: State, cfg: Config, order: seq<string>, now: int, ready: bool, s: string)
    requires Unreadable(st, s)
    ensures Unreadable(CheckResyncs(st, cfg, order, now, ready), s)
    decreases |order|
  {
    hide RequestResync;
    if order != [] {
      RequestKeepsUnreadable(st, cfg, order[0], now, ready, s);
      CheckKeepsUnreadable(st, cfg, order[1..], now, ready, s);
      CheckKeepsUnreadable(RequestResync(st, cfg, order[0], now, ready), cfg, order[1..], now, ready, s);
    }
  }

  lemma KillKeepsUnreadable(st: State, s: string)
    requires Unreadable(st, s)
    ensures Unreadable(KillSocket(st, true).0, s)
  {
  }

  lemma MismatchKeepsUnreadable(st: State, cfg: Config, r: string, b: Book, now: int, ready: bool, s: string)
    requires Unreadable(st, s) && r != s
    ensures Unreadable(OnMismatch(st, cfg, r, b, now, ready), s)
  {
    var hidden := Hide(st, cfg, r, now);
    assert Unreadable(hidden, s) && Unreadable(Publish(st, r, b), s);
    hide RequestResync, KillSocket, Hide, Publish, Unreadable;
    KillKeepsUnreadable(hidden, s);
    RequestKeepsUnreadable(hidden, cfg, r, now, ready, s);
  }

  lemma VerifyKeepsUnreadable(st: State, cfg: Config, e: Entry, b: Book, now: int, ready: bool, s: string)
    requires Unreadable(st, s) && e.symbol != s
    ensures Unreadable(Verify(st, cfg, e, b, now, ready), s)
  {
    hide OnMismatch, Checksum;
    MismatchKeepsUnreadable(st, cfg, e.symbol, b, now, ready, s);
  }

  lemma EntryKeepsUnreadable(st: State, cfg: Config, e: Entry, now: int, ready: bool, s: string)
    requires Unreadable(st, s) && !(e.symbol == s && e.message.SnapshotMessage?)
    ensures Unreadable(ApplyEntry(st, cfg, e, now, ready), s)
  {
    hide OnMismatch, Snapshot, Update, Checksum, Verify;
    var r := e.symbol;
    if r != s {
      match e.message
      case SnapshotMessage(bids, asks) =>
        var (b, ok) := Snapshot(EMPTY_BOOK, bids, asks, cfg.depth);
        MismatchKeepsUnreadable(st, cfg, r, b, now, ready, s);
        VerifyKeepsUnreadable(st.(books := st.books[r := b], resyncs := st.resyncs - {r}), cfg, e, b, now, ready, s);
      case UpdateMessage(bids, asks) =>
        if r in st.books {
          var (b, ok) := Update(st.books[r], bids, asks, cfg.depth);
          var taken := st.(books := st.books[r := b]);
          MismatchKeepsUnreadable(taken, cfg, r, b, now, ready, s);
          VerifyKeepsUnreadable(taken, cfg, e, b, now, ready, s);
        }
    }
  }

  lemma StepKeepsUnreadable(st: State, cfg: Config, ev: Event, s: string)
    requires Unreadable(st, s) && !SnapshotFor(ev, s)
    ensures Unreadable(Step(st, cfg, ev), s)
  {
    hide ApplyEntry, CheckResyncs;
    match ev
    case BookEntry(e, now, ready) => EntryKeepsUnreadable(st, cfg, e, now, ready, s);
    case Watchdog(order, now, ready) => CheckKeepsUnreadable(st, cfg, order, now, ready, s);
    case _ =>
  }

  /** Once unreadable, a symbol becomes readable only through a snapshot message for it: no update,
      resubscribe, watchdog pass, reconnect or restart brings its book back. */
  lemma {:induction false} UnreadableUntilSnapshot(st: State, cfg: Config, evs: seq<Event>, s: string)
    requires Unreadable(st, s) && forall ev :: ev in evs ==> !SnapshotFor(ev, s)
    ensures Unreadable(Run(st, cfg, evs), s)
    decreases |evs|
  {
    hide Step, Unreadable, SnapshotFor;
    if evs != [] {
      StepKeepsUnreadable(st, cfg, evs[0], s);
      UnreadableUntilSnapshot(Step(st, cfg, evs[0]), cfg, evs[1..], s);
    }
  }

  /** The book a message leaves its symbol with, and whether the message was well formed. */
  function Taken(st: State, cfg: Config, e: Entry): (Book, bool)
    requires e.message.SnapshotMessage? || e.symbol in st.books
  {
    match e.message
    case SnapshotMessage(bids, asks) => Snapshot(EMPTY_BOOK, bids, asks, cfg.depth)
    case UpdateMessage(bids, asks) => Update(st.books[e.symbol], bids, asks, cfg.depth)
  }

  lemma MismatchHides(st: State, cfg: Config, s: string, b: Book, now: int, ready: bool)
    requires cfg.enforce
    ensures Unreadable(OnMismatch(st, cfg, s, b, now, ready), s)
  {
    var hidden := Hide(st, cfg, s, now);
    assert Unreadable(hidden, s);
    KillKeepsUnreadable(hidden, s);
    RequestKeepsUnreadable(hidden, cfg, s, now, ready, s);
    hide RequestResync, KillSocket, Hide, Unreadable;
  }

  /** With enforcement, a checkable message that a symbol takes leaves it readable exactly when the
      message was well formed and our checksum is Kraken's; what is then read is that book. */
  lemma ReadableMeansVerified(st: State, cfg: Config, e: Entry, now: int, ready: bool)
    requires cfg.enforce && e.checksum.Some? && e.precision.Some?
    requires e.message.SnapshotMessage? || e.symbol in st.books
    ensures
      var after := ApplyEntry(st, cfg, e, now, ready);
      var (b, ok) := Taken(st, cfg, e);
      if ok && Checksum(b, e.precision.value) == e.checksum.value then
        e.symbol in after.books && e.symbol in after.published && after.published[e.symbol] == b == after.books[e.symbol]
      else Unreadable(after, e.symbol)
  {
    hide OnMismatch, Snapshot, Update, Checksum;
    var s := e.symbol;
    var (b, ok) := Taken(st, cfg, e);
    match e.message
    case SnapshotMessage(bids, asks) =>
      MismatchHides(st, cfg, s, b, now, ready);
      MismatchHides(st.(books := st.books[s := b], resyncs := st.resyncs - {s}), cfg, s, b, now, ready);
    case UpdateMessage(bids, asks) =>
      MismatchHides(st.(books := st.books[s := b]), cfg, s, b, now, ready);
  }

  // ---------- resubscribes are spaced ----------

  /** When each symbol was last resubscribed on the current socket, forgotten or not. */
  function LastEver(log: seq<LogEntry>): map<string, int> {
    if log == [] then map[]
    else
      var before := LastEver(log[..|log| - 1]);
      match log[|log| - 1]
      case Sent(s, at) => before[s := at]
      case Dropped => map[]
  }

  /** Every resubscribe comes at least so long after the symbol's one before it. */
  predicate Spaced(log: seq<LogEntry>, gapMs: int) {
    || log == []
    || (&& Spaced(log[..|log| - 1], gapMs)
        && match log[|log| - 1]
           case Sent(s, at) =>
             var before := LastEver(log[..|log| - 1]);
             s in before ==> at - before[s] >= gapMs
           case _ => true)
  }

  /** The time reached, and that of the last refresh. */
  datatype Clock = Clock(now: int, refreshed: Option<int>)

  function TimeOf(ev: Event): Option<int> {
    if ev.BookEntry? || ev.Watchdog? || ev.Refreshed? then Some(ev.at) else None
  }

  function Tick(k: Clock, ev: Event): Clock {
    Clock(TimeOf(ev).GetOr(k.now), if ev.Refreshed? then Some(ev.at) else k.refreshed)
  }

  /** Times do not go back, and refreshes are at least so far apart. */
  predicate Timely(k: Clock, evs: seq<Event>, refreshMs: int)
    decreases |evs|
  {
    evs == []
    || (k.now <= TimeOf(evs[0]).GetOr(k.now)
        && (evs[0].Refreshed? && k.refreshed.Some? ==> evs[0].at - k.refreshed.value >= refreshMs)
        && Timely(Tick(k, evs[0]), evs[1..], refreshMs))
  }

  function Least(a: int, b: int): int { if b < a then b else a }

  /** What is kept: the log is spaced; the tracker holds the last resubscribe of active symbols
      only; and a symbol whose resubscribe was forgotten is inactive since some refresh, or was
      put back by a later one. */
  ghost predicate PacedFields(log: seq<LogEntry>, lastSent: map<string, int>, active: set<string>, loaded: bool,
                              cooldownMs: int, refreshMs: int, k: Clock)
  {
    var ever := LastEver(log);
    && Spaced(log, Least(cooldownMs, refreshMs))
    && (forall s :: s in ever ==> ever[s] <= k.now)
    && (forall s :: s in lastSent ==> s in active && s in ever && ever[s] == lastSent[s])
    && (forall s :: s in ever && s !in lastSent ==>
          if s in active then k.now - ever[s] >= refreshMs else k.refreshed.Some? && ever[s] <= k.refreshed.value)
    && (!loaded ==> active == {} && ever == map[])
    && (k.refreshed.Some? ==> k.refreshed.value <= k.now)
  }

  ghost predicate Paced(st: State, cfg: Config, refreshMs: int, k: Clock) {
    PacedFields(st.log, st.lastSent, st.active, st.loaded, cfg.cooldownMs, refreshMs, k)
  }

  lemma LogSnoc(log: seq<LogEntry>, e: LogEntry)
    ensures (log + [e])[..|log|] == log && (log + [e])[|log|] == e
  {
  }

  lemma LaterIsPaced(st: State, cfg: Config, refreshMs: int, k: Clock, later: int)
    requires Paced(st, cfg, refreshMs, k) && k.now <= later
    ensures Paced(st, cfg, refreshMs, k.(now := later))
  {
    hide LastEver, Spaced;
  }

  lemma ResetKeepsPaced(st: State, cfg: Config, refreshMs: int, k: Clock)
    requires Paced(st, cfg, refreshMs, k)
    ensures Paced(ResetBooks(st), cfg, refreshMs, k)
  {
    LogSnoc(st.log, Dropped);
  }

  lemma RefreshKeepsPaced(st: State, cfg: Config, refreshMs: int, k: Clock, active: set<string>, at: int)
    requires Paced(st, cfg, refreshMs, k) && k.now <= at && (k.refreshed.Some? ==> at - k.refreshed.value >= refreshMs)
    ensures Paced(Refresh(st, active), cfg, refreshMs, Clock(at, Some(at)))
  {
    hide LastEver, Spaced;
  }

  lemma LoadKeepsPaced(st: State, cfg: Config, refreshMs: int, k: Clock, active: set<string>)
    requires Paced(st, cfg, refreshMs, k)
    ensures Paced(Load(st, active), cfg, refreshMs, k)
  {
    hide LastEver, Spaced;
  }

  /** A resubscribe of an active symbol is late enough, tracked or forgotten. */
  lemma SendKeepsPaced(st: State, cfg: Config, refreshMs: int, k: Clock, s: string)
    requires Paced(st, cfg, refreshMs, k) && s in st.active
    requires s in st.lastSent ==> k.now - st.lastSent[s] >= cfg.cooldownMs
    ensures Paced(st.(lastSent := st.lastSent[s := k.now], log := st.log + [Sent(s, k.now)]), cfg, refreshMs, k)
  {
    var more := st.log + [Sent(s, k.now)];
    LogSnoc(st.log, Sent(s, k.now));
    assert LastEver(more) == LastEver(st.log)[s := k.now];
    assert Spaced(more, Least(cfg.cooldownMs, refreshMs));
    hide LastEver, Spaced;
  }

  lemma RequestKeepsPaced(st: State, cfg: Config, s: string, ready: bool, refreshMs: int, k: Clock)
    requires Paced(st, cfg, refreshMs, k)
    ensures Paced(RequestResync(st, cfg, s, k.now, ready), cfg, refreshMs, k)
  {
    if s in st.active {
      if s in st.lastSent ==> k.now - st.lastSent[s] >= cfg.cooldownMs {
        SendKeepsPaced(st, cfg, refreshMs, k, s);
      }
    } else {
      assert s !in st.lastSent;
      assert st.lastSent - {s} == st.lastSent;
    }
    hide PacedFields;
  }

  lemma DropKeepsPaced(st: State, cfg: Config, id: nat, refreshMs: int, k: Clock)
    requires Paced(st, cfg, refreshMs, k)
    ensures Paced(DropSocket(st, id), cfg, refreshMs, k)
  {
    hide ResetBooks, PacedFields;
    ResetKeepsPaced(st.(socket := None, connected := false), cfg, refreshMs, k);
  }

  lemma KillKeepsPaced(st: State, cfg: Config, enabled: bool, refreshMs: int, k: Clock)
    requires Paced(st, cfg, refreshMs, k)
    ensures Paced(KillSocket(st, enabled).0, cfg, refreshMs, k)
  {
    hide DropSocket, PacedFields;
    if st.socket.Some? {
      DropKeepsPaced(st, cfg, st.socket.value, refreshMs, k);
    }
  }

  lemma MismatchKeepsPaced(st: State, cfg: Config, s: string, b: Book, ready: bool, refreshMs: int, k: Clock)
    requires Paced(st, cfg, refreshMs, k)
    ensures Paced(OnMismatch(st, cfg, s, b, k.now, ready), cfg, refreshMs, k)
  {
    hide PacedFields;
    var hidden := Hide(st, cfg, s, k.now);
    assert Paced(hidden, cfg, refreshMs, k);
    KillKeepsPaced(hidden, cfg, true, refreshMs, k);
    hide RequestResync, KillSocket, Hide;
    RequestKeepsPaced(hidden, cfg, s, ready, refreshMs, k);
  }

  lemma VerifyKeepsPaced(st: State, cfg: Config, e: Entry, b: Book, ready: bool, refreshMs: int, k: Clock)
    requires Paced(st, cfg, refreshMs, k)
    ensures Paced(Verify(st, cfg, e, b, k.now, ready), cfg, refreshMs, k)
  {
    hide OnMismatch, Checksum, PacedFields;
    MismatchKeepsPaced(st, cfg, e.symbol, b, ready, refreshMs, k);
  }

  lemma EntryKeepsPaced(st: State, cfg: Config, e: Entry, ready: bool, refreshMs: int, k: Clock)
    requires Paced(st, cfg, refreshMs, k)
    ensures Paced(ApplyEntry(st, cfg, e, k.now, ready), cfg, refreshMs, k)
  {
    hide OnMismatch, Verify, Snapshot, Update, PacedFields;
    var s := e.symbol;
    match e.message
    case SnapshotMessage(bids, asks) =>
      var (b, ok) := Snapshot(EMPTY_BOOK, bids, asks, cfg.depth);
      MismatchKeepsPaced(st, cfg, s, b, ready, refreshMs, k);
      VerifyKeepsPaced(st.(books := st.books[s := b], resyncs := st.resyncs - {s}), cfg, e, b, ready, refreshMs, k);
    case UpdateMessage(bids, asks) =>
      if s in st.books {
        var (b, ok) := Update(st.books[s], bids, asks, cfg.depth);
        MismatchKeepsPaced(st.(books := st.books[s := b]), cfg, s, b, ready, refreshMs, k);
        VerifyKeepsPaced(st.(books := st.books[s := b]), cfg, e, b, ready, refreshMs, k);
      }
  }

  lemma {:induction false} CheckKeepsPaced(st: State, cfg: Config, order: seq<string>, ready: bool, refreshMs: int, k: Clock)
    requires Paced(st, cfg, refreshMs, k)
    ensures Paced(CheckResyncs(st, cfg, order, k.now, ready), cfg, refreshMs, k)
    decreases |order|
  {
    hide RequestResync, KillSocket, PacedFields;
    if order != [] {
      RequestKeepsPaced(st, cfg, order[0], ready, refreshMs, k);
      CheckKeepsPaced(st, cfg, order[1..], ready, refreshMs, k);
      CheckKeepsPaced(RequestResync(st, cfg, order[0], k.now, ready), cfg, order[1..], ready, refreshMs, k);
      KillKeepsPaced(st, cfg, true, refreshMs, k);
    }
  }

  lemma StepKeepsPaced(st: State, cfg: Config, ev: Event, refreshMs: int, k: Clock)
    requires Paced(st, cfg, refreshMs, k) && Timely(k, [ev], refreshMs)
    ensures Paced(Step(st, cfg, ev), cfg, refreshMs, Tick(k, ev))
  {
    hide ApplyEntry, CheckResyncs, DropSocket, KillSocket, PacedFields, ResetBooks, Refresh, Load;
    var later := TimeOf(ev).GetOr(k.now);
    LaterIsPaced(st, cfg, refreshMs, k, later);
    var atNow := k.(now := later);
    match ev
    case StoppedFeed => ResetKeepsPaced(st.(stopped := true, connected := false, timer := false), cfg, refreshMs, k);
    case SocketEnded(id) => DropKeepsPaced(st, cfg, id, refreshMs, k);
    case Killed(enabled) => KillKeepsPaced(st, cfg, enabled, refreshMs, k);
    case BookEntry(e, now, ready) => EntryKeepsPaced(st, cfg, e, ready, refreshMs, atNow);
    case Watchdog(order, now, ready) =>
      if st.socket.Some? && st.connected {
        CheckKeepsPaced(st, cfg, order, ready, refreshMs, atNow);
      }
    case SymbolsLoaded(active) => LoadKeepsPaced(st, cfg, refreshMs, k, active);
    case Refreshed(active, at) => RefreshKeepsPaced(st, cfg, refreshMs, k, active, at);
    case _ =>
  }

  lemma {:induction false} RunKeepsPaced(st: State, cfg: Config, evs: seq<Event>, refreshMs: int, k: Clock) returns (end: Clock)
    requires Paced(st, cfg, refreshMs, k) && Timely(k, evs, refreshMs)
    ensures Paced(Run(st, cfg, evs), cfg, refreshMs, end)
    decreases |evs|
  {
    hide Step, Paced, Tick;
    if evs == [] {
      end := k;
    } else {
      assert Timely(k, [evs[0]], refreshMs) by {
        assert Timely(Tick(k, evs[0]), [], refreshMs);
        assert [evs[0]][1..] == [];
      }
      StepKeepsPaced(st, cfg, evs[0], refreshMs, k);
      end := RunKeepsPaced(Step(st, cfg, evs[0]), cfg, evs[1..], refreshMs, Tick(k, evs[0]));
    }
  }

  lemma RunIsSpaced(cfg: Config, evs: seq<Event>, refreshMs: int, from: int)
    requires Timely(Clock(from, None), evs, refreshMs)
    ensures Spaced(Run(INITIAL, cfg, evs).log, Least(cfg.cooldownMs, refreshMs))
  {
    hide Run, Timely;
    var end := RunKeepsPaced(INITIAL, cfg, evs, refreshMs, Clock(from, None));
  }

  /** The socket is not dropped between two log positions. */
  predicate OneSocket(log: seq<LogEntry>, i: nat, j: nat)
    requires i <= j <= |log|
  {
    forall k :: i <= k < j ==> !log[k].Dropped?
  }

  lemma {:induction false} LastEverAtLeast(log: seq<LogEntry>, gapMs: int, i: nat, s: string)
    requires gapMs >= 0 && Spaced(log, gapMs)
    requires i < |log| && log[i].Sent? && log[i].symbol == s && OneSocket(log, i, |log|)
    ensures s in LastEver(log) && LastEver(log)[s] >= log[i].at
    decreases |log|
  {
    var n := |log| - 1;
    if i < n {
      var init := log[..n];
      assert forall k :: 0 <= k < n ==> init[k] == log[k];
      LastEverAtLeast(init, gapMs, i, s);
      assert !log[n].Dropped?;
    }
  }

  lemma {:induction false} SpacedPrefix(log: seq<LogEntry>, gapMs: int, n: nat)
    requires Spaced(log, gapMs) && n <= |log|
    ensures Spaced(log[..n], gapMs)
    decreases |log|
  {
    if n < |log| {
      SpacedPrefix(log[..|log| - 1], gapMs, n);
      assert log[..|log| - 1][..n] == log[..n];
    } else {
      assert log[..n] == log;
    }
  }

  lemma SpacedPair(log: seq<LogEntry>, gapMs: int, s: string, i: nat, j: nat)
    requires gapMs >= 0 && Spaced(log, gapMs)
    requires i < j < |log| && log[i].Sent? && log[j].Sent? && log[i].symbol == log[j].symbol == s
    requires OneSocket(log, i, j)
    ensures log[j].at - log[i].at >= gapMs
  {
    SpacedPrefix(log, gapMs, j + 1);
    var upTo := log[..j + 1];
    var before := log[..j];
    assert upTo[..j] == before;
    assert Spaced(upTo, gapMs) && Spaced(before, gapMs);
    assert forall k :: 0 <= k < j ==> before[k] == log[k];
    LastEverAtLeast(before, gapMs, i, s);
  }

  /** In every run in time order, with symbol refreshes at least refreshMs apart, two resubscribes
      for one symbol on one connection are at least the cooldown or the refresh interval apart,
      whichever is less, however often the symbol is delisted and listed again in between. */
  lemma ResubscribesSpaced(cfg: Config, evs: seq<Event>, refreshMs: int, from: int, s: string, i: nat, j: nat)
    requires cfg.cooldownMs >= 0 && refreshMs >= 0 && Timely(Clock(from, None), evs, refreshMs)
    requires var log := Run(INITIAL, cfg, evs).log;
      && i < j < |log| && log[i].Sent? && log[j].Sent? && log[i].symbol == log[j].symbol == s
      && OneSocket(log, i, j)
    ensures var log := Run(INITIAL, cfg, evs).log;
      log[j].at - log[i].at >= Least(cfg.cooldownMs, refreshMs)
  {
    hide Run, OneSocket, Timely;
    RunIsSpaced(cfg, evs, refreshMs, from);
    SpacedPair(Run(INITIAL, cfg, evs).log, Least(cfg.cooldownMs, refreshMs), s, i, j);
  }

  // ---------- exactly when the cooldown is kept ----------

  /** A mismatch on an untracked active symbol resubscribes it at once. */
  lemma MismatchSends(st: State, cfg: Config, s: string, b: Book, now: int)
    requires cfg.enforce && cfg.massSymbols > 1 && st.recent == map[]
    requires st.socket.Some? && s in st.active && s !in st.lastSent
    ensures var after := OnMismatch(st, cfg, s, b, now, true);
      && after.log == st.log + [Sent(s, now)] && after.socket == st.socket && after.active == st.active
      && after.loaded == st.loaded && after.lastSent == st.lastSent[s := now] && after.recent.Keys <= {s}
  {
    var hidden := Hide(st, cfg, s, now);
    assert hidden.recent.Keys <= {s};
    if |hidden.recent| >= 2 {
      KeysAtMostOne(hidden.recent, s);
    }
  }

  lemma KeysAtMostOne(m: map<string, int>, s: string)
    requires m.Keys <= {s}
    ensures |m| <= 1
  {
    if s in m {
      assert m == map[s := m[s]];
    } else {
      assert m == map[];
    }
  }

  /** A snapshot whose one bid has no price and no quantity. */
  function Malformed(s: string): Entry {
    Entry(s, SnapshotMessage([RawLevel([], [])], []), None, None)
  }

  lemma MalformedMismatches(st: State, cfg: Config, s: string, now: int)
    ensures exists b :: ApplyEntry(st, cfg, Malformed(s), now, true) == OnMismatch(st, cfg, s, b, now, true)
  {
    var raw := [RawLevel([], [])];
    assert ParseLevel(raw[0]) == None && !ParseAll(raw).1;
    var (b, ok) := Snapshot(EMPTY_BOOK, raw, [], cfg.depth);
    assert !ok;
    hide OnMismatch, Snapshot;
    assert ApplyEntry(st, cfg, Malformed(s), now, true) == OnMismatch(st, cfg, s, b, now, true);
  }

  lemma MalformedSends(st: State, cfg: Config, s: string, now: int)
    requires cfg.enforce && cfg.massSymbols > 1 && st.recent == map[]
    requires st.socket.Some? && s in st.active && s !in st.lastSent
    ensures var after := Step(st, cfg, BookEntry(Malformed(s), now, true));
      && after.log == st.log + [Sent(s, now)] && after.socket == st.socket && after.active == st.active
      && after.loaded == st.loaded && after.lastSent == st.lastSent[s := now] && after.recent.Keys <= {s}
  {
    hide ApplyEntry, OnMismatch, Malformed;
    MalformedMismatches(st, cfg, s, now);
    var b :| ApplyEntry(st, cfg, Malformed(s), now, true) == OnMismatch(st, cfg, s, b, now, true);
    MismatchSends(st, cfg, s, b, now);
  }

  lemma {:induction false} RunSnoc(st: State, cfg: Config, evs: seq<Event>, ev: Event)
    ensures Run(st, cfg, evs + [ev]) == Step(Run(st, cfg, evs), cfg, ev)
    decreases |evs|
  {
    hide Step;
    if evs == [] {
      assert evs + [ev] == [ev] && [ev][1..] == [];
      assert Run(Step(st, cfg, ev), cfg, []) == Step(st, cfg, ev);
    } else {
      assert (evs + [ev])[1..] == evs[1..] + [ev];
      RunSnoc(Step(st, cfg, evs[0]), cfg, evs[1..], ev);
    }
  }

  /** A fresh feed with one symbol, up to its first mismatch. */
  function UpToSend(s: string, at: int): seq<Event> {
    [Started, SocketOpened(0), SymbolsLoaded({s}), BookEntry(Malformed(s), at, true)]
  }

  /** The symbol is delisted at once, and listed again by the next refresh, when it mismatches. */
  function Relisting(s: string, at: int, refreshMs: int): seq<Event> {
    UpToSend(s, at) + [Refreshed({}, at)] + [Refreshed({s}, at + refreshMs)]
    + [BookEntry(Malformed(s), at + refreshMs, true)]
  }

  lemma FirstSend(cfg: Config, s: string, at: int)
    requires cfg.enforce && cfg.massSymbols > 1
    ensures var st := Run(INITIAL, cfg, UpToSend(s, at));
      && st.log == [Sent(s, at)] && st.socket == Some(0) && st.active == {s} && st.loaded
      && st.lastSent == map[s := at] && st.recent.Keys <= {s}
  {
    var a := INITIAL.(socket := Some(0), sockets := 1);
    var b := a.(connected := true);
    var c := b.(active := {s}, loaded := true);
    assert Step(INITIAL, cfg, Started) == a && Step(a, cfg, SocketOpened(0)) == b && Step(b, cfg, SymbolsLoaded({s})) == c;
    var evs := UpToSend(s, at);
    MalformedSends(c, cfg, s, at);
    assert c.log + [Sent(s, at)] == [Sent(s, at)];
    hide Step, Malformed;
    var d := Step(c, cfg, evs[3]);
    assert Run(d, cfg, evs[4..]) == d;
    assert Run(c, cfg, evs[3..]) == d;
    assert Run(b, cfg, evs[2..]) == d;
    assert Run(a, cfg, evs[1..]) == d;
  }

  /** From the start of the process, a symbol delisted by one refresh and listed by the next is
      resubscribed twice exactly the refresh interval apart, however long the cooldown. */
  lemma RelistingSkipsCooldown(cfg: Config, s: string, at: int, refreshMs: int)
    requires cfg.enforce && cfg.massSymbols > 1 && refreshMs >= 0
    ensures Timely(Clock(at, None), Relisting(s, at, refreshMs), refreshMs)
    ensures Run(INITIAL, cfg, Relisting(s, at, refreshMs)).log == [Sent(s, at), Sent(s, at + refreshMs)]
  {
    hide Run, Step, Timely, UpToSend, Malformed;
    var one, two := UpToSend(s, at) + [Refreshed({}, at)], UpToSend(s, at) + [Refreshed({}, at)] + [Refreshed({s}, at + refreshMs)];
    FirstSend(cfg, s, at);
    RunSnoc(INITIAL, cfg, UpToSend(s, at), Refreshed({}, at));
    RunSnoc(INITIAL, cfg, one, Refreshed({s}, at + refreshMs));
    RunSnoc(INITIAL, cfg, two, BookEntry(Malformed(s), at + refreshMs, true));
    RelistingIsTimely(s, at, refreshMs);
    var first := Run(INITIAL, cfg, UpToSend(s, at));
    RelistedIsUntracked(first, cfg, s, at, at + refreshMs);
    MalformedSends(Run(INITIAL, cfg, two), cfg, s, at + refreshMs);
    assert [Sent(s, at)] + [Sent(s, at + refreshMs)] == [Sent(s, at), Sent(s, at + refreshMs)];
  }

  /** Two refreshes, the symbol gone and back, leave no trace of its resubscribe. */
  lemma RelistedIsUntracked(st: State, cfg: Config, s: string, gone: int, back: int)
    requires st.active == {s} && st.lastSent.Keys <= {s} && st.recent.Keys <= {s}
    ensures var after := Step(Step(st, cfg, Refreshed({}, gone)), cfg, Refreshed({s}, back));
      && after.lastSent == map[] && after.recent == map[] && after.active == {s}
      && after.log == st.log && after.socket == st.socket && after.loaded
  {
    assert {s} - {} == {s};
    assert st.lastSent - {s} == map[] && st.recent - {s} == map[];
  }

  lemma RelistingIsTimely(s: string, at: int, refreshMs: int)
    requires refreshMs >= 0
    ensures Timely(Clock(at, None), Relisting(s, at, refreshMs), refreshMs)
  {
    hide Malformed;
    var e, f := BookEntry(Malformed(s), at, true), BookEntry(Malformed(s), at + refreshMs, true);
    var evs := [Started, SocketOpened(0), SymbolsLoaded({s}), e, Refreshed({}, at), Refreshed({s}, at + refreshMs), f];
    assert Relisting(s, at, refreshMs) == evs;
    var k, k1, k2 := Clock(at, None), Clock(at, Some(at)), Clock(at + refreshMs, Some(at + refreshMs));
    assert Timely(k2, evs[7..], refreshMs);
    assert Timely(k2, evs[6..], refreshMs);
    assert Timely(k1, evs[5..], refreshMs);
    assert Timely(k, evs[4..], refreshMs);
    assert Timely(k, evs[3..], refreshMs);
    assert Timely(k, evs[2..], refreshMs);
    assert Timely(k, evs[1..], refreshMs);
  }

  /** Every run keeps the cooldown between resubscribes on one connection exactly when the cooldown
      is no longer than the time between symbol refreshes. */
  lemma CooldownKeptIff(cfg: Config, refreshMs: int)
    requires cfg.enforce && cfg.massSymbols > 1 && refreshMs >= 0
    ensures (forall evs, from :: Timely(Clock(from, None), evs, refreshMs) ==> Spaced(Run(INITIAL, cfg, evs).log, cfg.cooldownMs))
      <==> cfg.cooldownMs <= refreshMs
  {
    hide Run, Timely;
    if cfg.cooldownMs <= refreshMs {
      forall evs, from | Timely(Clock(from, None), evs, refreshMs)
        ensures Spaced(Run(INITIAL, cfg, evs).log, cfg.cooldownMs)
      {
        RunIsSpaced(cfg, evs, refreshMs, from);
      }
    } else {
      RelistingSkipsCooldown(cfg, "s", 0, refreshMs);
      var evs := Relisting("s", 0, refreshMs);
      assert Timely(Clock(0, None), evs, refreshMs);
      TwoSends("s", 0, refreshMs, cfg.cooldownMs);
      assert !Spaced(Run(INITIAL, cfg, evs).log, cfg.cooldownMs);
    }
  }

  lemma TwoSends(s: string, at: int, gapMs: int, cooldownMs: int)
    requires gapMs < cooldownMs
    ensures !Spaced([Sent(s, at), Sent(s, at + gapMs)], cooldownMs)
  {
    var log := [Sent(s, at), Sent(s, at + gapMs)];
    assert log[..1] == [Sent(s, at)] && log[..1][..0] == [];
    assert LastEver(log[..1]) == map[s := at];
  }

  // ---------- what is readable was verified ----------

  /** The last book message of each symbol. */
  function Lasts(m: map<string, Entry>, evs: seq<Event>): map<string, Entry>
    decreases |evs|
  {
    if evs == [] then m else Lasts(Noted(m, evs[0]), evs[1..])
  }

  function Noted(m: map<string, Entry>, ev: Event): map<string, Entry> {
    if ev.BookEntry? then m[ev.entry.symbol := ev.entry] else m
  }

  /** Every message carries a checksum, for a pair whose precision is known. */
  predicate Checkable(evs: seq<Event>) {
    forall ev :: ev in evs && ev.BookEntry? ==> ev.entry.checksum.Some? && ev.entry.precision.Some?
  }

  predicate Matches(b: Book, e: Entry) {
    e.checksum.Some? && e.precision.Some? && Checksum(b, e.precision.value) == e.checksum.value
  }

  /** Every exact book is the published one and has the checksum of its symbol's last message. */
  ghost predicate Verified(st: State, m: map<string, Entry>) {
    forall s :: s in st.books ==>
      s in m && Matches(st.books[s], m[s]) && s in st.published && st.published[s] == st.books[s]
  }

  /** A step that takes books away keeps this. */
  ghost predicate Fewer(st: State, after: State) {
    forall s :: s in after.books ==>
      s in st.books && after.books[s] == st.books[s] && (s in after.published <==> s in st.published)
      && (s in st.published ==> after.published[s] == st.published[s])
  }

  lemma FewerKeepsVerified(st: State, after: State, m: map<string, Entry>)
    requires Verified(st, m) && Fewer(st, after)
    ensures Verified(after, m)
  {
    hide Matches;
  }

  lemma FewerTwice(a: State, b: State, c: State)
    requires Fewer(a, b) && Fewer(b, c)
    ensures Fewer(a, c)
  {
  }

  lemma RequestTakesAway(st: State, cfg: Config, s: string, now: int, ready: bool)
    ensures Fewer(st, RequestResync(st, cfg, s, now, ready))
  {
  }

  lemma KillTakesAway(st: State, enabled: bool)
    ensures Fewer(st, KillSocket(st, enabled).0)
  {
  }

  lemma {:induction false} CheckTakesAway(st: State, cfg: Config, order: seq<string>, now: int, ready: bool)
    ensures Fewer(st, CheckResyncs(st, cfg, order, now, ready))
    decreases |order|
  {
    hide RequestResync, KillSocket;
    if order != [] {
      var next := RequestResync(st, cfg, order[0], now, ready);
      RequestTakesAway(st, cfg, order[0], now, ready);
      KillTakesAway(st, true);
      CheckTakesAway(st, cfg, order[1..], now, ready);
      CheckTakesAway(next, cfg, order[1..], now, ready);
      hide Fewer;
      FewerTwice(st, next, CheckResyncs(next, cfg, order[1..], now, ready));
    }
  }

  lemma OthersStay(st: State, cfg: Config, s: string, b: Book, now: int, ready: bool)
    requires cfg.enforce
    ensures var after := OnMismatch(st, cfg, s, b, now, ready);
      s !in after.books && Fewer(st, after)
  {
    var hidden := Hide(st, cfg, s, now);
    assert Fewer(st, hidden) && s !in hidden.books;
    KillTakesAway(hidden, true);
    RequestTakesAway(hidden, cfg, s, now, ready);
    FewerTwice(st, hidden, KillSocket(hidden, true).0);
    FewerTwice(st, hidden, RequestResync(hidden, cfg, s, now, ready));
    hide RequestResync, KillSocket, Hide;
  }

  lemma MatchedKeepsVerified(st: State, taken: State, e: Entry, b: Book, m: map<string, Entry>)
    requires Verified(st, m) && Matches(b, e)
    requires taken.books == st.books[e.symbol := b] && taken.published == st.published
    ensures Verified(Publish(taken, e.symbol, b), m[e.symbol := e])
  {
    hide Matches;
  }

  lemma HiddenKeepsVerified(st: State, taken: State, after: State, e: Entry, b: Book, m: map<string, Entry>)
    requires Verified(st, m) && Fewer(taken, after) && e.symbol !in after.books
    requires taken.books == st.books[e.symbol := b] && taken.published == st.published
    ensures Verified(after, m[e.symbol := e])
  {
    hide Matches;
  }

  /** The state once the message's book has been taken in, before it is checked. */
  lemma TakenKeepsOthers(st: State, cfg: Config, e: Entry, taken: State, b: Book, ready: bool, now: int, m: map<string, Entry>)
    requires cfg.enforce && Verified(st, m) && e.checksum.Some? && e.precision.Some?
    requires taken.books == st.books[e.symbol := b] && taken.published == st.published
    ensures Verified(Verify(taken, cfg, e, b, now, ready), m[e.symbol := e])
  {
    assert Verify(taken, cfg, e, b, now, ready)
      == if Matches(b, e) then Publish(taken, e.symbol, b) else OnMismatch(taken, cfg, e.symbol, b, now, ready) by {
      hide Checksum, OnMismatch, Publish;
    }
    hide Verify, Checksum, OnMismatch, Matches, Publish, Verified, Fewer;
    if Matches(b, e) {
      MatchedKeepsVerified(st, taken, e, b, m);
    } else {
      OthersStay(taken, cfg, e.symbol, b, now, ready);
      HiddenKeepsVerified(st, taken, OnMismatch(taken, cfg, e.symbol, b, now, ready), e, b, m);
    }
  }

  lemma EntryKeepsVerified(st: State, cfg: Config, e: Entry, now: int, ready: bool, m: map<string, Entry>)
    requires cfg.enforce && Verified(st, m) && e.checksum.Some? && e.precision.Some?
    ensures Verified(ApplyEntry(st, cfg, e, now, ready), m[e.symbol := e])
  {
    hide OnMismatch, Verify, Snapshot, Update, Checksum, Matches;
    var s := e.symbol;
    match e.message
    case SnapshotMessage(bids, asks) =>
      var (b, ok) := Snapshot(EMPTY_BOOK, bids, asks, cfg.depth);
      OthersStay(st, cfg, s, b, now, ready);
      TakenKeepsOthers(st, cfg, e, st.(books := st.books[s := b], resyncs := st.resyncs - {s}), b, ready, now, m);
    case UpdateMessage(bids, asks) =>
      if s in st.books {
        var (b, ok) := Update(st.books[s], bids, asks, cfg.depth);
        var taken := st.(books := st.books[s := b]);
        OthersStay(taken, cfg, s, b, now, ready);
        TakenKeepsOthers(st, cfg, e, taken, b, ready, now, m);
      }
  }

  lemma StepKeepsVerified(st: State, cfg: Config, ev: Event, m: map<string, Entry>)
    requires cfg.enforce && Verified(st, m) && Checkable([ev])
    ensures Verified(Step(st, cfg, ev), Noted(m, ev))
  {
    hide ApplyEntry, CheckResyncs, Matches;
    match ev
    case BookEntry(e, now, ready) =>
      assert ev in [ev];
      EntryKeepsVerified(st, cfg, e, now, ready, m);
    case Watchdog(order, now, ready) =>
      CheckTakesAway(st, cfg, order, now, ready);
      FewerKeepsVerified(st, CheckResyncs(st, cfg, order, now, ready), m);
    case _ =>
  }

  lemma {:induction false} RunKeepsVerified(st: State, cfg: Config, evs: seq<Event>, m: map<string, Entry>)
    requires cfg.enforce && Verified(st, m) && Checkable(evs)
    ensures Verified(Run(st, cfg, evs), Lasts(m, evs))
    decreases |evs|
  {
    hide Step, Verified;
    if evs != [] {
      assert evs[0] in evs && forall ev :: ev in [evs[0]] ==> ev == evs[0];
      StepKeepsVerified(st, cfg, evs[0], m);
      RunKeepsVerified(Step(st, cfg, evs[0]), cfg, evs[1..], Noted(m, evs[0]));
    }
  }

  /** With enforcement and checkable messages, after every run from the start of the process: an
      exact book that is there is the one published, and has the checksum its symbol's last
      message carried. */
  lemma EveryBookIsVerified(cfg: Config, evs: seq<Event>, s: string)
    requires cfg.enforce && Checkable(evs) && s in Run(INITIAL, cfg, evs).books
    ensures var st, last := Run(INITIAL, cfg, evs), Lasts(map[], evs);
      && s in last && last[s].checksum.Some? && last[s].precision.Some?
      && Checksum(st.books[s], last[s].precision.value) == last[s].checksum.value
      && s in st.published && st.published[s] == st.books[s]
  {
    hide Run, Lasts, Checksum;
    RunKeepsVerified(INITIAL, cfg, evs, map[]);
  }

  // ---------- no resync outlives its timeout ----------

  /** The resync of s, if one is sent, is not older than the timeout. */
  predicate InTime(st: State, cfg: Config, s: string, now: int) {
    s in st.resyncs && st.resyncs[s].Some? ==> now - st.resyncs[s].value <= cfg.timeoutMs
  }

  lemma RequestKeepsInTime(st: State, cfg: Config, r: string, now: int, ready: bool, s: string)
    requires cfg.timeoutMs >= 0 && InTime(st, cfg, s, now)
    ensures InTime(RequestResync(st, cfg, r, now, ready), cfg, s, now)
  {
  }

  lemma {:induction false} CheckKeepsInTime(st: State, cfg: Config, order: seq<string>, now: int, ready: bool, s: string)
    requires cfg.timeoutMs >= 0 && InTime(st, cfg, s, now)
    ensures var after := CheckResyncs(st, cfg, order, now, ready);
      after.socket.None? || InTime(after, cfg, s, now)
    decreases |order|
  {
    hide RequestResync;
    if order != [] {
      RequestKeepsInTime(st, cfg, order[0], now, ready, s);
      CheckKeepsInTime(st, cfg, order[1..], now, ready, s);
      CheckKeepsInTime(RequestResync(st, cfg, order[0], now, ready), cfg, order[1..], now, ready, s);
    }
  }

  lemma KillDropsSocket(st: State)
    ensures KillSocket(st, true).1 == st.socket.Some? && KillSocket(st, true).0.socket.None?
  {
  }

  lemma FirstTimesOut(st: State, cfg: Config, order: seq<string>, now: int, ready: bool)
    requires cfg.timeoutMs >= 0 && order != []
    ensures var after := CheckResyncs(st, cfg, order, now, ready);
      after.socket.None? || InTime(after, cfg, order[0], now)
  {
    hide RequestResync, KillSocket;
    var s := order[0];
    if InTime(st, cfg, s, now) {
      CheckKeepsInTime(st, cfg, order, now, ready, s);
    } else if st.socket.Some? {
      KillDropsSocket(st);
    } else {
      CheckSendsNothing(st, cfg, order, now, ready);
    }
  }

  lemma {:induction false} CheckTimesOut(st: State, cfg: Config, order: seq<string>, now: int, ready: bool, s: string)
    requires cfg.timeoutMs >= 0 && s in order
    ensures var after := CheckResyncs(st, cfg, order, now, ready);
      after.socket.None? || InTime(after, cfg, s, now)
    decreases |order|
  {
    hide RequestResync, KillSocket, InTime;
    if order[0] == s {
      FirstTimesOut(st, cfg, order, now, ready);
    } else {
      assert s in order[1..];
      CheckTimesOut(st, cfg, order[1..], now, ready, s);
      CheckTimesOut(RequestResync(st, cfg, order[0], now, ready), cfg, order[1..], now, ready, s);
      KillDropsSocket(st);
    }
  }

  /** Without a socket the pass does nothing. */
  lemma {:induction false} CheckSendsNothing(st: State, cfg: Config, order: seq<string>, now: int, ready: bool)
    requires st.socket.None?
    ensures CheckResyncs(st, cfg, order, now, ready) == st
    decreases |order|
  {
    if order != [] {
      CheckSendsNothing(st, cfg, order[1..], now, ready);
    }
  }

  lemma AbsentIsInTime(st: State, cfg: Config, s: string, now: int)
    requires s !in st.resyncs
    ensures InTime(st, cfg, s, now)
  {
  }

  /** After a watchdog pass over every open resync, either the socket is gone or no sent resync is
      older than the timeout. */
  lemma WatchdogEnforcesTimeout(st: State, cfg: Config, order: seq<string>, now: int, ready: bool)
    requires cfg.timeoutMs >= 0 && st.connected
    requires forall s :: s in st.resyncs ==> s in order
    ensures var after := WatchdogPass(st, cfg, order, now, ready);
      after.socket.None? || forall s :: InTime(after, cfg, s, now)
  {
    hide CheckResyncs, InTime;
    var after := WatchdogPass(st, cfg, order, now, ready);
    if st.socket.Some? {
      forall s ensures after.socket.None? || InTime(after, cfg, s, now) {
        if s in order {
          CheckTimesOut(st, cfg, order, now, ready, s);
        } else {
          AbsentIsInTime(st, cfg, s, now);
          CheckKeepsInTime(st, cfg, order, now, ready, s);
        }
      }
    }
  }

  // ---------- one connection at a time ----------

  /** Whether the feed is between a start and a stop. */
  function Running(was: bool, ev: Event): bool { if ev.Started? then true else !ev.StoppedFeed? && was }

  /** Between start and stop there is the current socket or a pending reconnect, and not both;
      otherwise neither.  The current socket is one that was created. */
  predicate OneConnection(st: State, running: bool) {
    && st.socket.Some? == (running && !st.timer)
    && (st.timer ==> running)
    && (running ==> !st.stopped)
    && (st.socket.Some? ==> st.socket.value < st.sockets)
  }

  lemma ForgetKeepsConnection(st: State, s: string)
    ensures SameConnection(st, Forget(st, s))
  {
  }

  lemma RequestKeepsConnection(st: State, cfg: Config, s: string, now: int, ready: bool)
    ensures SameConnection(st, RequestResync(st, cfg, s, now, ready))
  {
    hide Forget;
    ForgetKeepsConnection(st, s);
  }

  predicate SameConnection(a: State, b: State) {
    a.socket == b.socket && a.timer == b.timer && a.stopped == b.stopped && a.sockets == b.sockets
  }

  lemma MismatchKeepsOne(st: State, cfg: Config, s: string, b: Book, now: int, ready: bool, running: bool)
    requires OneConnection(st, running)
    ensures OneConnection(OnMismatch(st, cfg, s, b, now, ready), running)
  {
    hide RequestResync;
    RequestKeepsConnection(Hide(st, cfg, s, now), cfg, s, now, ready);
  }

  lemma EntryKeepsOne(st: State, cfg: Config, e: Entry, now: int, ready: bool, running: bool)
    requires OneConnection(st, running)
    ensures OneConnection(ApplyEntry(st, cfg, e, now, ready), running)
  {
    hide OnMismatch, Snapshot, Update, Checksum;
    var s := e.symbol;
    match e.message
    case SnapshotMessage(bids, asks) =>
      var (b, ok) := Snapshot(EMPTY_BOOK, bids, asks, cfg.depth);
      MismatchKeepsOne(st, cfg, s, b, now, ready, running);
      MismatchKeepsOne(st.(books := st.books[s := b], resyncs := st.resyncs - {s}), cfg, s, b, now, ready, running);
    case UpdateMessage(bids, asks) =>
      if s in st.books {
        var (b, ok) := Update(st.books[s], bids, asks, cfg.depth);
        MismatchKeepsOne(st.(books := st.books[s := b]), cfg, s, b, now, ready, running);
      }
  }

  lemma {:induction false} CheckKeepsOne(st: State, cfg: Config, order: seq<string>, now: int, ready: bool, running: bool)
    requires OneConnection(st, running)
    ensures OneConnection(CheckResyncs(st, cfg, order, now, ready), running)
    decreases |order|
  {
    hide RequestResync;
    if order != [] {
      RequestKeepsConnection(st, cfg, order[0], now, ready);
      CheckKeepsOne(st, cfg, order[1..], now, ready, running);
      CheckKeepsOne(RequestResync(st, cfg, order[0], now, ready), cfg, order[1..], now, ready, running);
    }
  }

  /** Every event keeps it, late events of old sockets included, if a running feed is not started
      a second time. */
  lemma StepKeepsOne(st: State, cfg: Config, ev: Event, running: bool)
    requires OneConnection(st, running) && !(running && ev.Started?)
    ensures OneConnection(Step(st, cfg, ev), Running(running, ev))
  {
    hide ApplyEntry, CheckResyncs;
    match ev
    case BookEntry(e, now, ready) => EntryKeepsOne(st, cfg, e, now, ready, running);
    case Watchdog(order, now, ready) => CheckKeepsOne(st, cfg, order, now, ready, running);
    case _ =>
  }

  /** Starting a feed that runs always leaves two: the socket it had is lost, or its timer stays. */
  lemma SecondStartBreaksOne(st: State, cfg: Config)
    requires OneConnection(st, true)
    ensures var after := Step(st, cfg, Started);
      if st.timer then after.timer && after.socket.Some? else st.socket.Some? && after.socket.Some? && after.socket != st.socket
  {
  }

  function RunningAfter(was: bool, evs: seq<Event>): bool
    decreases |evs|
  {
    if evs == [] then was else RunningAfter(Running(was, evs[0]), evs[1..])
  }

  /** No start while running. */
  predicate StartsOnce(was: bool, evs: seq<Event>)
    decreases |evs|
  {
    evs == [] || (!(was && evs[0].Started?) && StartsOnce(Running(was, evs[0]), evs[1..]))
  }

  lemma {:induction false} RunKeepsOne(st: State, cfg: Config, evs: seq<Event>, running: bool)
    requires OneConnection(st, running) && StartsOnce(running, evs)
    ensures OneConnection(Run(st, cfg, evs), RunningAfter(running, evs))
    decreases |evs|
  {
    hide Step, OneConnection, Running;
    if evs != [] {
      StepKeepsOne(st, cfg, evs[0], running);
      RunKeepsOne(Step(st, cfg, evs[0]), cfg, evs[1..], Running(running, evs[0]));
    }
  }

  /** From the start of the process: between start and stop exactly one of current socket and
      pending reconnect, outside neither, as long as no running feed is started again. */
  lemma AlwaysOneConnection(cfg: Config, evs: seq<Event>)
    requires StartsOnce(false, evs)
    ensures var st := Run(INITIAL, cfg, evs);
      if RunningAfter(false, evs) then st.socket.Some? != st.timer else st.socket.None? && !st.timer
  {
    hide Run, RunningAfter, StartsOnce;
    RunKeepsOne(INITIAL, cfg, evs, false);
  }

  // ---------- what a mismatch leads to ----------

  /** The symbols that failed within the window, `s` just now. */
  function Failing(recent: map<string, int>, cfg: Config, s: string, now: int): set<string> {
    set r | r in recent.Keys + {s} && (if r == s then 0 else now - recent[r]) <= cfg.massWindowMs
  }

  /** The cooldown of `s` is over, or it was never resubscribed on this socket. */
  predicate MayResubscribe(st: State, cfg: Config, s: string, now: int) {
    s !in st.lastSent || now - st.lastSent[s] >= cfg.cooldownMs
  }

  /** The book of `s` is gone and its resync open, left to the watchdog. */
  predicate HeldBack(before: State, after: State, s: string) {
    && after.socket == before.socket && after.connected == before.connected && after.timer == before.timer
    && after.books == before.books - {s} && after.resyncs == before.resyncs[s := None]
    && after.lastSent == before.lastSent && after.log == before.log
  }

  /** The book of `s` is gone and its resubscribe sent now. */
  predicate Resubscribed(before: State, after: State, s: string, now: int) {
    && after.socket == before.socket && after.connected == before.connected && after.timer == before.timer
    && after.books == before.books - {s} && after.resyncs == before.resyncs[s := Some(now)]
    && after.lastSent == before.lastSent[s := now] && after.log == before.log + [Sent(s, now)]
  }

  /** The book of `s`, which is no longer subscribed, is gone, and so is all else about it. */
  predicate GivenUp(before: State, after: State, s: string) {
    && after.socket == before.socket && after.connected == before.connected && after.timer == before.timer
    && after.books == before.books - {s} && after.resyncs == before.resyncs - {s}
    && after.lastSent == before.lastSent - {s} && after.log == before.log
  }

  predicate BookTaken(before: State, after: State, cfg: Config, s: string, now: int, ready: bool) {
    if before.socket.None? || !ready || !MayResubscribe(before, cfg, s, now) then HeldBack(before, after, s)
    else if s in before.active then Resubscribed(before, after, s, now)
    else GivenUp(before, after, s)
  }

  /** The socket is dropped with every book and resync; a reconnect is due unless stopped. */
  predicate SocketDropped(before: State, after: State) {
    && after.socket.None? && !after.connected && after.timer == (before.timer || !before.stopped)
    && after.books == map[] && after.resyncs == map[] && after.lastSent == map[] && after.recent == map[]
    && after.log == before.log + [Dropped]
  }

  /** A mismatch of `s` takes this state to that. */
  predicate MismatchLeads(before: State, after: State, cfg: Config, s: string, b: Book, now: int, ready: bool) {
    if !cfg.enforce then after == before.(published := before.published[s := b])
    else
      && after.published == before.published - {s} && after.active == before.active && after.stopped == before.stopped
      && if |Failing(before.recent, cfg, s, now)| < cfg.massSymbols then BookTaken(before, after, cfg, s, now, ready)
         else if before.socket.Some? then SocketDropped(before, after)
         else BookTaken(before, after, cfg, s, now, false)
  }

  lemma FailingAreRecent(recent: map<string, int>, cfg: Config, s: string, now: int)
    ensures |Recent(recent[s := now], cfg, now)| == |Failing(recent, cfg, s, now)|
  {
    assert Recent(recent[s := now], cfg, now).Keys == Failing(recent, cfg, s, now);
  }

  /** The resubscribe of `s` is sent. */
  function SendResync(st: State, s: string, now: int): State {
    st.(resyncs := st.resyncs[s := Some(now)], lastSent := st.lastSent[s := now], log := st.log + [Sent(s, now)])
  }

  /** When a request does nothing. */
  predicate Blocked(st: State, cfg: Config, s: string, now: int, ready: bool) {
    s !in st.resyncs || st.resyncs[s].Some? || st.socket.None? || !ready || !MayResubscribe(st, cfg, s, now)
  }

  lemma RequestIs(st: State, cfg: Config, s: string, now: int, ready: bool)
    ensures RequestResync(st, cfg, s, now, ready)
      == if Blocked(st, cfg, s, now, ready) then st else if s in st.active then SendResync(st, s, now) else Forget(st, s)
  {
    hide Forget;
  }

  lemma BookHidden(before: State, cfg: Config, s: string, now: int)
    ensures var hidden := Hide(before, cfg, s, now);
      && HeldBack(before, hidden, s) && hidden.active == before.active
      && Resubscribed(before, SendResync(hidden, s, now), s, now)
      && GivenUp(before, Forget(hidden, s), s)
  {
    hide Recent;
    var hidden := Hide(before, cfg, s, now);
    assert hidden.books - {s} == before.books - {s};
    assert hidden.resyncs - {s} == before.resyncs - {s};
    assert hidden.resyncs[s := Some(now)] == before.resyncs[s := Some(now)];
  }

  lemma RequestTakes(before: State, cfg: Config, s: string, now: int, ready: bool)
    ensures BookTaken(before, RequestResync(Hide(before, cfg, s, now), cfg, s, now, ready), cfg, s, now, ready)
    ensures BookTaken(before, Hide(before, cfg, s, now), cfg, s, now, false)
  {
    var hidden := Hide(before, cfg, s, now);
    BookHidden(before, cfg, s, now);
    RequestIs(hidden, cfg, s, now, ready);
    BlockedWhen(before, hidden, cfg, s, now, ready);
    hide Hide, RequestResync, Blocked, MayResubscribe, HeldBack, Resubscribed, GivenUp;
  }

  lemma BlockedWhen(before: State, hidden: State, cfg: Config, s: string, now: int, ready: bool)
    requires HeldBack(before, hidden, s)
    ensures Blocked(hidden, cfg, s, now, ready) <==> before.socket.None? || !ready || !MayResubscribe(before, cfg, s, now)
  {
  }

  lemma RequestKeepsPublished(st: State, cfg: Config, s: string, now: int, ready: bool)
    ensures var after := RequestResync(st, cfg, s, now, ready);
      after.published == st.published && after.active == st.active && after.stopped == st.stopped
  {
  }

  lemma KillDrops(before: State, cfg: Config, s: string, now: int)
    ensures var hidden := Hide(before, cfg, s, now);
      var after := KillSocket(hidden, true).0;
      && (before.socket.Some? ==> SocketDropped(before, after))
      && (before.socket.None? ==> after == hidden)
      && after.published == hidden.published && after.active == before.active && after.stopped == before.stopped
  {
  }

  /** In every state: what a mismatch hides, when it drops the socket, when it resubscribes. */
  lemma MismatchOutcome(st: State, cfg: Config, s: string, b: Book, now: int, ready: bool)
    ensures MismatchLeads(st, OnMismatch(st, cfg, s, b, now, ready), cfg, s, b, now, ready)
  {
    FailingAreRecent(st.recent, cfg, s, now);
    RequestTakes(st, cfg, s, now, ready);
    RequestKeepsPublished(Hide(st, cfg, s, now), cfg, s, now, ready);
    KillDrops(st, cfg, s, now);
    hide RequestResync, KillSocket, BookTaken, SocketDropped, Failing, Recent;
  }

  /** The resync of `s` is open and nothing stands in the way of sending it. */
  predicate Sendable(st: State, cfg: Config, s: string, now: int) {
    && st.socket.Some? && s in st.active && s in st.resyncs
    && if st.resyncs[s].None? then MayResubscribe(st, cfg, s, now) else WasSent(st, s, now)
  }

  predicate WasSent(st: State, s: string, now: int) {
    s in st.resyncs && st.resyncs[s] == Some(now) && Sent(s, now) in st.log
  }

  lemma RequestSends(st: State, cfg: Config, s: string, now: int)
    requires Sendable(st, cfg, s, now)
    ensures var after := RequestResync(st, cfg, s, now, true); Sendable(after, cfg, s, now) && WasSent(after, s, now)
  {
    RequestIs(st, cfg, s, now, true);
    hide RequestResync;
  }

  lemma OthersStaySendable(st: State, cfg: Config, r: string, now: int, s: string)
    requires Sendable(st, cfg, s, now) && r != s
    ensures var after := RequestResync(st, cfg, r, now, true);
      Sendable(after, cfg, s, now) && (WasSent(st, s, now) ==> WasSent(after, s, now))
  {
    RequestIs(st, cfg, r, now, true);
    hide RequestResync, Blocked;
    SendKeepsOthers(st, cfg, r, now, s);
    ForgetKeepsOthers(st, cfg, r, now, s);
    hide Sendable, WasSent, SendResync, Forget;
  }

  lemma SendKeepsOthers(st: State, cfg: Config, r: string, now: int, s: string)
    requires Sendable(st, cfg, s, now) && r != s
    ensures var after := SendResync(st, r, now);
      Sendable(after, cfg, s, now) && (WasSent(st, s, now) ==> WasSent(after, s, now))
  {
  }

  lemma ForgetKeepsOthers(st: State, cfg: Config, r: string, now: int, s: string)
    requires Sendable(st, cfg, s, now) && r != s
    ensures var after := Forget(st, r);
      Sendable(after, cfg, s, now) && (WasSent(st, s, now) ==> WasSent(after, s, now))
  {
  }

  lemma {:induction false} CheckSends(st: State, cfg: Config, order: seq<string>, now: int, s: string)
    requires Sendable(st, cfg, s, now) && (s in order || WasSent(st, s, now))
    ensures var after := CheckResyncs(st, cfg, order, now, true); after.socket.None? || WasSent(after, s, now)
    decreases |order|
  {
    if order != [] {
      KillDropsSocket(st);
      hide RequestResync, KillSocket, MayResubscribe;
      if order[0] == s {
        RequestSends(st, cfg, s, now);
      } else {
        OthersStaySendable(st, cfg, order[0], now, s);
      }
      if order[0] in st.resyncs && st.resyncs[order[0]].None? {
        CheckSends(RequestResync(st, cfg, order[0], now, true), cfg, order[1..], now, s);
      } else {
        CheckSends(st, cfg, order[1..], now, s);
      }
    }
  }

  /** The watchdog retries: an open resync that was held back is sent by the first pass after its
      cooldown, unless the pass drops the socket. */
  lemma WatchdogRetries(st: State, cfg: Config, order: seq<string>, now: int, s: string)
    requires st.socket.Some? && st.connected && s in order && s in st.active
    requires s in st.resyncs && st.resyncs[s].None? && MayResubscribe(st, cfg, s, now)
    ensures var after := WatchdogPass(st, cfg, order, now, true);
      after.socket.None? || (s in after.resyncs && after.resyncs[s] == Some(now) && Sent(s, now) in after.log)
  {
    CheckSends(st, cfg, order, now, s);
  }

  // ---------- the module as it runs ----------

  lemma ForgetIsWithout(st: State, gone: set<string>, s: string)
    ensures Forget(Without(st, gone), s) == Without(st, gone + {s})
  {
    assert st.books - gone - {s} == st.books - (gone + {s});
    assert st.resyncs - gone - {s} == st.resyncs - (gone + {s});
    assert st.lastSent - gone - {s} == st.lastSent - (gone + {s});
    assert st.recent - gone - {s} == st.recent - (gone + {s});
  }

  lemma NothingLost(st: State)
    ensures Without(st, {}) == st
  {
  }

  /** The module's variables, updated in place by its handlers.  `log` is ghost: it is what the
      handlers did, not a variable of the source. */
  class KrakenFeed {
    const cfg: Config
    var socket: Option<nat>
    var connected: bool
    var timer: bool
    var stopped: bool
    var sockets: nat
    var books: map<string, Book>
    var published: map<string, Book>
    var resyncs: map<string, Option<int>>
    var lastSent: map<string, int>
    var recent: map<string, int>
    var active: set<string>
    var loaded: bool
    ghost var log: seq<LogEntry>

    ghost function View(): State
      reads this
    {
      State(socket, connected, timer, stopped, sockets, books, published, resyncs, lastSent, recent, active, loaded, log)
    }

    constructor (cfg: Config)
      ensures this.cfg == cfg && View() == INITIAL
    {
      this.cfg := cfg;
      socket, connected, timer, stopped, sockets := None, false, false, false, 0;
      books, published, resyncs, lastSent, recent, active := map[], map[], map[], map[], map[], {};
      loaded := false;
      log := [];
    }

    method ResetBookState()
      modifies this
      ensures View() == ResetBooks(old(View()))
    {
      books, resyncs, lastSent, recent := map[], map[], map[], map[];
      log := log + [Dropped];
    }

    method ForgetBookState(s: string)
      modifies this
      ensures View() == Forget(old(View()), s)
    {
      books, resyncs, lastSent, recent := books - {s}, resyncs - {s}, lastSent - {s}, recent - {s};
    }

    /** With the looked-up symbols: forgets those removed, one by one. */
    method ReconcileSubscriptions(after: set<string>)
      modifies this
      ensures View() == Refresh(old(View()), after)
    {
      ghost var start := View().(active := after, loaded := true);
      var left := active - after;
      ghost var removed, done := left, {};
      active, loaded := after, true;
      NothingLost(start);
      while left != {}
        invariant left + done == removed && left !! done && View() == Without(start, done)
        decreases |left|
      {
        var s :| s in left;
        left := left - {s};
        hide Forget, Without;
        ForgetIsWithout(start, done, s);
        ForgetBookState(s);
        done := done + {s};
      }
      assert done == removed;
    }

    method ScheduleReconnectTimer()
      modifies this
      ensures View() == ScheduleReconnect(old(View()))
    {
      if !stopped && !timer {
        timer := true;
      }
    }

    method Drop(id: nat)
      modifies this
      ensures View() == DropSocket(old(View()), id)
    {
      if socket == Some(id) {
        socket, connected := None, false;
        ResetBookState();
        ScheduleReconnectTimer();
      }
    }

    method Kill(enabled: bool) returns (killed: bool)
      modifies this
      ensures (View(), killed) == KillSocket(old(View()), enabled)
      ensures killed ==> socket.None?
    {
      if !enabled || socket.None? {
        return false;
      }
      Drop(socket.value);
      return true;
    }

    method OpenSocket()
      modifies this
      ensures View() == Connect(old(View()))
    {
      if !stopped {
        socket, sockets := Some(sockets), sockets + 1;
      }
    }

    method OnTimer()
      modifies this
      ensures View() == TimerFires(old(View()))
    {
      if timer {
        timer := false;
        OpenSocket();
      }
    }

    method StartFeed()
      modifies this
      ensures View() == Start(old(View()))
    {
      stopped := false;
      OpenSocket();
    }

    method StopFeed()
      modifies this
      ensures View() == Stop(old(View()))
    {
      stopped, connected, timer := true, false, false;
      ResetBookState();
      socket := None;
    }

    method RequestBookResync(s: string, now: int, ready: bool)
      modifies this
      ensures View() == RequestResync(old(View()), cfg, s, now, ready)
    {
      if s !in resyncs || resyncs[s].Some? || socket.None? || !ready {
        return;
      }
      if s in lastSent && now - lastSent[s] < cfg.cooldownMs {
        return;
      }
      if s !in active {
        ForgetBookState(s);
        return;
      }
      resyncs, lastSent := resyncs[s := Some(now)], lastSent[s := now];
      log := log + [Sent(s, now)];
    }

    method OnChecksumMismatch(s: string, b: Book, now: int, ready: bool)
      modifies this
      ensures View() == OnMismatch(old(View()), cfg, s, b, now, ready)
      ensures MismatchLeads(old(View()), View(), cfg, s, b, now, ready)
    {
      MismatchOutcome(View(), cfg, s, b, now, ready);
      hide MismatchLeads;
      if !cfg.enforce {
        published := published[s := b];
        return;
      }
      books, published, resyncs := books - {s}, published - {s}, resyncs[s := None];
      recent := Recent(recent[s := now], cfg, now);
      assert View() == Hide(old(View()), cfg, s, now);
      hide RequestResync, KillSocket, Hide;
      if |recent| >= cfg.massSymbols {
        var _ := Kill(true);
        return;
      }
      RequestBookResync(s, now, ready);
    }

    method ApplyBookEntry(e: Entry, now: int, ready: bool)
      modifies this
      ensures View() == ApplyEntry(old(View()), cfg, e, now, ready)
    {
      hide OnMismatch, Snapshot, Update, Checksum;
      var s, b, ok := e.symbol, EMPTY_BOOK, true;
      match e.message {
        case SnapshotMessage(bids, asks) =>
          var taken := Snapshot(EMPTY_BOOK, bids, asks, cfg.depth);
          b, ok := taken.0, taken.1;
          if ok {
            books, resyncs := books[s := b], resyncs - {s};
          }
        case UpdateMessage(bids, asks) =>
          if s !in books {
            return;
          }
          var taken := Update(books[s], bids, asks, cfg.depth);
          b, ok := taken.0, taken.1;
          books := books[s := b];
      }
      if ok && (e.checksum.None? || e.precision.None? || Checksum(b, e.precision.value) == e.checksum.value) {
        published := published[s := b];
      } else {
        OnChecksumMismatch(s, b, now, ready);
      }
    }

    /** Returns whether it killed the socket. */
    method CheckBookResyncs(order: seq<string>, now: int, ready: bool) returns (killed: bool)
      modifies this
      ensures View() == CheckResyncs(old(View()), cfg, order, now, ready)
      ensures killed ==> socket.None?
    {
      hide RequestResync, DropSocket;
      var i := 0;
      while i < |order|
        invariant i <= |order|
        invariant CheckResyncs(View(), cfg, order[i..], now, ready) == CheckResyncs(old(View()), cfg, order, now, ready)
      {
        ghost var before := View();
        assert order[i..][0] == order[i] && order[i..][1..] == order[i + 1..];
        var s := order[i];
        i := i + 1;
        if s in resyncs {
          if resyncs[s].None? {
            RequestBookResync(s, now, ready);
          } else if now - resyncs[s].value > cfg.timeoutMs {
            var done := Kill(true);
            if done {
              return true;
            }
          }
        }
      }
      return false;
    }
  }
}
