/** Staleness and reconnect backoff of the exchange feeds, apps/api/src/market/feedWatchdog.ts.
    Times are passed in by the caller. */
module FeedWatchdog {
  import opened Wrappers

  // ---------- staleness ----------

  datatype Options = Options(staleMs: int, graceMs: int, maxCheckGapMs: int)

  datatype Episode = Episode(key: string, silentMs: int, seenSinceConnect: bool)

  datatype Tracker = Tracker(
    connectedAt: Option<int>,
    lastCheckAt: Option<int>,
    lastAt: map<string, int>,
    expectedSince: map<string, int>,
    stale: set<string>)

  const UNCONNECTED := Tracker(None, None, map[], map[], {})

  function Max(a: int, b: int): int { if a < b then b else a }

  function Reset(now: int): Tracker { Tracker(Some(now), None, map[], map[], {}) }

  function Record(t: Tracker, key: string, now: int): Tracker {
    t.(lastAt := t.lastAt[key := now], stale := t.stale - {key})
  }

  /** The key's silence so far, against the limit that applies to it. */
  predicate Silent(t: Tracker, opts: Options, key: string, now: int) {
    if key in t.lastAt then now - t.lastAt[key] > opts.staleMs
    else key in t.expectedSince && now - t.expectedSince[key] > opts.graceMs
  }

  /** A key without a message is expected from the first check that names it: from the connect, or
      from the check before. */
  function Expected(t: Tracker, key: string, prevCheck: Option<int>): Tracker
    requires t.connectedAt.Some?
  {
    if key in t.lastAt || key in t.expectedSince then t
    else
      var since := Max(t.connectedAt.value, prevCheck.GetOr(t.connectedAt.value));
      t.(expectedSince := t.expectedSince[key := since])
  }

  function SilentMs(t: Tracker, key: string, now: int): int
    requires key in t.lastAt || key in t.expectedSince
  {
    now - if key in t.lastAt then t.lastAt[key] else t.expectedSince[key]
  }

  /** The check's loop over the keys. */
  function CheckKeys(t: Tracker, opts: Options, keys: seq<string>, prevCheck: Option<int>, now: int): (Tracker, seq<Episode>)
    requires t.connectedAt.Some?
    decreases |keys|
  {
    if keys == [] then (t, [])
    else
      var key := keys[0];
      var e := Expected(t, key, prevCheck);
      if Silent(e, opts, key, now) && key !in e.stale then
        var (after, episodes) := CheckKeys(e.(stale := e.stale + {key}), opts, keys[1..], prevCheck, now);
        (after, [Episode(key, SilentMs(e, key, now), key in e.lastAt)] + episodes)
      else CheckKeys(e, opts, keys[1..], prevCheck, now)
  }

  /** Whether a check at `now` does nothing but note its time. */
  predicate Skips(t: Tracker, opts: Options, now: int) {
    t.lastCheckAt.Some? && now - t.lastCheckAt.value > opts.maxCheckGapMs
  }

  function Check(t: Tracker, opts: Options, keys: seq<string>, now: int): (Tracker, seq<Episode>) {
    if t.connectedAt.None? then (t, [])
    else if Skips(t, opts, now) then (t.(lastCheckAt := Some(now)), [])
    else CheckKeys(t.(lastCheckAt := Some(now)), opts, keys, t.lastCheckAt, now)
  }

  // ---------- stale is exact ----------

  /** Every key marked stale is silent for longer than its limit. */
  ghost predicate StaleIsSilent(t: Tracker, opts: Options, now: int) {
    forall k :: k in t.stale ==> Silent(t, opts, k, now)
  }

  /** What a check decides of a key it names: how long it has been silent, from its last message,
      or from when it was first expected, which may be from this check. */
  predicate SilentSince(t: Tracker, opts: Options, k: string, prevCheck: Option<int>, now: int)
    requires t.connectedAt.Some?
  {
    if k in t.lastAt then now - t.lastAt[k] > opts.staleMs
    else if k in t.expectedSince then now - t.expectedSince[k] > opts.graceMs
    else now - Max(t.connectedAt.value, prevCheck.GetOr(t.connectedAt.value)) > opts.graceMs
  }

  /** Within one check: only unmarked silent keys are marked, and each is reported once. */
  lemma {:induction false} KeysAreExact(t: Tracker, opts: Options, keys: seq<string>, prevCheck: Option<int>, now: int, k: string)
    requires t.connectedAt.Some? && StaleIsSilent(t, opts, now)
    ensures var (after, episodes) := CheckKeys(t, opts, keys, prevCheck, now);
      && StaleIsSilent(after, opts, now) && t.stale <= after.stale
      && after.lastAt == t.lastAt && after.connectedAt == t.connectedAt && after.lastCheckAt == t.lastCheckAt
      && (k in t.expectedSince ==> k in after.expectedSince && after.expectedSince[k] == t.expectedSince[k])
      && (k in keys ==> (k in after.stale <==> Silent(after, opts, k, now)) && (k in t.lastAt || k in after.expectedSince))
      && (k !in keys ==> (k in after.stale <==> k in t.stale))
      && Reports(episodes, k) == (if k in after.stale && k !in t.stale then 1 else 0)
    decreases |keys|
  {
    if keys != [] {
      var key := keys[0];
      var e := Expected(t, key, prevCheck);
      assert forall j :: j in t.stale ==> Silent(e, opts, j, now);
      var marks := Silent(e, opts, key, now) && key !in e.stale;
      var next := if marks then e.(stale := e.stale + {key}) else e;
      assert forall j :: Silent(next, opts, j, now) == Silent(e, opts, j, now);
      KeysAreExact(next, opts, keys[1..], prevCheck, now, k);
      var (after, episodes) := CheckKeys(next, opts, keys[1..], prevCheck, now);
      if marks {
        ReportsCons(Episode(key, SilentMs(e, key, now), key in e.lastAt), episodes, k);
      }
      if k == key && k !in keys[1..] {
        KeysKeepExpected(next, opts, keys[1..], prevCheck, now, k);
      }
    }
  }

  /** What a check reads of a key it names is what was there before, or its first expectation. */
  lemma {:induction false} KeysReadSilence(t: Tracker, opts: Options, keys: seq<string>, prevCheck: Option<int>, now: int, k: string)
    requires t.connectedAt.Some? && k in keys
    ensures Silent(CheckKeys(t, opts, keys, prevCheck, now).0, opts, k, now) == SilentSince(t, opts, k, prevCheck, now)
    decreases |keys|
  {
    var e := Expected(t, keys[0], prevCheck);
    var marked := e.(stale := e.stale + {keys[0]});
    if keys[0] == k {
      KeysKeepExpected(e, opts, keys[1..], prevCheck, now, k);
      KeysKeepExpected(marked, opts, keys[1..], prevCheck, now, k);
    } else {
      KeysReadSilence(e, opts, keys[1..], prevCheck, now, k);
      KeysReadSilence(marked, opts, keys[1..], prevCheck, now, k);
    }
  }

  /** Whether k is silent does not change while other keys are looked at. */
  lemma {:induction false} KeysKeepExpected(t: Tracker, opts: Options, keys: seq<string>, prevCheck: Option<int>, now: int, k: string)
    requires t.connectedAt.Some? && (k in t.lastAt || k in t.expectedSince)
    ensures Silent(CheckKeys(t, opts, keys, prevCheck, now).0, opts, k, now) == Silent(t, opts, k, now)
    decreases |keys|
  {
    if keys != [] {
      var e := Expected(t, keys[0], prevCheck);
      KeysKeepExpected(e, opts, keys[1..], prevCheck, now, k);
      KeysKeepExpected(e.(stale := e.stale + {keys[0]}), opts, keys[1..], prevCheck, now, k);
    }
  }

  /** How often k is reported. */
  function Reports(episodes: seq<Episode>, k: string): nat {
    if episodes == [] then 0 else (if episodes[0].key == k then 1 else 0) + Reports(episodes[1..], k)
  }

  lemma ReportsCons(e: Episode, episodes: seq<Episode>, k: string)
    ensures Reports([e] + episodes, k) == (if e.key == k then 1 else 0) + Reports(episodes, k)
  {
    assert ([e] + episodes)[1..] == episodes;
  }

  lemma {:induction false} ReportsAppend(a: seq<Episode>, b: seq<Episode>, k: string)
    ensures Reports(a + b, k) == Reports(a, k) + Reports(b, k)
    decreases |a|
  {
    if a == [] {
      assert a + b == b;
    } else {
      assert (a + b)[1..] == a[1..] + b;
      ReportsAppend(a[1..], b, k);
    }
  }

  // ---------- runs ----------

  datatype Event =
    | Resets(at: int)
    | Disconnects(at: int)
    | Records(key: string, at: int)
    | Checks(keys: seq<string>, at: int)

  function Step(t: Tracker, opts: Options, ev: Event): (Tracker, seq<Episode>) {
    match ev
    case Resets(now) => (Reset(now), [])
    case Disconnects(_) => (UNCONNECTED, [])
    case Records(key, now) => (Record(t, key, now), [])
    case Checks(keys, now) => Check(t, opts, keys, now)
  }

  function Run(t: Tracker, opts: Options, evs: seq<Event>): (Tracker, seq<Episode>)
    decreases |evs|
  {
    if evs == [] then (t, [])
    else
      var (next, episodes) := Step(t, opts, evs[0]);
      var (last, more) := Run(next, opts, evs[1..]);
      (last, episodes + more)
  }

  /** Times do not go back. */
  predicate InTime(from: int, evs: seq<Event>)
    decreases |evs|
  {
    evs == [] || (from <= evs[0].at && InTime(evs[0].at, evs[1..]))
  }

  function LastTime(from: int, evs: seq<Event>): int { if evs == [] then from else evs[|evs| - 1].at }

  lemma LaterIsSilent(t: Tracker, opts: Options, now: int, later: int)
    requires StaleIsSilent(t, opts, now) && now <= later
    ensures StaleIsSilent(t, opts, later)
  {
  }

  lemma StepKeepsStaleIsSilent(t: Tracker, opts: Options, ev: Event)
    requires StaleIsSilent(t, opts, ev.at)
    ensures StaleIsSilent(Step(t, opts, ev).0, opts, ev.at)
  {
    if ev.Checks? && t.connectedAt.Some? {
      KeysAreExact(t.(lastCheckAt := Some(ev.at)), opts, ev.keys, t.lastCheckAt, ev.at, "");
    }
  }

  lemma {:induction false} RunKeepsStaleIsSilent(t: Tracker, opts: Options, evs: seq<Event>, from: int)
    requires StaleIsSilent(t, opts, from) && InTime(from, evs)
    ensures StaleIsSilent(Run(t, opts, evs).0, opts, LastTime(from, evs))
    decreases |evs|
  {
    hide Step, StaleIsSilent;
    if evs != [] {
      LaterIsSilent(t, opts, from, evs[0].at);
      StepKeepsStaleIsSilent(t, opts, evs[0]);
      RunKeepsStaleIsSilent(Step(t, opts, evs[0]).0, opts, evs[1..], evs[0].at);
    }
  }

  /** After any run in time order, a check that is not skipped leaves each key it names marked
      stale exactly when the key has been silent for longer than its limit, and reports it, once,
      exactly when it was not marked before. */
  lemma StalenessIsExact(opts: Options, evs: seq<Event>, from: int, keys: seq<string>, now: int, k: string)
    requires InTime(from, evs) && LastTime(from, evs) <= now && k in keys
    requires var t := Run(UNCONNECTED, opts, evs).0; t.connectedAt.Some? && !Skips(t, opts, now)
    ensures var t := Run(UNCONNECTED, opts, evs).0;
      var (after, episodes) := Check(t, opts, keys, now);
      && (k in after.stale <==> SilentSince(t, opts, k, t.lastCheckAt, now))
      && Reports(episodes, k) == (if k in after.stale && k !in t.stale then 1 else 0)
  {
    RunKeepsStaleIsSilent(UNCONNECTED, opts, evs, from);
    hide CheckKeys, Run;
    var t := Run(UNCONNECTED, opts, evs).0;
    LaterIsSilent(t, opts, LastTime(from, evs), now);
    KeysAreExact(t.(lastCheckAt := Some(now)), opts, keys, t.lastCheckAt, now, k);
    KeysReadSilence(t.(lastCheckAt := Some(now)), opts, keys, t.lastCheckAt, now, k);
  }

  /** When a key's silence began: at its last message since the connect, or when it was first
      expected, or, if it is new to this check, at the connect or the check before, the later. */
  function Began(t: Tracker, k: string, prevCheck: Option<int>): int
    requires t.connectedAt.Some?
  {
    if k in t.lastAt then t.lastAt[k]
    else if k in t.expectedSince then t.expectedSince[k]
    else if prevCheck.Some? && prevCheck.value > t.connectedAt.value then prevCheck.value else t.connectedAt.value
  }

  /** A report of a silent key: how long it has been silent and whether it was heard of at all. */
  predicate Tells(t: Tracker, opts: Options, keys: seq<string>, prevCheck: Option<int>, now: int, e: Episode)
    requires t.connectedAt.Some?
  {
    && e.key in keys && e.key !in t.stale && (e.seenSinceConnect <==> e.key in t.lastAt)
    && e.silentMs == now - Began(t, e.key, prevCheck)
    && e.silentMs > if e.seenSinceConnect then opts.staleMs else opts.graceMs
  }

  lemma ExpectedBegan(t: Tracker, k: string, prevCheck: Option<int>, other: string)
    requires t.connectedAt.Some?
    ensures var e := Expected(t, k, prevCheck);
      && e.stale == t.stale && e.lastAt == t.lastAt && e.connectedAt == t.connectedAt
      && (k in e.lastAt || k in e.expectedSince) && SilentMs(e, k, 0) == -Began(t, k, prevCheck)
      && Began(e, other, prevCheck) == Began(t, other, prevCheck)
      && Began(e.(stale := e.stale + {k}), other, prevCheck) == Began(t, other, prevCheck)
  {
  }

  lemma {:induction false} KeysTell(t: Tracker, opts: Options, keys: seq<string>, prevCheck: Option<int>, now: int, i: nat)
    requires t.connectedAt.Some? && i < |CheckKeys(t, opts, keys, prevCheck, now).1|
    ensures Tells(t, opts, keys, prevCheck, now, CheckKeys(t, opts, keys, prevCheck, now).1[i])
    decreases |keys|
  {
    if keys != [] {
      var e := Expected(t, keys[0], prevCheck);
      var told := CheckKeys(t, opts, keys, prevCheck, now).1[i];
      ExpectedBegan(t, keys[0], prevCheck, told.key);
      hide Began, Expected;
      if Silent(e, opts, keys[0], now) && keys[0] !in e.stale {
        if i > 0 {
          KeysTell(e.(stale := e.stale + {keys[0]}), opts, keys[1..], prevCheck, now, i - 1);
        }
      } else {
        KeysTell(e, opts, keys[1..], prevCheck, now, i);
      }
    }
  }

  /** Every report of a check is of a key it names, unmarked before, with the true length of its
      silence, which is beyond the limit that applies to it. */
  lemma EpisodesTell(t: Tracker, opts: Options, keys: seq<string>, now: int, i: nat)
    requires i < |Check(t, opts, keys, now).1|
    ensures t.connectedAt.Some? && !Skips(t, opts, now)
    ensures Tells(t, opts, keys, t.lastCheckAt, now, Check(t, opts, keys, now).1[i])
  {
    KeysTell(t.(lastCheckAt := Some(now)), opts, keys, t.lastCheckAt, now, i);
  }

  // ---------- a blocked loop is forgiven ----------

  /** Only messages, handled one after the other. */
  predicate OnlyRecords(evs: seq<Event>) { forall ev :: ev in evs ==> ev.Records? }

  lemma {:induction false} RecordsReportNothing(t: Tracker, opts: Options, evs: seq<Event>, from: int, k: string, at: int)
    requires OnlyRecords(evs) && InTime(from, evs)
    requires Heard(t, k, at) || Records(k, at) in evs
    requires k in t.lastAt ==> t.lastAt[k] <= from
    ensures var (after, episodes) := Run(t, opts, evs);
      episodes == [] && Heard(after, k, at) && after.connectedAt == t.connectedAt
      && after.lastCheckAt == t.lastCheckAt
    decreases |evs|
  {
    if evs != [] {
      assert evs[0] in evs;
      var next := Step(t, opts, evs[0]).0;
      assert at <= evs[0].at || Records(k, at) in evs[1..] || Heard(t, k, at);
      RecordsReportNothing(next, opts, evs[1..], evs[0].at, k, at);
    }
  }

  /** The key's last message is not older than `at`, and it is not marked stale. */
  predicate Heard(t: Tracker, k: string, at: int) { k in t.lastAt && at <= t.lastAt[k] && k !in t.stale }

  lemma HeardIsNotReported(t: Tracker, opts: Options, keys: seq<string>, now: int, k: string, at: int)
    requires Heard(t, k, at) && now - at <= opts.staleMs && t.connectedAt.Some?
    ensures var (after, episodes) := Check(t, opts, keys, now);
      Reports(episodes, k) == 0 && k !in after.stale
  {
    if !Skips(t, opts, now) {
      KeysKeepHeard(t.(lastCheckAt := Some(now)), opts, keys, t.lastCheckAt, now, k);
      KeysReport(t.(lastCheckAt := Some(now)), opts, keys, t.lastCheckAt, now, k);
    }
  }

  lemma {:induction false} KeysKeepHeard(t: Tracker, opts: Options, keys: seq<string>, prevCheck: Option<int>, now: int, k: string)
    requires t.connectedAt.Some? && k in t.lastAt && k !in t.stale && now - t.lastAt[k] <= opts.staleMs
    ensures k !in CheckKeys(t, opts, keys, prevCheck, now).0.stale
    decreases |keys|
  {
    if keys != [] {
      var e := Expected(t, keys[0], prevCheck);
      KeysKeepHeard(e, opts, keys[1..], prevCheck, now, k);
      if Silent(e, opts, keys[0], now) {
        KeysKeepHeard(e.(stale := e.stale + {keys[0]}), opts, keys[1..], prevCheck, now, k);
      }
    }
  }

  /** A loop blocked for longer than the gap: after any run in time order the check that comes first
      would have reported a key silent till then, but is skipped; if one of the messages then
      handled is the key's and not older than the stale limit at the next check, the whole stretch
      reports nothing of the key, and it is not marked. */
  lemma BlockedLoopIsForgiven(opts: Options, before: seq<Event>, from: int, keys: seq<string>, now: int,
                              buffered: seq<Event>, keysThen: seq<string>, later: int, k: string, at: int)
    requires InTime(from, before) && LastTime(from, before) <= now
    requires var t := Run(UNCONNECTED, opts, before).0;
      t.connectedAt.Some? && Skips(t, opts, now) && k in keys && k !in t.stale && SilentSince(t, opts, k, t.lastCheckAt, now)
    requires OnlyRecords(buffered) && InTime(now, buffered) && Records(k, at) in buffered && later - at <= opts.staleMs
    ensures var t := Run(UNCONNECTED, opts, before).0;
      && Reports(CheckKeys(t, opts, keys, t.lastCheckAt, now).1, k) == 1
      && var (skipped, none) := Check(t, opts, keys, now);
         var (handled, nothing) := Run(skipped, opts, buffered);
         var (after, episodes) := Check(handled, opts, keysThen, later);
         none == [] && nothing == [] && Reports(episodes, k) == 0 && k !in after.stale
  {
    RunKeepsStaleIsSilent(UNCONNECTED, opts, before, from);
    RunHeardInTime(UNCONNECTED, opts, before, from, k);
    var t := Run(UNCONNECTED, opts, before).0;
    hide Run, CheckKeys;
    LaterIsSilent(t, opts, LastTime(from, before), now);
    KeysAreExact(t, opts, keys, t.lastCheckAt, now, k);
    KeysReadSilence(t, opts, keys, t.lastCheckAt, now, k);
    var skipped := t.(lastCheckAt := Some(now));
    RecordsReportNothing(skipped, opts, buffered, now, k, at);
    HeardIsNotReported(Run(skipped, opts, buffered).0, opts, keysThen, later, k, at);
  }

  /** No message is from the future. */
  lemma {:induction false} RunHeardInTime(t: Tracker, opts: Options, evs: seq<Event>, from: int, k: string)
    requires InTime(from, evs) && (k in t.lastAt ==> t.lastAt[k] <= from)
    ensures var after := Run(t, opts, evs).0; k in after.lastAt ==> after.lastAt[k] <= LastTime(from, evs)
    decreases |evs|
  {
    if evs != [] {
      var ev := evs[0];
      if ev.Checks? && t.connectedAt.Some? {
        KeysKeepMessages(t.(lastCheckAt := Some(ev.at)), opts, ev.keys, t.lastCheckAt, ev.at);
      }
      RunHeardInTime(Step(t, opts, ev).0, opts, evs[1..], ev.at, k);
    }
  }

  lemma {:induction false} KeysKeepMessages(t: Tracker, opts: Options, keys: seq<string>, prevCheck: Option<int>, now: int)
    requires t.connectedAt.Some?
    ensures CheckKeys(t, opts, keys, prevCheck, now).0.lastAt == t.lastAt
    decreases |keys|
  {
    if keys != [] {
      var e := Expected(t, keys[0], prevCheck);
      KeysKeepMessages(e, opts, keys[1..], prevCheck, now);
      KeysKeepMessages(e.(stale := e.stale + {keys[0]}), opts, keys[1..], prevCheck, now);
    }
  }

  // ---------- each silence is reported once ----------

  /** The key's silence goes on: no message of it, no new connection. */
  predicate StaysSilent(evs: seq<Event>, k: string) {
    forall ev :: ev in evs ==> ev.Checks? || (ev.Records? && ev.key != k)
  }

  /** Marks are only added by a check; a key marked already is not reported. */
  lemma {:induction false} KeysReport(t: Tracker, opts: Options, keys: seq<string>, prevCheck: Option<int>, now: int, k: string)
    requires t.connectedAt.Some?
    ensures var (after, episodes) := CheckKeys(t, opts, keys, prevCheck, now);
      t.stale <= after.stale && Reports(episodes, k) == (if k in after.stale && k !in t.stale then 1 else 0)
    decreases |keys|
  {
    if keys != [] {
      var e := Expected(t, keys[0], prevCheck);
      var marked := e.(stale := e.stale + {keys[0]});
      KeysReport(e, opts, keys[1..], prevCheck, now, k);
      KeysReport(marked, opts, keys[1..], prevCheck, now, k);
      ReportsCons(Episode(keys[0], if keys[0] in e.lastAt || keys[0] in e.expectedSince then SilentMs(e, keys[0], now) else 0,
                          keys[0] in e.lastAt), CheckKeys(marked, opts, keys[1..], prevCheck, now).1, k);
    }
  }

  lemma StepReports(t: Tracker, opts: Options, ev: Event, k: string)
    requires ev.Checks? || (ev.Records? && ev.key != k)
    ensures var (after, episodes) := Step(t, opts, ev);
      (k in t.stale ==> k in after.stale) && Reports(episodes, k) == (if k in after.stale && k !in t.stale then 1 else 0)
  {
    if ev.Checks? && t.connectedAt.Some? {
      KeysReport(t.(lastCheckAt := Some(ev.at)), opts, ev.keys, t.lastCheckAt, ev.at, k);
    }
  }

  /** However often and with whatever keys it is checked, and whatever other keys do, one silence
      of a key is reported once, when it is first marked, until its next message or connection. */
  lemma {:induction false} SilenceReportedOnce(t: Tracker, opts: Options, evs: seq<Event>, k: string)
    requires StaysSilent(evs, k)
    ensures var (after, episodes) := Run(t, opts, evs);
      (k in t.stale ==> k in after.stale) && Reports(episodes, k) == (if k in after.stale && k !in t.stale then 1 else 0)
    decreases |evs|
  {
    hide Step;
    if evs != [] {
      assert evs[0] in evs;
      StepReports(t, opts, evs[0], k);
      var (next, episodes) := Step(t, opts, evs[0]);
      SilenceReportedOnce(next, opts, evs[1..], k);
      ReportsAppend(episodes, Run(next, opts, evs[1..]).1, k);
    }
  }

  // ---------- the tracker as it runs ----------

  /** The loop's turn at key i. */
  lemma NextKey(t: Tracker, opts: Options, keys: seq<string>, i: nat, prevCheck: Option<int>, now: int)
    requires t.connectedAt.Some? && i < |keys|
    ensures var e := Expected(t, keys[i], prevCheck);
      var rest := CheckKeys(e, opts, keys[i + 1..], prevCheck, now);
      var marked := CheckKeys(e.(stale := e.stale + {keys[i]}), opts, keys[i + 1..], prevCheck, now);
      CheckKeys(t, opts, keys[i..], prevCheck, now) ==
      if Silent(e, opts, keys[i], now) && keys[i] !in e.stale
      then (marked.0, [Episode(keys[i], SilentMs(e, keys[i], now), keys[i] in e.lastAt)] + marked.1) else rest
  {
    assert keys[i..][0] == keys[i] && keys[i..][1..] == keys[i + 1..];
  }

  lemma NoKeys(t: Tracker, opts: Options, prevCheck: Option<int>, now: int)
    requires t.connectedAt.Some?
    ensures CheckKeys(t, opts, [], prevCheck, now) == (t, [])
  {
  }

  class StalenessTracker {
    const opts: Options
    var connectedAt: Option<int>
    var lastCheckAt: Option<int>
    var lastAt: map<string, int>
    var expectedSince: map<string, int>
    var stale: set<string>

    ghost function View(): Tracker
      reads this
    {
      Tracker(connectedAt, lastCheckAt, lastAt, expectedSince, stale)
    }

    constructor (opts: Options)
      ensures this.opts == opts && View() == UNCONNECTED
    {
      this.opts := opts;
      connectedAt, lastCheckAt, lastAt, expectedSince, stale := None, None, map[], map[], {};
    }

    method ResetAt(now: int)
      modifies this
      ensures View() == Reset(now)
    {
      lastAt, expectedSince, stale, connectedAt, lastCheckAt := map[], map[], {}, Some(now), None;
    }

    method Disconnect()
      modifies this
      ensures View() == UNCONNECTED
    {
      connectedAt, lastAt, expectedSince, stale, lastCheckAt := None, map[], map[], {}, None;
    }

    method RecordMessage(key: string, now: int)
      modifies this
      ensures View() == Record(old(View()), key, now)
    {
      lastAt := lastAt[key := now];
      stale := stale - {key};
    }

    /** The loop's body: a new episode of the key, if there is one. */
    method CheckKey(key: string, prevCheck: Option<int>, now: int) returns (episode: Option<Episode>)
      requires connectedAt.Some?
      modifies this`expectedSince, this`stale
      ensures var e := Expected(old(View()), key, prevCheck);
        if Silent(e, opts, key, now) && key !in e.stale
        then View() == e.(stale := e.stale + {key}) && episode == Some(Episode(key, SilentMs(e, key, now), key in e.lastAt))
        else View() == e && episode.None?
    {
      var silentMs, isStale;
      if key in lastAt {
        silentMs := now - lastAt[key];
        isStale := silentMs > opts.staleMs;
      } else {
        if key !in expectedSince {
          var since := Max(connectedAt.value, prevCheck.GetOr(connectedAt.value));
          expectedSince := expectedSince[key := since];
        }
        silentMs := now - expectedSince[key];
        isStale := silentMs > opts.graceMs;
      }
      assert View() == Expected(old(View()), key, prevCheck);
      if isStale && key !in stale {
        stale := stale + {key};
        return Some(Episode(key, silentMs, key in lastAt));
      }
      return None;
    }

    method CheckStale(keys: seq<string>, now: int) returns (episodes: seq<Episode>)
      modifies this
      ensures (View(), episodes) == Check(old(View()), opts, keys, now)
    {
      hide CheckKeys;
      episodes := [];
      if connectedAt.None? {
        return;
      }
      var prevCheck := lastCheckAt;
      lastCheckAt := Some(now);
      if prevCheck.Some? && now - prevCheck.value > opts.maxCheckGapMs {
        return;
      }
      ghost var start := View();
      assert start == old(View()).(lastCheckAt := Some(now)) && keys[0..] == keys;
      var i := 0;
      while i < |keys|
        invariant i <= |keys| && connectedAt == old(connectedAt)
        invariant CheckKeys(View(), opts, keys[i..], prevCheck, now).0 == CheckKeys(start, opts, keys, prevCheck, now).0
        invariant episodes + CheckKeys(View(), opts, keys[i..], prevCheck, now).1 == CheckKeys(start, opts, keys, prevCheck, now).1
      {
        NextKey(View(), opts, keys, i, prevCheck, now);
        hide Expected, Silent, SilentMs;
        var episode := CheckKey(keys[i], prevCheck, now);
        if episode.Some? {
          episodes := episodes + [episode.value];
        }
        i := i + 1;
      }
      assert keys[i..] == [];
      NoKeys(View(), opts, prevCheck, now);
      assert episodes + [] == episodes;
      assert Check(old(View()), opts, keys, now) == CheckKeys(start, opts, keys, prevCheck, now);
    }
  }

  // ---------- backoff ----------

  datatype BackoffOptions = BackoffOptions(baseMs: nat, maxMs: nat, jitter: real, healthyResetMs: int)

  datatype Backoff = Backoff(attempt: nat, openedAt: Option<int>)

  function Power(n: nat): nat { if n == 0 then 1 else 2 * Power(n - 1) }

  function MinNat(a: nat, b: nat): nat { if b < a then b else a }

  /** The delay before the jitter. */
  function Raw(opts: BackoffOptions, attempt: nat): nat { MinNat(opts.maxMs, opts.baseMs * Power(MinNat(attempt, 30))) }

  function Round(x: real): int { (x + 0.5).Floor }

  function MinReal(a: real, b: real): real { if b < a then b else a }

  function Scaled(raw: real, factor: real): real { raw * factor }

  function Factor(jitter: real, random: real): real { 1.0 + (random * 2.0 - 1.0) * jitter }

  /** `nextDelay` with the random number it drew. */
  function Delay(b: Backoff, opts: BackoffOptions, budgetExceeded: bool, random: real): int {
    if budgetExceeded then opts.maxMs
    else Round(MinReal(opts.maxMs as real, Scaled(Raw(opts, b.attempt) as real, Factor(opts.jitter, random))))
  }

  datatype BackoffEvent = Opens(at: int) | Healthy(at: int) | Reconnects

  function BackoffStep(b: Backoff, opts: BackoffOptions, ev: BackoffEvent): Backoff {
    match ev
    case Opens(now) => b.(openedAt := Some(now))
    case Healthy(now) =>
      if b.attempt > 0 && b.openedAt.Some? && now - b.openedAt.value >= opts.healthyResetMs then b.(attempt := 0) else b
    case Reconnects => Backoff(b.attempt + 1, None)
  }

  function BackoffRun(b: Backoff, opts: BackoffOptions, evs: seq<BackoffEvent>): Backoff
    decreases |evs|
  {
    if evs == [] then b else BackoffRun(BackoffStep(b, opts, evs[0]), opts, evs[1..])
  }

  /** No data arrives on a socket that has been open for the reset time. */
  predicate NeverHealthyLong(openedAt: Option<int>, opts: BackoffOptions, evs: seq<BackoffEvent>)
    decreases |evs|
  {
    evs == []
    || match evs[0]
       case Opens(now) => NeverHealthyLong(Some(now), opts, evs[1..])
       case Healthy(now) =>
         (openedAt.Some? ==> now - openedAt.value < opts.healthyResetMs) && NeverHealthyLong(openedAt, opts, evs[1..])
       case Reconnects => NeverHealthyLong(None, opts, evs[1..])
  }

  function ReconnectCount(evs: seq<BackoffEvent>): nat {
    if evs == [] then 0 else (if evs[0].Reconnects? then 1 else 0) + ReconnectCount(evs[1..])
  }

  /** A socket that opens and flaps keeps backing off: over any run in which none delivers data for
      the reset time, every reconnect counts, and opening never starts the count over. */
  lemma {:induction false} FlappingKeepsBackingOff(b: Backoff, opts: BackoffOptions, evs: seq<BackoffEvent>)
    requires NeverHealthyLong(b.openedAt, opts, evs)
    ensures BackoffRun(b, opts, evs).attempt == b.attempt + ReconnectCount(evs)
    decreases |evs|
  {
    if evs != [] {
      FlappingKeepsBackingOff(BackoffStep(b, opts, evs[0]), opts, evs[1..]);
    }
  }

  lemma ScaleBounds(raw: real, f: real, low: real)
    requires raw >= 0.0 && low <= f
    ensures Scaled(raw, low) <= Scaled(raw, f)
  {
  }

  lemma FactorBounds(jitter: real, random: real)
    requires 0.0 <= jitter && 0.0 <= random < 1.0
    ensures Factor(jitter, random) >= 1.0 - jitter
  {
    var swing := random * 2.0 - 1.0;
    ScaleBounds(jitter, swing, -1.0);
    assert Scaled(jitter, swing) == swing * jitter && Scaled(jitter, -1.0) == -jitter;
  }

  lemma RoundBounds(x: real, cap: int)
    ensures x <= cap as real ==> Round(x) <= cap
    ensures Round(x) as real >= x - 0.5
  {
  }

  lemma RawCapped(opts: BackoffOptions, attempt: nat)
    ensures Raw(opts, attempt) <= opts.maxMs
  {
  }

  /** The delay is never above the cap, and never further below the doubled base than the jitter. */
  lemma DelayBounds(b: Backoff, opts: BackoffOptions, budgetExceeded: bool, random: real)
    requires 0.0 <= random < 1.0 && 0.0 <= opts.jitter <= 1.0
    ensures Delay(b, opts, budgetExceeded, random) <= opts.maxMs
    ensures Delay(b, opts, budgetExceeded, random) as real >= Scaled(Raw(opts, b.attempt) as real, 1.0 - opts.jitter) - 0.5
  {
    RawCapped(opts, b.attempt);
    var raw, cap := Raw(opts, b.attempt) as real, opts.maxMs as real;
    ScaleBounds(raw, 1.0, 1.0 - opts.jitter);
    assert Scaled(raw, 1.0) == raw;
    FactorBounds(opts.jitter, random);
    ScaleBounds(raw, Factor(opts.jitter, random), 1.0 - opts.jitter);
    hide Raw, Round, Scaled, Factor;
    RoundBounds(MinReal(cap, Scaled(raw, Factor(opts.jitter, random))), opts.maxMs);
  }

  /** Without jitter the delay starts at the base, doubles with every reconnect up to the thirtieth
      and stops at the cap; over budget it is the cap. */
  lemma DelayDoubles(b: Backoff, opts: BackoffOptions, random: real)
    requires opts.jitter == 0.0
    ensures Delay(b, opts, true, random) == opts.maxMs && Delay(b, opts, false, random) >= 0
    ensures b.attempt == 0 ==> Delay(b, opts, false, random) == MinNat(opts.maxMs, opts.baseMs)
    ensures var next := Delay(b.(attempt := b.attempt + 1), opts, false, random);
      next == if b.attempt < 30 then MinNat(opts.maxMs, 2 * Delay(b, opts, false, random)) else Delay(b, opts, false, random)
  {
    DelayIsRaw(b, opts, random);
    DelayIsRaw(b.(attempt := b.attempt + 1), opts, random);
    RawDoubles(opts, b.attempt);
    hide Delay, Raw;
  }

  lemma RawDoubles(opts: BackoffOptions, n: nat)
    ensures Raw(opts, 0) == MinNat(opts.maxMs, opts.baseMs)
    ensures Raw(opts, n + 1) == if n < 30 then MinNat(opts.maxMs, 2 * Raw(opts, n)) else Raw(opts, n)
  {
    var p := Power(MinNat(n, 30));
    assert Power(0) == 1;
    if n < 30 {
      assert Power(MinNat(n + 1, 30)) == 2 * p;
      hide Power;
      assert opts.baseMs * (2 * p) == 2 * (opts.baseMs * p);
    }
  }

  lemma DelayIsRaw(b: Backoff, opts: BackoffOptions, random: real)
    requires opts.jitter == 0.0
    ensures Delay(b, opts, false, random) == Raw(opts, b.attempt)
  {
    RawCapped(opts, b.attempt);
    var raw := Raw(opts, b.attempt);
    hide Raw;
    assert Factor(opts.jitter, random) == 1.0;
    assert Scaled(raw as real, 1.0) == raw as real;
    assert MinReal(opts.maxMs as real, raw as real) == raw as real;
    assert (raw as real + 0.5).Floor == raw;
  }
}
