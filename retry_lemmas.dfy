/** Properties of the retry monitor that relate several of its steps: how a
    batch of events decides each entry, what a timeout check does to the
    budget, the whole life of one watched descriptor, and how the `retain`
    the source performs differs from removing only the exhausted entries. */
module RetryLemmas {
  import opened Types
  import opened Descriptors
  import opened Retry

  // ---------------------------------------------------------------------
  // Receiving events

  /** With retrying disabled, `check_receive` leaves the table alone
      whatever it receives. */
  lemma {:induction false} DisabledIgnoresEvents(m: map<Key, RetryContext>, events: seq<RetryEvent>,
                                                 config: RetryConfig, now: nat)
    requires !config.isEnable
    ensures ApplyEvents(m, events, config, now) == m
    decreases |events|
  {
    if events != [] {
      DisabledIgnoresEvents(ApplyEvent(m, events[0], config, now), events[1..], config, now);
    }
  }

  /** Events for other keys neither add, remove nor change an entry. */
  lemma {:induction false} UntouchedKeyUnchanged(m: map<Key, RetryContext>, events: seq<RetryEvent>,
                                                 config: RetryConfig, now: nat, k: Key)
    requires forall i :: 0 <= i < |events| ==> EventKey(events[i]) != k
    ensures k in ApplyEvents(m, events, config, now) <==> k in m
    ensures k in m ==> ApplyEvents(m, events, config, now)[k] == m[k]
    decreases |events|
  {
    if events != [] {
      UntouchedKeyUnchanged(ApplyEvent(m, events[0], config, now), events[1..], config, now, k);
    }
  }

  /** With retrying enabled, the last event for a key decides its entry: a
      `Retry` leaves a fresh context with the full budget, a `Cancel` leaves
      none, whatever came before. */
  lemma LastEventDecides(m: map<Key, RetryContext>, events: seq<RetryEvent>, config: RetryConfig, now: nat,
                         i: nat)
    requires config.isEnable && i < |events|
    requires forall j :: i < j < |events| ==> EventKey(events[j]) != EventKey(events[i])
    ensures events[i].Retry? ==>
              && EventKey(events[i]) in ApplyEvents(m, events, config, now)
              && ApplyEvents(m, events, config, now)[EventKey(events[i])]
                 == FreshContext(events[i].record, config, now)
    ensures events[i].Cancel? ==> EventKey(events[i]) !in ApplyEvents(m, events, config, now)
  {
    var k := EventKey(events[i]);
    assert events == events[..i] + [events[i]] + events[i + 1..];
    ApplyEventsAppend(m, events[..i] + [events[i]], events[i + 1..], config, now);
    ApplyEventsAppend(m, events[..i], [events[i]], config, now);
    var before := ApplyEvents(m, events[..i], config, now);
    assert ApplyEvents(before, [events[i]], config, now) == ApplyEvent(before, events[i], config, now) by {
      assert [events[i]][1..] == [];
    }
    var rest := events[i + 1..];
    assert forall j :: 0 <= j < |rest| ==> EventKey(rest[j]) != k by {
      forall j | 0 <= j < |rest|
        ensures EventKey(rest[j]) != k
      {
        assert rest[j] == events[i + 1 + j];
      }
    }
    UntouchedKeyUnchanged(ApplyEvent(before, events[i], config, now), rest, config, now, k);
  }

  /** A single `Retry` received with retrying enabled stores a fresh
      context under its key. */
  lemma ReceiveOneRetry(m: map<Key, RetryContext>, rec: RetryRecord, config: RetryConfig, now: nat)
    requires config.isEnable
    ensures ApplyEvents(m, [Retry(rec)], config, now) == m[(rec.qpn, rec.msn) := FreshContext(rec, config, now)]
  {
    assert [Retry(rec)][1..] == [];
    var r := ApplyEvent(m, Retry(rec), config, now);
    assert ApplyEvents(m, [Retry(rec)], config, now) == ApplyEvents(r, [], config, now);
  }

  // ---------------------------------------------------------------------
  // One timeout check

  /** `check_timeout` never adds an entry; it removes exactly the entries
      found exhausted and steps every other one. */
  lemma TickRemovesExactlyExhausted(m: map<Key, RetryContext>, now: nat, config: RetryConfig)
    ensures forall k :: k in Tick(m, now, config) <==> k in m && !Exhausted(m[k], now)
    ensures forall k :: k in Tick(m, now, config) ==> Tick(m, now, config)[k] == StepEntry(m[k], now, config)
  {
  }

  /** Each resend spends one unit of budget, and nothing else changes a
      counter: a kept entry's counter plus its resends in this pass is its
      counter before. */
  lemma TickSpendsBudget(m: map<Key, RetryContext>, now: nat, config: RetryConfig, k: Key)
    requires k in Tick(m, now, config)
    ensures Tick(m, now, config)[k].retryCounter + (if k in ResendKeys(m, now) then 1 else 0)
            == m[k].retryCounter
    ensures Tick(m, now, config)[k].descriptor == m[k].descriptor
    ensures k in ResendKeys(m, now) ==> Tick(m, now, config)[k].nextTimeout == now + config.retryTimeout
  {
  }

  /** A user operation is failed by a timeout check exactly when it is still
      running and its entry was found exhausted. */
  lemma FailedOnlyWhenExhausted(u: map<Key, CtxStatus>, m: map<Key, RetryContext>, now: nat, k: Key)
    requires k in u
    ensures k in FailExhausted(u, m, now)
    ensures FailExhausted(u, m, now)[k] != u[k] <==> u[k].Running? && k in m && Exhausted(m[k], now)
    ensures FailExhausted(u, m, now)[k] != u[k] ==> FailExhausted(u, m, now)[k] == Failed(MAX_RETRY_ERROR)
  {
  }

  /** A check before every deadline changes nothing: no resend, no failure,
      the same table. */
  lemma PollBeforeDeadlineIsNoop(m: map<Key, RetryContext>, u: map<Key, CtxStatus>, now: nat,
                                 config: RetryConfig)
    requires forall k :: k in m ==> now < m[k].nextTimeout
    ensures Tick(m, now, config) == m
    ensures ResendKeys(m, now) == {}
    ensures FailExhausted(u, m, now) == u
  {
    assert ExhaustedKeys(m, now) == {};
  }

  // ---------------------------------------------------------------------
  // Repeated checks

  /** The table after checks at each of `times`, with no event in between. */
  function PollAt(m: map<Key, RetryContext>, times: seq<nat>, config: RetryConfig): map<Key, RetryContext>
    decreases |times|
  {
    if times == [] then m else PollAt(Tick(m, times[0], config), times[1..], config)
  }

  /** How many of those checks resend the descriptor of `k`. */
  function ResendsOf(m: map<Key, RetryContext>, times: seq<nat>, config: RetryConfig, k: Key): nat
    decreases |times|
  {
    if times == [] then 0
    else (if k in ResendKeys(m, times[0]) then 1 else 0) + ResendsOf(Tick(m, times[0], config), times[1..], config, k)
  }

  /** However often and whenever the monitor checks, a descriptor is resent
      at most as many times as the budget its entry holds. */
  lemma {:induction false} ResendsBoundedByBudget(m: map<Key, RetryContext>, times: seq<nat>,
                                                  config: RetryConfig, k: Key)
    ensures ResendsOf(m, times, config, k) <= if k in m then m[k].retryCounter as int else 0
    decreases |times|
  {
    if times != [] {
      var next := Tick(m, times[0], config);
      ResendsBoundedByBudget(next, times[1..], config, k);
      if k in next {
        TickSpendsBudget(m, times[0], config, k);
      }
    }
  }

  /** The table after checks at each of `times` as the source performs
      them (`retain` as written), with no event in between. */
  function PollAtAsWritten(m: map<Key, RetryContext>, times: seq<nat>, config: RetryConfig)
    : map<Key, RetryContext>
    decreases |times|
  {
    if times == [] then m else PollAtAsWritten(TickAsWritten(m, times[0], config), times[1..], config)
  }

  /** How many of those as-written checks resend the descriptor of `k`. */
  function ResendsOfAsWritten(m: map<Key, RetryContext>, times: seq<nat>, config: RetryConfig, k: Key): nat
    decreases |times|
  {
    if times == [] then 0
    else (if k in ResendKeys(m, times[0]) then 1 else 0)
         + ResendsOfAsWritten(TickAsWritten(m, times[0], config), times[1..], config, k)
  }

  /** The same bound for the checks as the source performs them: its
      `retain` only drops entries, so it cannot add a resend. */
  lemma {:induction false} ResendsBoundedByBudgetAsWritten(m: map<Key, RetryContext>, times: seq<nat>,
                                                           config: RetryConfig, k: Key)
    ensures ResendsOfAsWritten(m, times, config, k) <= if k in m then m[k].retryCounter as int else 0
    decreases |times|
  {
    if times != [] {
      var next := TickAsWritten(m, times[0], config);
      ResendsBoundedByBudgetAsWritten(next, times[1..], config, k);
    }
  }

  /** With at most one entry in the table the source's `retain` and the
      removal of exactly the exhausted entries agree: if anything is
      exhausted it is that entry, so no other entry can be dropped. */
  lemma SoleEntryAsWritten(m: map<Key, RetryContext>, now: nat, config: RetryConfig, k: Key)
    requires m.Keys <= {k}
    ensures TickAsWritten(m, now, config) == Tick(m, now, config)
  {
    if ExhaustedKeys(m, now) != {} {
      assert k in ExhaustedKeys(m, now);
    }
    AsWrittenIsIntendedMinusCollateral(m, now, config);
  }

  /** Hence repeated checks of a table with at most one entry give the same
      tables and the same resends whichever removal is performed. */
  lemma {:induction false} SoleEntryPollsAgree(m: map<Key, RetryContext>, times: seq<nat>, config: RetryConfig,
                                               k: Key)
    requires m.Keys <= {k}
    ensures PollAtAsWritten(m, times, config) == PollAt(m, times, config)
    ensures ResendsOfAsWritten(m, times, config, k) == ResendsOf(m, times, config, k)
    decreases |times|
  {
    if times != [] {
      SoleEntryAsWritten(m, times[0], config, k);
      SoleEntryPollsAgree(Tick(m, times[0], config), times[1..], config, k);
    }
  }

  /** The times `start`, `start + T`, …: `count` checks one timeout apart. */
  function Every(start: nat, period: nat, count: nat): (r: seq<nat>)
    ensures |r| == count
    ensures forall i :: 0 <= i < count ==> r[i] == start + i * period
    decreases count
  {
    if count == 0 then [] else [start] + Every(start + period, period, count - 1)
  }

  /** A sole entry checked at its deadline: resent while it has budget,
      otherwise removed and reported exhausted, by either removal. */
  lemma SoleEntryTick(k: Key, d: ToCardWorkRbDesc, c: u32, at: nat, config: RetryConfig)
    ensures TickAsWritten(map[k := RetryContext(d, c, at)], at, config)
            == Tick(map[k := RetryContext(d, c, at)], at, config)
    ensures c > 0 ==>
              && Tick(map[k := RetryContext(d, c, at)], at, config)
                 == map[k := RetryContext(d, c - 1, at + config.retryTimeout)]
              && ResendKeys(map[k := RetryContext(d, c, at)], at) == {k}
    ensures c == 0 ==>
              && Tick(map[k := RetryContext(d, c, at)], at, config) == map[]
              && ExhaustedKeys(map[k := RetryContext(d, c, at)], at) == {k}
  {
    var m := map[k := RetryContext(d, c, at)];
    SoleEntryAsWritten(m, at, config, k);
    if c == 0 {
      assert k in ExhaustedKeys(m, at);
    } else {
      assert k in ResendKeys(m, at);
    }
  }

  /** A sole exhausted entry fails its running user operation. */
  lemma SoleEntryFails(k: Key, d: ToCardWorkRbDesc, at: nat, u: map<Key, CtxStatus>)
    requires k in u && u[k].Running?
    ensures FailExhausted(u, map[k := RetryContext(d, 0, at)], at)[k] == Failed(MAX_RETRY_ERROR)
  {
    assert k in ExhaustedKeys(map[k := RetryContext(d, 0, at)], at);
  }

  /** `c` checks one timeout apart, the first at the deadline, spend the
      whole budget of a sole entry: `c` resends, and the entry is left with
      no budget and a deadline one timeout after the last check. */
  lemma {:induction false} SoleEntrySpendsBudget(k: Key, d: ToCardWorkRbDesc, c: u32, at: nat,
                                                 config: RetryConfig)
    ensures PollAt(map[k := RetryContext(d, c, at)], Every(at, config.retryTimeout, c as nat), config)
            == map[k := RetryContext(d, 0, at + c as nat * config.retryTimeout)]
    ensures ResendsOf(map[k := RetryContext(d, c, at)], Every(at, config.retryTimeout, c as nat), config, k)
            == c as nat
    decreases c
  {
    var T := config.retryTimeout;
    var times := Every(at, T, c as nat);
    if c > 0 {
      var m0 := map[k := RetryContext(d, c, at)];
      var next := at + T;
      var m1 := map[k := RetryContext(d, c - 1, next)];
      assert Tick(m0, at, config) == m1 && ResendKeys(m0, at) == {k} by {
        SoleEntryTick(k, d, c, at, config);
      }
      assert times[0] == at && times[1..] == Every(next, T, (c - 1) as nat);
      assert PollAt(m0, times, config) == PollAt(m1, times[1..], config);
      assert ResendsOf(m0, times, config, k) == 1 + ResendsOf(m1, times[1..], config, k);
      SoleEntrySpendsBudget(k, d, c - 1, next, config);
      assert next + (c - 1) as nat * T == at + c as nat * T by {
        assert (c - 1) as nat * T + T == c as nat * T;
      }
    }
  }

  /** A sole entry with budget `c`, checked once per timeout from its
      deadline `at`: `c` resends, then the check at `at + c * T` removes it
      and fails its running user operation. */
  lemma {:induction false} SoleEntryLifecycle(k: Key, d: ToCardWorkRbDesc, c: u32, at: nat, config: RetryConfig,
                                              u: map<Key, CtxStatus>)
    requires k in u && u[k].Running?
    ensures var m := map[k := RetryContext(d, c, at)];
            var polls := Every(at, config.retryTimeout, c as nat);
            var last := at + c as nat * config.retryTimeout;
            && ResendsOf(m, polls, config, k) == c as nat
            && PollAt(m, polls, config) == map[k := RetryContext(d, 0, last)]
            && Tick(PollAt(m, polls, config), last, config) == map[]
            && FailExhausted(u, PollAt(m, polls, config), last)[k] == Failed(MAX_RETRY_ERROR)
  {
    var last := at + c as nat * config.retryTimeout;
    SoleEntrySpendsBudget(k, d, c, at, config);
    SoleEntryTick(k, d, 0, last, config);
    SoleEntryFails(k, d, last, u);
  }

  /** The whole life of one watched descriptor (the scenario of the
      module's own test): a `Retry` event received at `t0` when the table
      holds nothing for its key; then one check per timeout. The first
      `maxRetry` checks resend the descriptor once each; the next one finds
      the entry exhausted, removes it and fails the user operation. */
  lemma {:induction false} RetryLifecycle(rec: RetryRecord, config: RetryConfig, t0: nat, u: map<Key, CtxStatus>)
    requires config.isEnable
    requires (rec.qpn, rec.msn) in u && u[(rec.qpn, rec.msn)].Running?
    ensures var k := (rec.qpn, rec.msn);
            var T := config.retryTimeout;
            var n := config.maxRetry as nat;
            var m := map[k := RetryContext(rec.descriptor, config.maxRetry, t0 + T)];
            var polls := Every(t0 + T, T, n);
            var last := t0 + T + n * T;
            && ApplyEvents(map[], [Retry(rec)], config, t0) == m
            && ResendsOf(m, polls, config, k) == n
            && PollAt(m, polls, config) == map[k := RetryContext(rec.descriptor, 0, last)]
            && Tick(PollAt(m, polls, config), last, config) == map[]
            && FailExhausted(u, PollAt(m, polls, config), last)[k] == Failed(MAX_RETRY_ERROR)
  {
    ReceiveOneRetry(map[], rec, config, t0);
    SoleEntryLifecycle((rec.qpn, rec.msn), rec.descriptor, config.maxRetry, t0 + config.retryTimeout, config, u);
  }

  /** The same spending of the budget by the checks as the source performs them. */
  lemma SoleEntrySpendsBudgetAsWritten(k: Key, d: ToCardWorkRbDesc, c: u32, at: nat, config: RetryConfig)
    ensures PollAtAsWritten(map[k := RetryContext(d, c, at)], Every(at, config.retryTimeout, c as nat), config)
            == map[k := RetryContext(d, 0, at + c as nat * config.retryTimeout)]
    ensures ResendsOfAsWritten(map[k := RetryContext(d, c, at)], Every(at, config.retryTimeout, c as nat),
                               config, k) == c as nat
  {
    SoleEntrySpendsBudget(k, d, c, at, config);
    SoleEntryPollsAgree(map[k := RetryContext(d, c, at)], Every(at, config.retryTimeout, c as nat), config, k);
  }

  /** The same life of a sole entry under the checks as the source
      performs them. */
  lemma {:induction false} SoleEntryLifecycleAsWritten(k: Key, d: ToCardWorkRbDesc, c: u32, at: nat,
                                                       config: RetryConfig, u: map<Key, CtxStatus>)
    requires k in u && u[k].Running?
    ensures var m := map[k := RetryContext(d, c, at)];
            var polls := Every(at, config.retryTimeout, c as nat);
            var last := at + c as nat * config.retryTimeout;
            && ResendsOfAsWritten(m, polls, config, k) == c as nat
            && PollAtAsWritten(m, polls, config) == map[k := RetryContext(d, 0, last)]
            && TickAsWritten(PollAtAsWritten(m, polls, config), last, config) == map[]
            && FailExhausted(u, PollAtAsWritten(m, polls, config), last)[k] == Failed(MAX_RETRY_ERROR)
  {
    var last := at + c as nat * config.retryTimeout;
    SoleEntrySpendsBudgetAsWritten(k, d, c, at, config);
    SoleEntryTick(k, d, 0, last, config);
    SoleEntryFails(k, d, last, u);
  }

  /** The life of one watched descriptor under the checks as the source
      performs them: `maxRetry` resends, then removal and failure. */
  lemma {:induction false} RetryLifecycleAsWritten(rec: RetryRecord, config: RetryConfig, t0: nat,
                                                   u: map<Key, CtxStatus>)
    requires config.isEnable
    requires (rec.qpn, rec.msn) in u && u[(rec.qpn, rec.msn)].Running?
    ensures var k := (rec.qpn, rec.msn);
            var T := config.retryTimeout;
            var n := config.maxRetry as nat;
            var m := map[k := RetryContext(rec.descriptor, config.maxRetry, t0 + T)];
            var polls := Every(t0 + T, T, n);
            var last := t0 + T + n * T;
            && ApplyEvents(map[], [Retry(rec)], config, t0) == m
            && ResendsOfAsWritten(m, polls, config, k) == n
            && PollAtAsWritten(m, polls, config) == map[k := RetryContext(rec.descriptor, 0, last)]
            && TickAsWritten(PollAtAsWritten(m, polls, config), last, config) == map[]
            && FailExhausted(u, PollAtAsWritten(m, polls, config), last)[k] == Failed(MAX_RETRY_ERROR)
  {
    ReceiveOneRetry(map[], rec, config, t0);
    SoleEntryLifecycleAsWritten((rec.qpn, rec.msn), rec.descriptor, config.maxRetry, t0 + config.retryTimeout,
                                config, u);
  }



  /** The module's own test: budget 3, a timeout of 1000 ms, a `Retry`
      received at time 0, checks at 1000, 2000 and 3000 ms resend once each,
      and the check at 4000 ms fails the running operation. */
  lemma MonitorTestScenario(rec: RetryRecord)
    ensures var config := NewRetryConfig(true, 3, Duration(1, 0), Duration(0, 10_000_000));
            var k := (rec.qpn, rec.msn);
            var m := ApplyEvents(map[], [Retry(rec)], config, 0);
            var u := map[k := Running];
            && ResendsOf(m, [1000], config, k) == 1
            && ResendsOf(m, [1000, 2000], config, k) == 2
            && ResendsOf(m, [1000, 2000, 3000], config, k) == 3
            && PollAt(m, [1000, 2000, 3000, 4000], config) == map[]
            && FailExhausted(u, PollAt(m, [1000, 2000, 3000], config), 4000)[k] == Failed(MAX_RETRY_ERROR)
            && ResendsOfAsWritten(m, [1000, 2000, 3000], config, k) == 3
            && PollAtAsWritten(m, [1000, 2000, 3000, 4000], config) == map[]
  {
    var config := NewRetryConfig(true, 3, Duration(1, 0), Duration(0, 10_000_000));
    var k := (rec.qpn, rec.msn);
    var d := rec.descriptor;
    var u := map[k := Running];
    ReceiveOneRetry(map[], rec, config, 0);
    assert FreshContext(rec, config, 0) == RetryContext(d, 3, 1000);
    SoleEntryTick(k, d, 3, 1000, config);
    SoleEntryTick(k, d, 2, 2000, config);
    SoleEntryTick(k, d, 1, 3000, config);
    SoleEntryTick(k, d, 0, 4000, config);
    SoleEntryFails(k, d, 4000, u);
    assert [1000, 2000][1..] == [2000];
    assert [1000, 2000, 3000][1..] == [2000, 3000];
    assert [2000, 3000][1..] == [3000];
    assert [1000, 2000, 3000, 4000][1..] == [2000, 3000, 4000];
    assert [2000, 3000, 4000][1..] == [3000, 4000];
    assert [3000, 4000][1..] == [4000];
    var m := ApplyEvents(map[], [Retry(rec)], config, 0);
    SoleEntryPollsAgree(m, [1000, 2000, 3000], config, k);
    SoleEntryPollsAgree(m, [1000, 2000, 3000, 4000], config, k);
  }

  // ---------------------------------------------------------------------
  // The `retain` of `check_timeout`

  /** The entries the source's `retain` drops although this pass did not
      find them exhausted: once any entry is exhausted, every other entry
      left with a zero counter (spent by the resend of this very pass, or
      spent earlier and not yet due). */
  function Collateral(m: map<Key, RetryContext>, now: nat, config: RetryConfig): set<Key>
  {
    if ExhaustedKeys(m, now) == {} then {}
    else set k | k in m && !Exhausted(m[k], now) && StepEntry(m[k], now, config).retryCounter == 0
  }

  /** The source's removal is the intended one minus the collateral
      entries; the two agree exactly when there is no collateral entry. */
  lemma AsWrittenIsIntendedMinusCollateral(m: map<Key, RetryContext>, now: nat, config: RetryConfig)
    ensures TickAsWritten(m, now, config)
            == map k | k in Tick(m, now, config) && k !in Collateral(m, now, config) :: Tick(m, now, config)[k]
    ensures Collateral(m, now, config) == {} <==> TickAsWritten(m, now, config) == Tick(m, now, config)
  {
    var c := Collateral(m, now, config);
    if c != {} {
      var k :| k in c;
      assert k in Tick(m, now, config) && k !in TickAsWritten(m, now, config);
    }
  }

  /** A collateral entry is gone from the table, yet its user operation is
      not failed: nothing will ever complete it. */
  lemma CollateralNeverFailed(u: map<Key, CtxStatus>, m: map<Key, RetryContext>, now: nat, config: RetryConfig,
                              k: Key)
    requires k in Collateral(m, now, config) && k in u
    ensures k !in TickAsWritten(m, now, config)
    ensures FailExhausted(u, m, now)[k] == u[k]
  {
  }

  /** Two operations of one queue pair, both due at time 0 with a timeout of
      1000 ms: the first has no budget, the second one resend left. */
  function CounterexampleTable(d: ToCardWorkRbDesc): map<Key, RetryContext>
  {
    map[(0, 0) := RetryContext(d, 0, 0), (0, 1) := RetryContext(d, 1, 0)]
  }

  /** On that table the source's pass resends the second descriptor, then
      drops both entries while failing only the first operation: the second
      stays running with no entry left to time it out. Removing only the
      exhausted entry keeps the second, due again at 1000 ms. */
  lemma RetainDropsUnfailedEntry(d: ToCardWorkRbDesc)
    ensures var config := RetryConfig(true, 3, 1000, Duration(0, 10_000_000));
            var m := CounterexampleTable(d);
            var u := map[(0, 0) := Running, (0, 1) := Running];
            && ResendKeys(m, 0) == {(0, 1)}
            && TickAsWritten(m, 0, config) == map[]
            && FailExhausted(u, m, 0) == map[(0, 0) := Failed(MAX_RETRY_ERROR), (0, 1) := Running]
            && Tick(m, 0, config) == map[(0, 1) := RetryContext(d, 0, 1000)]
  {
    var config := RetryConfig(true, 3, 1000, Duration(0, 10_000_000));
    var m := CounterexampleTable(d);
    var k1: Key := (0, 0);
    var k2: Key := (0, 1);
    assert k1 != k2;
    assert k1 in ExhaustedKeys(m, 0);
    assert ExhaustedKeys(m, 0) == {k1};
    assert k2 in ResendKeys(m, 0);
    assert ResendKeys(m, 0) == {k2};
  }
}
