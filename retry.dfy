/** The retry monitor: a table of in-flight work descriptors keyed by queue
    pair and message sequence number, fed by `Retry`/`Cancel` events over a
    channel, and advanced once per iteration of the monitor thread by a
    timeout check that resends overdue descriptors while their budget lasts
    and fails the user's operation once it is spent. The pure functions
    below specify each step; the classes carry the state the source updates
    in place. */
module Retry {
  import opened Types
  import opened Descriptors

  /** A retry entry is identified by `(qpn, msn)`. */
  type Key = (Qpn, Msn)

  type Nanos = n: nat | n < 1_000_000_000

  /** A `std::time::Duration`: whole seconds and the nanoseconds below one second. */
  datatype Duration = Duration(secs: nat, nanos: Nanos)

  /** `Duration::as_millis`: whole milliseconds, rounded down. */
  function AsMillis(d: Duration): (ms: nat)
    ensures ms * 1_000_000 <= d.secs * 1_000_000_000 + d.nanos < (ms + 1) * 1_000_000
  {
    d.secs * 1000 + d.nanos / 1_000_000
  }

  /** `RetryConfig`: the budget and the timeout (held in milliseconds). */
  datatype RetryConfig = RetryConfig(isEnable: bool, maxRetry: u32, retryTimeout: nat, checkingInterval: Duration)

  /** `RetryConfig::new`: the timeout is converted to whole milliseconds;
      everything else is kept as given. */
  function NewRetryConfig(isEnable: bool, maxRetry: u32, retryTimeout: Duration, checkingInterval: Duration)
    : (c: RetryConfig)
    ensures c.isEnable == isEnable && c.maxRetry == maxRetry && c.checkingInterval == checkingInterval
    ensures c.retryTimeout * 1_000_000 <= retryTimeout.secs * 1_000_000_000 + retryTimeout.nanos
    ensures retryTimeout.secs * 1_000_000_000 + retryTimeout.nanos < (c.retryTimeout + 1) * 1_000_000
  {
    RetryConfig(isEnable, maxRetry, AsMillis(retryTimeout), checkingInterval)
  }

  /** `RetryContext`: the descriptor to resend, the resends left, and the
      time (in milliseconds) at which the next resend is due. */
  datatype RetryContext = RetryContext(descriptor: ToCardWorkRbDesc, retryCounter: u32, nextTimeout: nat)

  /** `RetryRecord`: a descriptor just sent, to be watched. */
  datatype RetryRecord = RetryRecord(descriptor: ToCardWorkRbDesc, qpn: Qpn, msn: Msn)

  /** `RetryEvent`: start watching a descriptor, or stop. */
  datatype RetryEvent = Retry(record: RetryRecord) | Cancel(qpn: Qpn, msn: Msn)

  function EventKey(e: RetryEvent): Key
  {
    match e
    case Retry(rec) => (rec.qpn, rec.msn)
    case Cancel(qpn, msn) => (qpn, msn)
  }

  /** The context `handle_retry` stores at time `now`: a full budget and a
      deadline one timeout away. */
  function FreshContext(rec: RetryRecord, config: RetryConfig, now: nat): RetryContext
  {
    RetryContext(rec.descriptor, config.maxRetry, now + config.retryTimeout)
  }

  /** The effect of one received event on the table (`check_receive`'s loop
      body): nothing when retrying is disabled; otherwise a `Retry` stores a
      fresh context under its key, replacing any earlier one, and a `Cancel`
      removes its key if present. No other key is touched. */
  function ApplyEvent(m: map<Key, RetryContext>, e: RetryEvent, config: RetryConfig, now: nat)
    : (r: map<Key, RetryContext>)
    ensures !config.isEnable ==> r == m
    ensures config.isEnable && e.Retry? ==>
              EventKey(e) in r && r[EventKey(e)] == FreshContext(e.record, config, now)
    ensures config.isEnable && e.Cancel? ==> EventKey(e) !in r
    ensures config.isEnable && e.Cancel? && EventKey(e) !in m ==> r == m
    ensures forall k :: k != EventKey(e) ==> (k in r <==> k in m) && (k in m ==> r[k] == m[k])
  {
    if !config.isEnable then m
    else match e
      case Retry(rec) => m[(rec.qpn, rec.msn) := FreshContext(rec, config, now)]
      case Cancel(qpn, msn) => m - {(qpn, msn)}
  }

  /** The keys of the `Retry` events among `events`. */
  function RetriedKeys(events: seq<RetryEvent>): set<Key>
    decreases |events|
  {
    if events == [] then {}
    else (if events[0].Retry? then {EventKey(events[0])} else {}) + RetriedKeys(events[1..])
  }

  /** The table after `check_receive` has consumed `events` in order: with
      retrying disabled it is unchanged, and the only keys it gains are
      those of `Retry` events. */
  function ApplyEvents(m: map<Key, RetryContext>, events: seq<RetryEvent>, config: RetryConfig, now: nat)
    : (r: map<Key, RetryContext>)
    ensures !config.isEnable ==> r == m
    ensures r.Keys <= m.Keys + RetriedKeys(events)
    decreases |events|
  {
    if events == [] then m
    else ApplyEvents(ApplyEvent(m, events[0], config, now), events[1..], config, now)
  }

  /** Consuming more events continues from where the earlier ones left the table. */
  lemma {:induction false} ApplyEventsAppend(m: map<Key, RetryContext>, a: seq<RetryEvent>, b: seq<RetryEvent>,
                                             config: RetryConfig, now: nat)
    ensures ApplyEvents(m, a + b, config, now) == ApplyEvents(ApplyEvents(m, a, config, now), b, config, now)
    decreases |a|
  {
    if a == [] {
      assert a + b == b;
    } else {
      assert (a + b)[0] == a[0] && (a + b)[1..] == a[1..] + b;
      ApplyEventsAppend(ApplyEvent(m, a[0], config, now), a[1..], b, config, now);
    }
  }

  /** Consuming one more event applies it to the table the earlier ones left. */
  lemma ApplyEventsSnoc(m: map<Key, RetryContext>, events: seq<RetryEvent>, e: RetryEvent, config: RetryConfig,
                        now: nat)
    ensures ApplyEvents(m, events + [e], config, now) == ApplyEvent(ApplyEvents(m, events, config, now), e, config, now)
  {
    ApplyEventsAppend(m, events, [e], config, now);
    assert [e][1..] == [];
  }

  /** An entry is due once its deadline is reached. */
  predicate Due(c: RetryContext, now: nat)
  {
    c.nextTimeout <= now
  }

  /** Due with no resend left: the operation has failed. */
  predicate Exhausted(c: RetryContext, now: nat)
  {
    Due(c, now) && c.retryCounter == 0
  }

  /** What one pass of `check_timeout`'s loop does to one entry: a due entry
      with budget left loses one unit and gets a new deadline; any other
      entry is left as it is. */
  function StepEntry(c: RetryContext, now: nat, config: RetryConfig): (r: RetryContext)
    ensures r.descriptor == c.descriptor
    ensures Due(c, now) && c.retryCounter > 0 ==>
              r.retryCounter == c.retryCounter - 1 && r.nextTimeout == now + config.retryTimeout
    ensures !(Due(c, now) && c.retryCounter > 0) ==> r == c
  {
    if Due(c, now) && c.retryCounter > 0 then
      c.(retryCounter := c.retryCounter - 1, nextTimeout := now + config.retryTimeout)
    else c
  }

  /** The table after the loop of `check_timeout`, before the final `retain`. */
  function Stepped(m: map<Key, RetryContext>, now: nat, config: RetryConfig): map<Key, RetryContext>
  {
    map k | k in m :: StepEntry(m[k], now, config)
  }

  /** The keys whose descriptor `check_timeout` resends. */
  function ResendKeys(m: map<Key, RetryContext>, now: nat): set<Key>
  {
    set k | k in m && Due(m[k], now) && m[k].retryCounter > 0
  }

  /** The keys `check_timeout` finds exhausted (and whose user operation it fails). */
  function ExhaustedKeys(m: map<Key, RetryContext>, now: nat): set<Key>
  {
    set k | k in m && Exhausted(m[k], now)
  }

  /** The entries with budget left. */
  function WithBudget(m: map<Key, RetryContext>): (r: map<Key, RetryContext>)
    ensures forall k :: k in r <==> k in m && m[k].retryCounter != 0
    ensures forall k :: k in r ==> r[k] == m[k]
  {
    map k | k in m && m[k].retryCounter != 0 :: m[k]
  }

  /** `check_timeout` as written: after the loop, if any entry was found
      exhausted, every entry whose counter is 0 is dropped, including those
      that reached 0 in this very pass and those still waiting for their
      deadline, whose user operations are then never failed. */
  function TickAsWritten(m: map<Key, RetryContext>, now: nat, config: RetryConfig): (r: map<Key, RetryContext>)
    ensures forall k :: k in r ==> k in m && r[k] == StepEntry(m[k], now, config)
    ensures forall k :: k in m ==>
              (k in r <==> ExhaustedKeys(m, now) == {} || StepEntry(m[k], now, config).retryCounter != 0)
  {
    if ExhaustedKeys(m, now) != {} then WithBudget(Stepped(m, now, config)) else Stepped(m, now, config)
  }

  /** `set_error` on the user contexts of the given keys; other contexts,
      and keys with no user context, are left alone. */
  function FailKeys(user: map<Key, CtxStatus>, keys: set<Key>): (r: map<Key, CtxStatus>)
    ensures r.Keys == user.Keys
    ensures forall k :: k in user && k in keys ==> r[k] == SetError(user[k], MAX_RETRY_ERROR)
    ensures forall k :: k in user && k !in keys ==> r[k] == user[k]
  {
    map k | k in user :: if k in keys then SetError(user[k], MAX_RETRY_ERROR) else user[k]
  }

  const MAX_RETRY_ERROR: string := "exceed max retry count"

  /** The user contexts after `check_timeout`: `set_error` on each one
      whose entry was found exhausted, every other one left alone. */
  function FailExhausted(user: map<Key, CtxStatus>, m: map<Key, RetryContext>, now: nat)
    : (r: map<Key, CtxStatus>)
    ensures r.Keys == user.Keys
    ensures forall k :: k in user ==>
              r[k] == if k in m && Exhausted(m[k], now) then SetError(user[k], MAX_RETRY_ERROR) else user[k]
  {
    FailKeys(user, ExhaustedKeys(m, now))
  }

  /** The descriptors of the keys in `order`, in that order. */
  function DescriptorsOf(m: map<Key, RetryContext>, order: seq<Key>): (r: seq<ToCardWorkRbDesc>)
    requires forall i :: 0 <= i < |order| ==> order[i] in m
    ensures |r| == |order|
    ensures forall i :: 0 <= i < |order| ==> r[i] == m[order[i]].descriptor
  {
    if order == [] then [] else [m[order[0]].descriptor] + DescriptorsOf(m, order[1..])
  }

  /** `check_timeout` as its comment describes it: every entry is stepped
      and exactly the entries found exhausted, whose user operations are
      failed, are removed. */
  function Tick(m: map<Key, RetryContext>, now: nat, config: RetryConfig): (r: map<Key, RetryContext>)
    ensures forall k :: k in r <==> k in m && !Exhausted(m[k], now)
    ensures forall k :: k in r ==> r[k] == StepEntry(m[k], now, config)
  {
    map k | k in m && k !in ExhaustedKeys(m, now) :: StepEntry(m[k], now, config)
  }

  /** The queue of a `flume` channel: events sent and not yet received, and
      whether the receiving side still exists. */
  class Channel {
    var queue: seq<RetryEvent>
    var receiverAlive: bool

    constructor ()
      ensures queue == [] && receiverAlive
    {
      queue := [];
      receiverAlive := true;
    }

    /** `send`: fails exactly when the receiver is gone. */
    method Send(e: RetryEvent) returns (ok: bool)
      modifies this`queue
      ensures ok == receiverAlive
      ensures queue == if ok then old(queue) + [e] else old(queue)
    {
      ok := receiverAlive;
      if ok {
        queue := queue + [e];
      }
    }

    /** `try_recv`: the oldest queued event, or nothing. */
    method TryRecv() returns (r: Option<RetryEvent>)
      modifies this`queue
      ensures r.None? <==> old(queue) == []
      ensures r.Some? ==> r.value == old(queue)[0] && queue == old(queue)[1..]
      ensures r.None? ==> queue == old(queue)
    {
      if queue == [] {
        r := None;
      } else {
        r := Some(queue[0]);
        queue := queue[1..];
      }
    }
  }

  /** The handle other threads use to reach the monitor. */
  class RetryMonitor {
    const sender: Channel

    constructor (sender: Channel)
      ensures this.sender == sender
    {
      this.sender := sender;
    }

    /** `subscribe`: queues the event; a closed channel is reported as
        `ResourceNoAvailable` and queues nothing. */
    method Subscribe(event: RetryEvent) returns (r: Result<(), Error>)
      modifies sender`queue
      ensures r.Ok? <==> sender.receiverAlive
      ensures r.Err? ==> r.error == ResourceNoAvailable
      ensures sender.queue == if r.Ok? then old(sender.queue) + [event] else old(sender.queue)
    {
      var ok := sender.Send(event);
      if !ok {
        return Err(ResourceNoAvailable);
      }
      r := Ok(());
    }
  }

  /** `RetryMonitorContext`: the table, the receiving end of the event
      channel, the user operation contexts, and the record of every
      descriptor handed to `send_work_desc` (whose result the monitor
      ignores, so a failed send still spends the budget). */
  class RetryMonitorContext {
    var ctxMap: map<Key, RetryContext>
    const receiver: Channel
    var userOpCtxMap: map<Key, CtxStatus>
    var sent: seq<ToCardWorkRbDesc>
    const config: RetryConfig

    constructor (receiver: Channel, userOpCtxMap: map<Key, CtxStatus>, config: RetryConfig)
      ensures ctxMap == map[] && this.receiver == receiver && this.userOpCtxMap == userOpCtxMap
      ensures sent == [] && this.config == config
    {
      ctxMap := map[];
      this.receiver := receiver;
      this.userOpCtxMap := userOpCtxMap;
      sent := [];
      this.config := config;
    }

    /** `handle_retry` at time `now`; `duplicate` reports that an entry
        for the key was replaced. */
    method HandleRetry(record: RetryRecord, now: nat) returns (duplicate: bool)
      modifies this`ctxMap
      ensures duplicate <==> (record.qpn, record.msn) in old(ctxMap)
      ensures ctxMap == old(ctxMap)[(record.qpn, record.msn) := FreshContext(record, config, now)]
    {
      var key := (record.qpn, record.msn);
      duplicate := key in ctxMap;
      ctxMap := ctxMap[key := FreshContext(record, config, now)];
    }

    /** `handle_cancel`; `missing` reports that there was nothing to remove. */
    method HandleCancel(qpn: Qpn, msn: Msn) returns (missing: bool)
      modifies this`ctxMap
      ensures missing <==> (qpn, msn) !in old(ctxMap)
      ensures ctxMap == old(ctxMap) - {(qpn, msn)}
    {
      var key := (qpn, msn);
      missing := key !in ctxMap;
      ctxMap := ctxMap - {key};
    }

    /** `check_receive` at time `now`: drains the channel, applying each
        event in order when retrying is enabled. */
    method CheckReceive(now: nat)
      modifies this`ctxMap, receiver`queue
      ensures receiver.queue == []
      ensures ctxMap == ApplyEvents(old(ctxMap), old(receiver.queue), config, now)
    {
      ghost var q0 := receiver.queue;
      ghost var m0 := ctxMap;
      ghost var done: seq<RetryEvent> := [];
      var record := receiver.TryRecv();
      while record.Some?
        invariant record.Some? ==> q0 == done + [record.value] + receiver.queue
        invariant record.Some? ==> ctxMap == ApplyEvents(m0, done, config, now)
        invariant record.None? ==> receiver.queue == [] && ctxMap == ApplyEvents(m0, q0, config, now)
        decreases |receiver.queue|, record.Some?
      {
        ghost var before := ctxMap;
        ghost var rest := receiver.queue;
        if config.isEnable {
          match record.value
          case Retry(rec) =>
            var _ := HandleRetry(rec, now);
            assert ctxMap == ApplyEvent(before, Retry(rec), config, now);
          case Cancel(qpn, msn) =>
            var _ := HandleCancel(qpn, msn);
            assert ctxMap == ApplyEvent(before, Cancel(qpn, msn), config, now);
        }
        ApplyEventsSnoc(m0, done, record.value, config, now);
        done := done + [record.value];
        assert q0 == done + rest;
        record := receiver.TryRecv();
        if record.Some? {
          assert rest == [record.value] + receiver.queue;
          assert q0 == done + [record.value] + receiver.queue;
        } else {
          assert q0 == done;
        }
      }
    }

    /** `check_timeout` at time `now`, with the final removal corrected to
        drop exactly the entries found exhausted (see `TickAsWritten` for the
        `retain` the source performs). The loop visits the entries in an
        unspecified order (that of the hash map); `order` is the order in
        which it resent descriptors: each key of `ResendKeys` exactly once. */
    method CheckTimeout(now: nat) returns (ghost order: seq<Key>)
      modifies this`ctxMap, this`userOpCtxMap, this`sent
      ensures ctxMap == Tick(old(ctxMap), now, config)
      ensures userOpCtxMap == FailExhausted(old(userOpCtxMap), old(ctxMap), now)
      ensures forall k :: k in order <==> k in ResendKeys(old(ctxMap), now)
      ensures forall i, j :: 0 <= i < j < |order| ==> order[i] != order[j]
      ensures forall i :: 0 <= i < |order| ==> order[i] in old(ctxMap)
      ensures sent == old(sent) + DescriptorsOf(old(ctxMap), order)
    {
      var m, u, resent, exhausted, hasRemoved;
      m, u, resent, order, exhausted, hasRemoved := TimeoutPass(ctxMap, userOpCtxMap, now, config);
      if hasRemoved {
        m := map k | k in m && k !in exhausted :: m[k];
      }
      ctxMap, userOpCtxMap, sent := m, u, sent + resent;
    }

    /** `check_timeout` at time `now` as the source performs it: the same
        loop, then, if some entry was found exhausted, the `retain` that
        keeps only the entries with a non-zero counter. */
    method CheckTimeoutAsWritten(now: nat) returns (ghost order: seq<Key>)
      modifies this`ctxMap, this`userOpCtxMap, this`sent
      ensures ctxMap == TickAsWritten(old(ctxMap), now, config)
      ensures userOpCtxMap == FailExhausted(old(userOpCtxMap), old(ctxMap), now)
      ensures forall k :: k in order <==> k in ResendKeys(old(ctxMap), now)
      ensures forall i, j :: 0 <= i < j < |order| ==> order[i] != order[j]
      ensures forall i :: 0 <= i < |order| ==> order[i] in old(ctxMap)
      ensures sent == old(sent) + DescriptorsOf(old(ctxMap), order)
    {
      var m, u, resent, exhausted, hasRemoved;
      m, u, resent, order, exhausted, hasRemoved := TimeoutPass(ctxMap, userOpCtxMap, now, config);
      if hasRemoved {
        m := WithBudget(m);
      }
      ctxMap, userOpCtxMap, sent := m, u, sent + resent;
    }

    /** One iteration of the monitor thread at time `now` as the source
        performs it: receive, then `CheckTimeoutAsWritten`. `order` is the
        order of the resends. */
    method StepAsWritten(now: nat) returns (ghost order: seq<Key>)
      modifies this`ctxMap, this`userOpCtxMap, this`sent, receiver`queue
      ensures receiver.queue == []
      ensures var m1 := ApplyEvents(old(ctxMap), old(receiver.queue), config, now);
              && ctxMap == TickAsWritten(m1, now, config)
              && userOpCtxMap == FailExhausted(old(userOpCtxMap), m1, now)
              && (forall k :: k in order <==> k in ResendKeys(m1, now))
              && (forall i, j :: 0 <= i < j < |order| ==> order[i] != order[j])
              && (forall i :: 0 <= i < |order| ==> order[i] in m1)
              && |order| == |ResendKeys(m1, now)|
              && sent == old(sent) + DescriptorsOf(m1, order)
    {
      CheckReceive(now);
      ghost var m1 := ctxMap;
      order := CheckTimeoutAsWritten(now);
      DistinctKeysCount(order, ResendKeys(m1, now));
    }

    /** One iteration of the monitor thread with the corrected removal:
        receive, then `CheckTimeout`. `order` is the order of the resends. */
    method Step(now: nat) returns (ghost order: seq<Key>)
      modifies this`ctxMap, this`userOpCtxMap, this`sent, receiver`queue
      ensures receiver.queue == []
      ensures var m1 := ApplyEvents(old(ctxMap), old(receiver.queue), config, now);
              && ctxMap == Tick(m1, now, config)
              && userOpCtxMap == FailExhausted(old(userOpCtxMap), m1, now)
              && (forall k :: k in order <==> k in ResendKeys(m1, now))
              && (forall i, j :: 0 <= i < j < |order| ==> order[i] != order[j])
              && (forall i :: 0 <= i < |order| ==> order[i] in m1)
              && |order| == |ResendKeys(m1, now)|
              && sent == old(sent) + DescriptorsOf(m1, order)
    {
      CheckReceive(now);
      ghost var m1 := ctxMap;
      order := CheckTimeout(now);
      DistinctKeysCount(order, ResendKeys(m1, now));
    }
  }

  /** The loop of `check_timeout` has stepped exactly the entries it has
      visited, those not in `remaining`. */
  ghost predicate VisitedStepped(m0: map<Key, RetryContext>, m: map<Key, RetryContext>, remaining: set<Key>,
                                 now: nat, config: RetryConfig)
  {
    && m.Keys == m0.Keys
    && forall k :: k in m0 ==> m[k] == if k in remaining then m0[k] else StepEntry(m0[k], now, config)
  }

  /** `failed` holds exactly the visited entries found exhausted. */
  ghost predicate VisitedFailed(m0: map<Key, RetryContext>, failed: set<Key>, remaining: set<Key>, now: nat)
  {
    forall k :: k in failed <==> k in m0 && k !in remaining && Exhausted(m0[k], now)
  }

  /** `order` lists, without repetition, exactly the visited entries resent. */
  ghost predicate VisitedResent(m0: map<Key, RetryContext>, order: seq<Key>, remaining: set<Key>, now: nat)
  {
    && (forall k :: k in order <==> k in m0 && k !in remaining && k in ResendKeys(m0, now))
    && (forall i, j :: 0 <= i < j < |order| ==> order[i] != order[j])
    && (forall i :: 0 <= i < |order| ==> order[i] in m0)
  }

  lemma VisitStepsEntry(m0: map<Key, RetryContext>, m: map<Key, RetryContext>, remaining: set<Key>, key: Key,
                        now: nat, config: RetryConfig)
    requires VisitedStepped(m0, m, remaining, now, config) && key in remaining && remaining <= m0.Keys
    ensures key in m && m[key] == m0[key]
    ensures VisitedStepped(m0, m[key := StepEntry(m[key], now, config)], remaining - {key}, now, config)
  {
  }

  lemma VisitFails(m0: map<Key, RetryContext>, failed: set<Key>, remaining: set<Key>, key: Key, now: nat)
    requires VisitedFailed(m0, failed, remaining, now) && key in remaining && remaining <= m0.Keys
    requires Exhausted(m0[key], now)
    ensures key !in failed
    ensures VisitedFailed(m0, failed + {key}, remaining - {key}, now)
  {
  }

  lemma VisitKeepsFailed(m0: map<Key, RetryContext>, failed: set<Key>, remaining: set<Key>, key: Key, now: nat)
    requires VisitedFailed(m0, failed, remaining, now) && key in remaining && remaining <= m0.Keys
    requires !Exhausted(m0[key], now)
    ensures VisitedFailed(m0, failed, remaining - {key}, now)
  {
  }

  lemma VisitResends(m0: map<Key, RetryContext>, order: seq<Key>, remaining: set<Key>, key: Key, now: nat)
    requires VisitedResent(m0, order, remaining, now) && key in remaining && remaining <= m0.Keys
    requires key in ResendKeys(m0, now)
    ensures VisitedResent(m0, order + [key], remaining - {key}, now)
  {
    assert key !in order;
  }

  lemma VisitKeepsResent(m0: map<Key, RetryContext>, order: seq<Key>, remaining: set<Key>, key: Key, now: nat)
    requires VisitedResent(m0, order, remaining, now) && key in remaining && remaining <= m0.Keys
    requires key !in ResendKeys(m0, now)
    ensures VisitedResent(m0, order, remaining - {key}, now)
  {
  }

  /** The loop of `check_timeout` over the table `m0` and the user contexts
      `u0`: every entry is stepped, the user operation of every exhausted
      entry is failed, and the descriptor of every entry due with budget left
      is resent, in the order `order`. `hasRemoved` records that some entry
      was found exhausted. */
  method TimeoutPass(m0: map<Key, RetryContext>, u0: map<Key, CtxStatus>, now: nat, config: RetryConfig)
    returns (m: map<Key, RetryContext>, u: map<Key, CtxStatus>, resent: seq<ToCardWorkRbDesc>,
             ghost order: seq<Key>, exhausted: set<Key>, hasRemoved: bool)
    ensures m == Stepped(m0, now, config)
    ensures u == FailExhausted(u0, m0, now)
    ensures exhausted == ExhaustedKeys(m0, now)
    ensures hasRemoved <==> exhausted != {}
    ensures forall k :: k in order <==> k in ResendKeys(m0, now)
    ensures forall i, j :: 0 <= i < j < |order| ==> order[i] != order[j]
    ensures forall i :: 0 <= i < |order| ==> order[i] in m0
    ensures resent == DescriptorsOf(m0, order)
  {
    m, u, resent := m0, u0, [];
    order := [];
    exhausted := {};
    hasRemoved := false;
    var remaining := m.Keys;
    while remaining != {}
      invariant TimeoutLoop(m0, PassState(m, u, resent, exhausted, order, remaining, hasRemoved), u0, now, config)
      decreases |remaining|
    {
      ghost var st := PassState(m, u, resent, exhausted, order, remaining, hasRemoved);
      var key :| key in remaining;
      var ctx := m[key];
      if ctx.nextTimeout <= now {
        if ctx.retryCounter > 0 {
          m := m[key := ctx.(retryCounter := ctx.retryCounter - 1,
                             nextTimeout := now + config.retryTimeout)];
          resent := resent + [ctx.descriptor];
          order := order + [key];
        } else {
          hasRemoved := true;
          if key in u {
            u := u[key := SetError(u[key], MAX_RETRY_ERROR)];
          }
          exhausted := exhausted + {key};
        }
      }
      remaining := remaining - {key};
      Visit(m0, u0, st, PassState(m, u, resent, exhausted, order, remaining, hasRemoved), key, now, config);
    }
    VisitedAll(m0, m, exhausted, order, now, config);
  }

  /** The state of the loop of `check_timeout`. */
  datatype PassState = PassState(
    m: map<Key, RetryContext>,
    u: map<Key, CtxStatus>,
    resent: seq<ToCardWorkRbDesc>,
    failed: set<Key>,
    order: seq<Key>,
    remaining: set<Key>,
    hasRemoved: bool)

  /** The invariant of the loop of `check_timeout`, which has visited the
      entries of `m0` not in `remaining`. */
  ghost predicate TimeoutLoop(m0: map<Key, RetryContext>, st: PassState, u0: map<Key, CtxStatus>,
                              now: nat, config: RetryConfig)
  {
    && st.remaining <= m0.Keys
    && VisitedStepped(m0, st.m, st.remaining, now, config)
    && VisitedFailed(m0, st.failed, st.remaining, now)
    && (st.hasRemoved <==> st.failed != {})
    && st.u == FailKeys(u0, st.failed)
    && VisitedResent(m0, st.order, st.remaining, now)
    && st.resent == DescriptorsOf(m0, st.order)
  }

  /** One iteration of the loop of `check_timeout` on the entry `key`: a due
      entry with budget left is resent, a due entry without budget fails its
      user operation, an entry not yet due is left alone. */
  lemma Visit(m0: map<Key, RetryContext>, u0: map<Key, CtxStatus>, st: PassState, st': PassState, key: Key,
              now: nat, config: RetryConfig)
    requires TimeoutLoop(m0, st, u0, now, config)
    requires key in st.remaining
    requires st'.remaining == st.remaining - {key}
    requires Due(st.m[key], now) && st.m[key].retryCounter > 0 ==>
               && st'.m == st.m[key := st.m[key].(retryCounter := st.m[key].retryCounter - 1,
                                                  nextTimeout := now + config.retryTimeout)]
               && st'.resent == st.resent + [st.m[key].descriptor]
               && st'.order == st.order + [key]
               && st'.(m := st.m, resent := st.resent, order := st.order, remaining := st.remaining) == st
    requires Exhausted(st.m[key], now) ==>
               && st'.u == (if key in st.u then st.u[key := SetError(st.u[key], MAX_RETRY_ERROR)] else st.u)
               && st'.failed == st.failed + {key}
               && st'.hasRemoved
               && st'.(u := st.u, failed := st.failed, hasRemoved := st.hasRemoved, remaining := st.remaining) == st
    requires !Due(st.m[key], now) ==> st'.(remaining := st.remaining) == st
    ensures TimeoutLoop(m0, st', u0, now, config)
  {
    VisitStepsEntry(m0, st.m, st.remaining, key, now, config);
    if Due(st.m[key], now) && st.m[key].retryCounter > 0 {
      DescriptorsSnoc(m0, st.order, key);
      VisitResends(m0, st.order, st.remaining, key, now);
      VisitKeepsFailed(m0, st.failed, st.remaining, key, now);
    } else if Exhausted(st.m[key], now) {
      FailKeysAdd(u0, st.failed, key);
      VisitFails(m0, st.failed, st.remaining, key, now);
      VisitKeepsResent(m0, st.order, st.remaining, key, now);
    } else {
      VisitKeepsFailed(m0, st.failed, st.remaining, key, now);
      VisitKeepsResent(m0, st.order, st.remaining, key, now);
    }
  }

  /** When every entry has been visited, the table is `Stepped`, the failed
      keys are the exhausted ones and `order` lists the resent ones. */
  lemma VisitedAll(m0: map<Key, RetryContext>, m: map<Key, RetryContext>, failed: set<Key>, order: seq<Key>,
                   now: nat, config: RetryConfig)
    requires VisitedStepped(m0, m, {}, now, config)
    requires VisitedFailed(m0, failed, {}, now)
    requires VisitedResent(m0, order, {}, now)
    ensures m == Stepped(m0, now, config)
    ensures failed == ExhaustedKeys(m0, now)
    ensures forall k :: k in order <==> k in ResendKeys(m0, now)
    ensures forall i, j :: 0 <= i < j < |order| ==> order[i] != order[j]
    ensures forall i :: 0 <= i < |order| ==> order[i] in m0
  {
  }

  /** Failing one more key is one more `set_error`, when that key has a
      user context. */
  lemma FailKeysAdd(user: map<Key, CtxStatus>, keys: set<Key>, k: Key)
    requires k !in keys
    ensures k in user ==>
              FailKeys(user, keys + {k}) == FailKeys(user, keys)[k := SetError(FailKeys(user, keys)[k], MAX_RETRY_ERROR)]
    ensures k !in user ==> FailKeys(user, keys + {k}) == FailKeys(user, keys)
  {
  }

  lemma {:induction false} DescriptorsSnoc(m: map<Key, RetryContext>, order: seq<Key>, k: Key)
    requires forall i :: 0 <= i < |order| ==> order[i] in m
    requires k in m
    ensures DescriptorsOf(m, order + [k]) == DescriptorsOf(m, order) + [m[k].descriptor]
  {
    var l := DescriptorsOf(m, order + [k]);
    var r := DescriptorsOf(m, order) + [m[k].descriptor];
    assert |l| == |r|;
    forall i | 0 <= i < |l| ensures l[i] == r[i] {
      assert (order + [k])[i] == if i < |order| then order[i] else k;
    }
  }

  /** A sequence without repetition has as many elements as the set it lists. */
  lemma {:induction false} DistinctKeysCount(order: seq<Key>, s: set<Key>)
    requires forall k :: k in order <==> k in s
    requires forall i, j :: 0 <= i < j < |order| ==> order[i] != order[j]
    ensures |order| == |s|
    decreases |order|
  {
    if order != [] {
      var last := order[|order| - 1];
      var init := order[..|order| - 1];
      forall k | k in init ensures k in s - {last} {
        var i :| 0 <= i < |init| && init[i] == k;
        assert order[i] == k && order[|order| - 1] == last;
      }
      forall k | k in s - {last} ensures k in init {
        var i :| 0 <= i < |order| && order[i] == k;
        assert i < |init| && init[i] == k;
      }
      DistinctKeysCount(init, s - {last});
    } else {
      assert s == {};
    }
  }
}
