/** The in-memory sliding-window limiter of backend/app/security/rate_limit.py.

    `Step` gives the meaning of one call on a limiter value; the class at the end is the
    object the program really mutates, and each of its methods is proved against `Step`.
    Between the two stand the results about whole runs: the limiter forgets aggressively
    (it prunes deques, deletes idle keys, clears everything when saturated), yet it decides
    exactly like a limiter that remembers every admission for ever.

    Times are reals. Every reading of the clock is a parameter, so the instant a call
    decides at and the (later) instant it records are different values. */
module RateLimit {
  type Key = string

  datatype Limiter = Limiter(maxKeys: nat, maxWindow: real, hits: map<Key, seq<real>>)

  /** One call, with the clock readings it makes. */
  datatype Op =
    | Check(key: Key, limit: nat, window: real, decideAt: real, recordAt: real, gcAt: real)
    | Peek(key: Key, limit: nat, window: real, decideAt: real)
    | Record(key: Key, recordAt: real, gcAt: real)
    | Reset

  function Fresh(maxKeys: nat): Limiter {
    Limiter(maxKeys, 0.0, map[])
  }

  function HitsOf(s: Limiter, k: Key): seq<real> {
    if k in s.hits then s.hits[k] else []
  }

  function Max(x: real, y: real): real {
    if x >= y then x else y
  }

  // ---------------------------------------------------------------- one call

  /** What pruning leaves: everything from the first hit later than the cutoff. */
  function Live(hits: seq<real>, cutoff: real): seq<real> {
    if hits == [] || hits[0] > cutoff then hits else Live(hits[1..], cutoff)
  }

  predicate Expired(hits: seq<real>, cutoff: real) {
    hits == [] || hits[|hits| - 1] <= cutoff
  }

  function Unexpired(hits: map<Key, seq<real>>, cutoff: real): map<Key, seq<real>> {
    map k | k in hits && !Expired(hits[k], cutoff) :: hits[k]
  }

  /** The table is over its size even once the expired keys are gone. */
  predicate Overflows(s: Limiter, gcAt: real) {
    |s.hits| > s.maxKeys && |Unexpired(s.hits, gcAt - s.maxWindow)| > s.maxKeys
  }

  function Collect(s: Limiter, gcAt: real): Limiter {
    if |s.hits| <= s.maxKeys then s
    else if Overflows(s, gcAt) then s.(hits := map[])
    else s.(hits := Unexpired(s.hits, gcAt - s.maxWindow))
  }

  function Append(s: Limiter, k: Key, t: real): Limiter {
    s.(hits := s.hits[k := HitsOf(s, k) + [t]])
  }

  function Pruned(s: Limiter, k: Key, cutoff: real): Limiter {
    if HitsOf(s, k) == [] then s else s.(hits := s.hits[k := Live(s.hits[k], cutoff)])
  }

  /** Seconds to wait before a request is allowed; zero when it is allowed now. */
  function Wait(s: Limiter, k: Key, limit: nat, window: real, now: real): real
    requires limit >= 1
  {
    var kept := Live(HitsOf(s, k), now - window);
    if |kept| < limit then 0.0 else Max(kept[0] + window - now, 0.001)
  }

  predicate Usable(op: Op) {
    op.Check? || op.Peek? ==> op.limit >= 1
  }

  predicate Admits(s: Limiter, op: Op)
    requires op.Check? && Usable(op)
  {
    Wait(s, op.key, op.limit, op.window, op.decideAt) == 0.0
  }

  /** The limiter just before a call's garbage collection, when the call records something. */
  function Recorded(s: Limiter, op: Op): Limiter
    requires Usable(op)
  {
    match op
    case Check(k, _, window, decideAt, recordAt, _) =>
      var s' := Pruned(s.(maxWindow := Max(s.maxWindow, window)), k, decideAt - window);
      if Admits(s, op) then Append(s', k, recordAt) else s'
    case Peek(k, _, window, decideAt) => Pruned(s, k, decideAt - window)
    case Record(k, recordAt, _) => Append(s, k, recordAt)
    case Reset => s.(hits := map[])
  }

  predicate Collects(s: Limiter, op: Op)
    requires Usable(op)
  {
    op.Record? || (op.Check? && Admits(s, op))
  }

  function Step(s: Limiter, op: Op): Limiter
    requires Usable(op)
  {
    if Collects(s, op) then Collect(Recorded(s, op), op.gcAt) else Recorded(s, op)
  }

  function Run(s: Limiter, ops: seq<Op>): Limiter
    requires forall op <- ops :: Usable(op)
    decreases |ops|
  {
    if ops == [] then s else Run(Step(s, ops[0]), ops[1..])
  }

  // ---------------------------------------------------------------- sizes

  /** Whatever the calls, the table never holds more than `maxKeys` keys between two calls. */
  lemma {:induction false} TableIsBounded(s: Limiter, ops: seq<Op>)
    requires forall op <- ops :: Usable(op)
    requires |s.hits| <= s.maxKeys
    ensures |Run(s, ops).hits| <= s.maxKeys
    decreases |ops|
  {
    if ops != [] {
      var op := ops[0];
      if !Collects(s, op) && !op.Reset? && HitsOf(s, op.key) != [] {
        assert Recorded(s, op).hits.Keys == s.hits.Keys;
      }
      assert Step(s, op).maxKeys == s.maxKeys;
      TableIsBounded(Step(s, op), ops[1..]);
    }
  }

  /** The key is only ever used through `check` and `retry_after`, with at most this limit. */
  predicate ChecksOnly(ops: seq<Op>, k: Key, limit: nat) {
    forall op <- ops :: Usable(op) && (!op.Reset? && op.key == k ==> !op.Record? && op.limit <= limit)
  }

  /** `rest` is what is left of `hits` after dropping some of the oldest. */
  ghost predicate Tail(rest: seq<real>, hits: seq<real>) {
    |rest| <= |hits| && rest == hits[|hits| - |rest|..]
  }

  lemma {:induction false} LiveIsSuffix(hits: seq<real>, cutoff: real)
    ensures Tail(Live(hits, cutoff), hits)
    ensures forall i | 0 <= i < |hits| - |Live(hits, cutoff)| :: hits[i] <= cutoff
    ensures Live(hits, cutoff) != [] ==> Live(hits, cutoff)[0] > cutoff
  {
    if hits != [] && hits[0] <= cutoff {
      LiveIsSuffix(hits[1..], cutoff);
      var rest := hits[1..];
      assert forall i | 1 <= i < |hits| :: hits[i] == rest[i - 1];
    }
  }

  lemma TailOfTail(a: seq<real>, b: seq<real>, c: seq<real>)
    requires Tail(a, b) && Tail(b, c)
    ensures Tail(a, c)
  {
  }

  lemma RecordedHits(s: Limiter, op: Op, k: Key)
    requires Usable(op) && !op.Reset?
    ensures op.key != k ==> HitsOf(Recorded(s, op), k) == HitsOf(s, k)
    ensures op.key == k && !op.Record? ==>
              var kept := Live(HitsOf(s, k), op.decideAt - op.window);
              && (op.Check? ==> Admits(s, op) == (|kept| < op.limit))
              && HitsOf(Recorded(s, op), k) == if op.Check? && Admits(s, op) then kept + [op.recordAt] else kept
    ensures Recorded(s, op).maxWindow >= s.maxWindow
    ensures op.Check? ==> Recorded(s, op).maxWindow >= op.window
  {
  }

  lemma CollectShrinks(s: Limiter, gcAt: real, k: Key)
    ensures HitsOf(Collect(s, gcAt), k) in [[], HitsOf(s, k)]
  {
  }

  lemma StepKeepsDequeBounded(s: Limiter, op: Op, k: Key, limit: nat)
    requires Usable(op) && (!op.Reset? && op.key == k ==> !op.Record? && op.limit <= limit)
    requires |HitsOf(s, k)| <= limit
    ensures |HitsOf(Step(s, op), k)| <= limit
  {
    if !op.Reset? {
      RecordedHits(s, op, k);
      if op.key == k {
        LiveIsSuffix(HitsOf(s, k), op.decideAt - op.window);
      }
      CollectShrinks(Recorded(s, op), if op.Peek? then op.decideAt else op.gcAt, k);
    }
  }

  /** No deque of such a key outgrows the limit, even across saturation and other windows. */
  lemma {:induction false} DequeIsBounded(s: Limiter, ops: seq<Op>, k: Key, limit: nat)
    requires ChecksOnly(ops, k, limit)
    requires |HitsOf(s, k)| <= limit
    ensures |HitsOf(Run(s, ops), k)| <= limit
    decreases |ops|
  {
    if ops != [] {
      StepKeepsDequeBounded(s, ops[0], k, limit);
      DequeIsBounded(Step(s, ops[0]), ops[1..], k, limit);
    }
  }

  // ---------------------------------------------------------------- the simple specification

  /** How many entries of a log are later than `cutoff`. */
  function CountAfter(log: seq<real>, cutoff: real): nat {
    if log == [] then 0 else (if log[0] > cutoff then 1 else 0) + CountAfter(log[1..], cutoff)
  }

  /** The rule the limiter promises, read off the complete log of admissions. */
  predicate SpecAdmits(log: seq<real>, op: Op)
    requires op.Check?
  {
    CountAfter(log, op.decideAt - op.window) < op.limit
  }

  predicate ChecksKey(op: Op, k: Key) {
    op.Check? && op.key == k
  }

  /** The complete log of admissions of one key, and the answers, under the simple rule. */
  function SpecLog(log: seq<real>, ops: seq<Op>, k: Key): seq<real>
    decreases |ops|
  {
    if ops == [] then log
    else SpecLog(if ChecksKey(ops[0], k) && SpecAdmits(log, ops[0]) then log + [ops[0].recordAt] else log, ops[1..], k)
  }

  function SpecAnswers(log: seq<real>, ops: seq<Op>, k: Key): seq<bool>
    decreases |ops|
  {
    if ops == [] then []
    else if !ChecksKey(ops[0], k) then SpecAnswers(log, ops[1..], k)
    else if SpecAdmits(log, ops[0]) then [true] + SpecAnswers(log + [ops[0].recordAt], ops[1..], k)
    else [false] + SpecAnswers(log, ops[1..], k)
  }

  function LogAfter(s: Limiter, log: seq<real>, op: Op, k: Key): seq<real>
    requires Usable(op)
  {
    if ChecksKey(op, k) && Admits(s, op) then log + [op.recordAt] else log
  }

  /** The same two observations of the real limiter. */
  function Log(s: Limiter, log: seq<real>, ops: seq<Op>, k: Key): seq<real>
    requires forall op <- ops :: Usable(op)
    decreases |ops|
  {
    if ops == [] then log
    else Log(Step(s, ops[0]), LogAfter(s, log, ops[0], k), ops[1..], k)
  }

  function Answers(s: Limiter, ops: seq<Op>, k: Key): seq<bool>
    requires forall op <- ops :: Usable(op)
    decreases |ops|
  {
    if ops == [] then []
    else (if ChecksKey(ops[0], k) then [Admits(s, ops[0])] else []) + Answers(Step(s, ops[0]), ops[1..], k)
  }

  // ---------------------------------------------------------------- refinement

  /** The readings of one call follow each other and follow `now`. */
  predicate Ordered(op: Op, now: real) {
    match op
    case Check(_, _, _, decideAt, recordAt, gcAt) => now <= decideAt <= recordAt <= gcAt
    case Peek(_, _, _, decideAt) => now <= decideAt
    case Record(_, recordAt, gcAt) => now <= recordAt <= gcAt
    case Reset => true
  }

  function EndOf(op: Op, now: real): real {
    match op
    case Check(_, _, _, _, _, gcAt) => gcAt
    case Peek(_, _, _, decideAt) => decideAt
    case Record(_, _, gcAt) => gcAt
    case Reset => now
  }

  /** A monotone clock, one window for the key, `check`/`retry_after` only on it, and no
      saturation. Other keys are used in any way, with any windows and limits. */
  predicate Disciplined(s: Limiter, ops: seq<Op>, k: Key, window: real, now: real)
    decreases |ops|
  {
    ops != [] ==>
      var op := ops[0];
      && Usable(op) && Ordered(op, now) && !op.Reset?
      && (op.key == k ==> !op.Record? && op.window == window)
      && (Collects(s, op) ==> !Overflows(Recorded(s, op), op.gcAt))
      && Disciplined(Step(s, op), ops[1..], k, window, EndOf(op, now))
  }

  predicate Sorted(log: seq<real>) {
    forall i, j | 0 <= i <= j < |log| :: log[i] <= log[j]
  }

  /** What is left of a log once some of the entries up to `cutoff` are dropped from its front. */
  ghost predicate Remains(hits: seq<real>, log: seq<real>, cutoff: real) {
    && |hits| <= |log|
    && hits == log[|log| - |hits|..]
    && forall i | 0 <= i < |log| - |hits| :: log[i] <= cutoff
  }

  lemma {:induction false} CountAfterIsSuffix(log: seq<real>, dropped: nat, cutoff: real)
    requires Sorted(log) && dropped <= |log|
    requires forall i | 0 <= i < dropped :: log[i] <= cutoff
    requires dropped < |log| ==> log[dropped] > cutoff
    ensures CountAfter(log, cutoff) == |log| - dropped
  {
    if log != [] {
      if dropped == 0 {
        assert log[0] > cutoff;
        CountAfterIsSuffix(log[1..], 0, cutoff);
      } else {
        CountAfterIsSuffix(log[1..], dropped - 1, cutoff);
      }
    }
  }

  /** Pruning the deque and counting the log see the same hits. */
  lemma PruningCountsLog(hits: seq<real>, log: seq<real>, before: real, cutoff: real)
    requires Sorted(log) && Remains(hits, log, before) && before <= cutoff
    ensures |Live(hits, cutoff)| == CountAfter(log, cutoff)
    ensures Remains(Live(hits, cutoff), log, cutoff)
  {
    var kept := Live(hits, cutoff);
    LiveIsSuffix(hits, cutoff);
    var gone, dropped := |log| - |hits|, |log| - |kept|;
    assert forall i | gone <= i < |log| :: log[i] == hits[i - gone];
    assert kept == log[dropped..];
    CountAfterIsSuffix(log, dropped, cutoff);
  }

  lemma AppendRemains(hits: seq<real>, log: seq<real>, cutoff: real, t: real)
    requires Sorted(log) && Remains(hits, log, cutoff) && (log != [] ==> log[|log| - 1] <= t)
    ensures Sorted(log + [t]) && Remains(hits + [t], log + [t], cutoff)
  {
  }

  // ---------------------------------------------------------------- what is forgotten

  /** A monotone clock, and `k` used through `check` and `retry_after` only. Windows and limits
      may vary, other keys are used in any way, and everything may be cleared. */
  predicate Timely(ops: seq<Op>, k: Key, now: real)
    decreases |ops|
  {
    ops != [] ==>
      && Usable(ops[0]) && Ordered(ops[0], now)
      && (!ops[0].Reset? && ops[0].key == k ==> !ops[0].Record?)
      && Timely(ops[1..], k, EndOf(ops[0], now))
  }

  lemma {:induction false} TimelyUsable(ops: seq<Op>, k: Key, now: real)
    requires Timely(ops, k, now)
    ensures forall op <- ops :: Usable(op)
    decreases |ops|
  {
    if ops != [] {
      TimelyUsable(ops[1..], k, EndOf(ops[0], now));
      assert ops == [ops[0]] + ops[1..];
    }
  }

  /** The deque is the end of the log, and the log is in order of time. */
  ghost predicate EndsLog(hits: seq<real>, log: seq<real>, now: real) {
    Tail(hits, log) && Sorted(log) && (log != [] ==> log[|log| - 1] <= now)
  }

  lemma StepEndsLog(s: Limiter, log: seq<real>, op: Op, k: Key, now: real)
    requires EndsLog(HitsOf(s, k), log, now)
    requires Usable(op) && Ordered(op, now) && (!op.Reset? && op.key == k ==> !op.Record?)
    ensures EndsLog(HitsOf(Step(s, op), k), LogAfter(s, log, op, k), EndOf(op, now))
  {
    if !op.Reset? {
      RecordedEndsLog(s, log, op, k, now);
      if Collects(s, op) {
        CollectShrinks(Recorded(s, op), op.gcAt, k);
        AnyEndsLog(HitsOf(Recorded(s, op), k), HitsOf(Step(s, op), k), LogAfter(s, log, op, k), op.gcAt);
      }
    }
  }

  lemma AnyEndsLog(hits: seq<real>, hits': seq<real>, log: seq<real>, t: real)
    requires EndsLog(hits, log, t) && hits' in [[], hits]
    ensures EndsLog(hits', log, t)
  {
  }

  lemma RecordedEndsLog(s: Limiter, log: seq<real>, op: Op, k: Key, now: real)
    requires EndsLog(HitsOf(s, k), log, now)
    requires Usable(op) && Ordered(op, now) && !op.Reset? && (op.key == k ==> !op.Record?)
    ensures EndsLog(HitsOf(Recorded(s, op), k), LogAfter(s, log, op, k), EndOf(op, now))
  {
    if op.key == k {
      UsedEndsLog(s, log, op, now);
    } else {
      RecordedHits(s, op, k);
    }
  }

  lemma UsedEndsLog(s: Limiter, log: seq<real>, op: Op, now: real)
    requires Usable(op) && Ordered(op, now) && (op.Check? || op.Peek?)
    requires EndsLog(HitsOf(s, op.key), log, now)
    ensures EndsLog(HitsOf(Recorded(s, op), op.key), LogAfter(s, log, op, op.key), EndOf(op, now))
  {
    var hits, t := HitsOf(s, op.key), if op.Check? then op.recordAt else op.decideAt;
    var kept := Live(hits, op.decideAt - op.window);
    assert EndsLog(kept, log, t) && EndsLog(kept + [t], log + [t], t) by {
      LiveIsSuffix(hits, op.decideAt - op.window);
      PrunedEndsLog(hits, log, kept, now, t);
    }
    UsedHits(s, log, op, kept);
  }

  lemma PrunedEndsLog(hits: seq<real>, log: seq<real>, kept: seq<real>, now: real, t: real)
    requires EndsLog(hits, log, now) && Tail(kept, hits) && now <= t
    ensures EndsLog(kept, log, t) && EndsLog(kept + [t], log + [t], t)
  {
    TailOfTail(kept, hits, log);
  }

  lemma {:induction false} RunEndsLog(s: Limiter, log: seq<real>, ops: seq<Op>, k: Key, now: real)
    requires forall op <- ops :: Usable(op)
    requires EndsLog(HitsOf(s, k), log, now) && Timely(ops, k, now)
    ensures Tail(HitsOf(Run(s, ops), k), Log(s, log, ops, k)) && Sorted(Log(s, log, ops, k))
    decreases |ops|
  {
    if ops != [] {
      StepEndsLog(s, log, ops[0], k, now);
      RunEndsLog(Step(s, ops[0]), LogAfter(s, log, ops[0], k), ops[1..], k, EndOf(ops[0], now));
    }
  }

  lemma LiveCounts(log: seq<real>, cutoff: real)
    requires Sorted(log)
    ensures |Live(log, cutoff)| == CountAfter(log, cutoff)
  {
    LiveIsSuffix(log, cutoff);
    CountAfterIsSuffix(log, |log| - |Live(log, cutoff)|, cutoff);
  }

  /** A deque counts as the log does exactly if all that it has lost is out of the window. */
  lemma CountExact(hits: seq<real>, log: seq<real>, cutoff: real)
    requires Tail(hits, log) && Sorted(log)
    ensures var gone := |log| - |hits|;
            |Live(hits, cutoff)| == CountAfter(log, cutoff) <==> gone == 0 || log[gone - 1] <= cutoff
  {
    var gone := |log| - |hits|;
    LiveCounts(log, cutoff);
    LiveIsSuffix(hits, cutoff);
    LiveIsSuffix(log, cutoff);
    assert forall i | gone <= i < |log| :: log[i] == hits[i - gone];
  }

  /** Main result: after any timely run, whatever the windows, the evictions and the clearings,
      the deque of `k` is an end of the complete log, and counting it gives what counting the
      log gives exactly if the last admission it has lost is out of the window. */
  lemma ForgettingIsExact(maxKeys: nat, ops: seq<Op>, k: Key, start: real, cutoff: real)
    requires Timely(ops, k, start)
    ensures forall op <- ops :: Usable(op)
    ensures var hits, log := HitsOf(Run(Fresh(maxKeys), ops), k), Log(Fresh(maxKeys), [], ops, k);
            var gone := |log| - |hits|;
            && Tail(hits, log) && Sorted(log)
            && (|Live(hits, cutoff)| == CountAfter(log, cutoff) <==> gone == 0 || log[gone - 1] <= cutoff)
  {
    TimelyUsable(ops, k, start);
    RunEndsLog(Fresh(maxKeys), [], ops, k, start);
    CountExact(HitsOf(Run(Fresh(maxKeys), ops), k), Log(Fresh(maxKeys), [], ops, k), cutoff);
  }

  // ---------------------------------------------------------------- when decisions are right

  lemma FewerThan(hits: seq<real>, cutoff: real, limit: nat)
    requires Sorted(hits) && limit >= 1
    ensures |Live(hits, cutoff)| < limit <==> |hits| < limit || hits[|hits| - limit] <= cutoff
  {
    LiveIsSuffix(hits, cutoff);
    var kept := Live(hits, cutoff);
    if |kept| >= limit {
      assert hits[|hits| - limit] == kept[|kept| - limit] >= kept[0];
    }
  }

  /** Enough is left to decide on: `limit` hits, or else the admission that would be the
      `limit`-th from the end is not there or no longer counts. */
  predicate Enough(hits: seq<real>, log: seq<real>, limit: nat, cutoff: real)
    requires limit >= 1
  {
    |hits| >= limit || |log| < limit || log[|log| - limit] <= cutoff
  }

  lemma DecisionExact(hits: seq<real>, log: seq<real>, limit: nat, cutoff: real)
    requires Tail(hits, log) && Sorted(log) && limit >= 1
    ensures (|Live(hits, cutoff)| < limit) == (CountAfter(log, cutoff) < limit) <==> Enough(hits, log, limit, cutoff)
  {
    assert forall i | |log| - |hits| <= i < |log| :: log[i] == hits[i - (|log| - |hits|)];
    LiveCounts(log, cutoff);
    FewerThan(hits, cutoff, limit);
    FewerThan(log, cutoff, limit);
  }

  /** At every check of `k` the deque has enough left. */
  predicate KeepsEnough(s: Limiter, log: seq<real>, ops: seq<Op>, k: Key)
    requires forall op <- ops :: Usable(op)
    decreases |ops|
  {
    ops != [] ==>
      assert Usable(ops[0]);
      && (ChecksKey(ops[0], k) ==> Enough(HitsOf(s, k), log, ops[0].limit, ops[0].decideAt - ops[0].window))
      && KeepsEnough(Step(s, ops[0]), LogAfter(s, log, ops[0], k), ops[1..], k)
  }

  lemma {:induction false} DecisionsExactFrom(s: Limiter, log: seq<real>, ops: seq<Op>, k: Key, now: real)
    requires forall op <- ops :: Usable(op)
    requires EndsLog(HitsOf(s, k), log, now) && Timely(ops, k, now)
    ensures Answers(s, ops, k) == SpecAnswers(log, ops, k) <==> KeepsEnough(s, log, ops, k)
    ensures KeepsEnough(s, log, ops, k) ==> Log(s, log, ops, k) == SpecLog(log, ops, k)
    decreases |ops|
  {
    if ops != [] {
      var op, s', log', rest := ops[0], Step(s, ops[0]), LogAfter(s, log, ops[0], k), ops[1..];
      StepEndsLog(s, log, op, k, now);
      DecisionsExactFrom(s', log', rest, k, EndOf(op, now));
      if ChecksKey(op, k) {
        AnswersAgree(s, log, op, now);
        CheckFirst(s, log, ops, k, s', log', rest);
        FirstThenRest(Admits(s, op), Answers(s', rest, k), SpecAdmits(log, op), SpecAnswers(LogBySpec(log, op), rest, k));
      } else {
        SkipFirst(s, log, ops, k, s', rest);
      }
    }
  }

  function LogBySpec(log: seq<real>, op: Op): seq<real>
    requires op.Check?
  {
    if SpecAdmits(log, op) then log + [op.recordAt] else log
  }

  lemma SkipFirst(s: Limiter, log: seq<real>, ops: seq<Op>, k: Key, s': Limiter, rest: seq<Op>)
    requires forall op <- ops :: Usable(op)
    requires ops != [] && !ChecksKey(ops[0], k) && s' == Step(s, ops[0]) && rest == ops[1..]
    ensures Answers(s, ops, k) == Answers(s', rest, k) && SpecAnswers(log, ops, k) == SpecAnswers(log, rest, k)
    ensures Log(s, log, ops, k) == Log(s', log, rest, k) && SpecLog(log, ops, k) == SpecLog(log, rest, k)
    ensures KeepsEnough(s, log, ops, k) == KeepsEnough(s', log, rest, k)
  {
  }

  lemma CheckFirst(s: Limiter, log: seq<real>, ops: seq<Op>, k: Key, s': Limiter, log': seq<real>, rest: seq<Op>)
    requires forall op <- ops :: Usable(op)
    requires ops != [] && ChecksKey(ops[0], k)
    requires s' == Step(s, ops[0]) && log' == LogAfter(s, log, ops[0], k) && rest == ops[1..]
    ensures Answers(s, ops, k) == [Admits(s, ops[0])] + Answers(s', rest, k)
    ensures SpecAnswers(log, ops, k) == [SpecAdmits(log, ops[0])] + SpecAnswers(LogBySpec(log, ops[0]), rest, k)
    ensures Log(s, log, ops, k) == Log(s', log', rest, k)
    ensures SpecLog(log, ops, k) == SpecLog(LogBySpec(log, ops[0]), rest, k)
    ensures log' == if Admits(s, ops[0]) then log + [ops[0].recordAt] else log
    ensures KeepsEnough(s, log, ops, k) <==>
              Enough(HitsOf(s, k), log, ops[0].limit, ops[0].decideAt - ops[0].window) && KeepsEnough(s', log', rest, k)
  {
  }

  /** The limiter's answer is the one the complete log gives exactly if it has enough left. */
  lemma AnswersAgree(s: Limiter, log: seq<real>, op: Op, now: real)
    requires op.Check? && Usable(op) && EndsLog(HitsOf(s, op.key), log, now)
    ensures Admits(s, op) == SpecAdmits(log, op) <==> Enough(HitsOf(s, op.key), log, op.limit, op.decideAt - op.window)
  {
    RecordedHits(s, op, op.key);
    DecisionExact(HitsOf(s, op.key), log, op.limit, op.decideAt - op.window);
  }

  lemma FirstThenRest(a: bool, rest: seq<bool>, b: bool, others: seq<bool>)
    ensures [a] + rest == [b] + others <==> a == b && rest == others
  {
    if [a] + rest == [b] + others {
      assert ([a] + rest)[0] == a && ([b] + others)[0] == b;
      assert ([a] + rest)[1..] == rest && ([b] + others)[1..] == others;
    }
  }

  /** Main result: over any timely run, with any windows, evictions and clearings, the limiter
      answers the checks of `k` as the rule "fewer than `limit` past admissions in the last
      `window` seconds" does on the complete log if and only if at each check it has enough
      hits left. */
  lemma DecisionsExact(maxKeys: nat, ops: seq<Op>, k: Key, start: real)
    requires Timely(ops, k, start)
    ensures forall op <- ops :: Usable(op)
    ensures Answers(Fresh(maxKeys), ops, k) == SpecAnswers([], ops, k) <==> KeepsEnough(Fresh(maxKeys), [], ops, k)
    ensures KeepsEnough(Fresh(maxKeys), [], ops, k) ==> Log(Fresh(maxKeys), [], ops, k) == SpecLog([], ops, k)
  {
    TimelyUsable(ops, k, start);
    DecisionsExactFrom(Fresh(maxKeys), [], ops, k, start);
  }

  // ---------------------------------------------------------------- runs that keep enough

  /** The latest cutoff that `k` has been pruned with, then the one it has been collected with. */
  function OwnCutoff(op: Op, k: Key, low: real): real
    requires !op.Reset?
  {
    if op.key == k && !op.Record? then op.decideAt - op.window else low
  }

  function CollectCutoff(s: Limiter, k: Key, gcAt: real, low: real): real {
    if |s.hits| > s.maxKeys && k in s.hits then Max(low, gcAt - s.maxWindow) else low
  }

  function NextLow(s: Limiter, op: Op, k: Key, low: real): real
    requires Usable(op) && !op.Reset?
  {
    if Collects(s, op) then CollectCutoff(Recorded(s, op), k, op.gcAt, OwnCutoff(op, k, low)) else OwnCutoff(op, k, low)
  }

  /** The cutoffs used on `k` never go back behind `low`, and nothing is cleared. */
  predicate Forward(s: Limiter, ops: seq<Op>, k: Key, now: real, low: real)
    decreases |ops|
  {
    ops != [] ==>
      var op := ops[0];
      && Usable(op) && Ordered(op, now) && !op.Reset?
      && (op.key == k ==> !op.Record? && low <= op.decideAt - op.window)
      && (Collects(s, op) ==> !Overflows(Recorded(s, op), op.gcAt))
      && Forward(Step(s, op), ops[1..], k, EndOf(op, now), NextLow(s, op, k, low))
  }

  lemma {:induction false} ForwardIsTimely(s: Limiter, ops: seq<Op>, k: Key, now: real, low: real)
    requires Forward(s, ops, k, now, low)
    ensures Timely(ops, k, now)
    decreases |ops|
  {
    if ops != [] {
      ForwardIsTimely(Step(s, ops[0]), ops[1..], k, EndOf(ops[0], now), NextLow(s, ops[0], k, low));
    }
  }

  /** Garbage collection drops a key only once all its hits are behind the collecting cutoff. */
  lemma CollectTracks(s: Limiter, log: seq<real>, k: Key, low: real, gcAt: real)
    requires Sorted(log) && Remains(HitsOf(s, k), log, low) && !Overflows(s, gcAt)
    ensures Remains(HitsOf(Collect(s, gcAt), k), log, CollectCutoff(s, k, gcAt, low))
  {
    var hits := HitsOf(s, k);
    if |s.hits| > s.maxKeys && hits != [] && Expired(hits, gcAt - s.maxWindow) {
      assert log[|log| - 1] == hits[|hits| - 1];
      assert forall i | 0 <= i < |log| :: log[i] <= gcAt - s.maxWindow;
    }
  }

  lemma RecordedTracks(s: Limiter, log: seq<real>, op: Op, k: Key, now: real, low: real)
    requires EndsLog(HitsOf(s, k), log, now) && Remains(HitsOf(s, k), log, low)
    requires Usable(op) && Ordered(op, now) && !op.Reset?
    requires op.key == k ==> !op.Record? && low <= op.decideAt - op.window
    ensures Remains(HitsOf(Recorded(s, op), k), LogAfter(s, log, op, k), OwnCutoff(op, k, low))
    ensures Sorted(LogAfter(s, log, op, k))
  {
    if op.key == k {
      UsedTracks(s, log, op, now, low);
    } else {
      RecordedHits(s, op, k);
    }
  }

  lemma UsedTracks(s: Limiter, log: seq<real>, op: Op, now: real, low: real)
    requires Usable(op) && Ordered(op, now) && (op.Check? || op.Peek?) && low <= op.decideAt - op.window
    requires EndsLog(HitsOf(s, op.key), log, now) && Remains(HitsOf(s, op.key), log, low)
    ensures Remains(HitsOf(Recorded(s, op), op.key), LogAfter(s, log, op, op.key), op.decideAt - op.window)
    ensures Sorted(LogAfter(s, log, op, op.key))
  {
    var kept, t := Live(HitsOf(s, op.key), op.decideAt - op.window), if op.Check? then op.recordAt else op.decideAt;
    assert Remains(kept, log, op.decideAt - op.window) && Sorted(log)
           && Remains(kept + [t], log + [t], op.decideAt - op.window) && Sorted(log + [t]) by {
      PruneTracks(HitsOf(s, op.key), log, low, op.decideAt - op.window, now, t);
    }
    UsedHits(s, log, op, kept);
  }

  lemma UsedHits(s: Limiter, log: seq<real>, op: Op, kept: seq<real>)
    requires Usable(op) && (op.Check? || op.Peek?) && kept == Live(HitsOf(s, op.key), op.decideAt - op.window)
    ensures var admitted := op.Check? && Admits(s, op);
            && HitsOf(Recorded(s, op), op.key) == (if admitted then kept + [op.recordAt] else kept)
            && LogAfter(s, log, op, op.key) == if admitted then log + [op.recordAt] else log
  {
    RecordedHits(s, op, op.key);
  }

  lemma PruneTracks(hits: seq<real>, log: seq<real>, low: real, cutoff: real, now: real, t: real)
    requires EndsLog(hits, log, now) && Remains(hits, log, low) && low <= cutoff && now <= t
    ensures Remains(Live(hits, cutoff), log, cutoff)
    ensures Remains(Live(hits, cutoff) + [t], log + [t], cutoff) && Sorted(log + [t])
  {
    PruningCountsLog(hits, log, low, cutoff);
    AppendRemains(Live(hits, cutoff), log, cutoff, t);
  }

  lemma StepTracks(s: Limiter, log: seq<real>, op: Op, k: Key, now: real, low: real)
    requires EndsLog(HitsOf(s, k), log, now) && Remains(HitsOf(s, k), log, low)
    requires Usable(op) && Ordered(op, now) && !op.Reset?
    requires op.key == k ==> !op.Record? && low <= op.decideAt - op.window
    requires Collects(s, op) ==> !Overflows(Recorded(s, op), op.gcAt)
    ensures Remains(HitsOf(Step(s, op), k), LogAfter(s, log, op, k), NextLow(s, op, k, low))
  {
    RecordedTracks(s, log, op, k, now, low);
    if Collects(s, op) {
      CollectTracks(Recorded(s, op), LogAfter(s, log, op, k), k, OwnCutoff(op, k, low), op.gcAt);
    }
  }

  lemma {:induction false} ForwardKeepsEnough(s: Limiter, log: seq<real>, ops: seq<Op>, k: Key, now: real, low: real)
    requires forall op <- ops :: Usable(op)
    requires Forward(s, ops, k, now, low)
    requires EndsLog(HitsOf(s, k), log, now) && Remains(HitsOf(s, k), log, low)
    ensures KeepsEnough(s, log, ops, k)
    decreases |ops|
  {
    if ops != [] {
      var op := ops[0];
      StepEndsLog(s, log, op, k, now);
      StepTracks(s, log, op, k, now, low);
      ForwardKeepsEnough(Step(s, op), LogAfter(s, log, op, k), ops[1..], k, EndOf(op, now), NextLow(s, op, k, low));
    }
  }

  /** Main result: it has enough left, and so decides like the complete log, over every run that
      clears nothing and whose cutoffs on `k` never go back, whatever the windows. */
  lemma ForwardRefinesCompleteLog(maxKeys: nat, ops: seq<Op>, k: Key, start: real, low: real)
    requires Forward(Fresh(maxKeys), ops, k, start, low)
    ensures forall op <- ops :: Usable(op)
    ensures Answers(Fresh(maxKeys), ops, k) == SpecAnswers([], ops, k)
    ensures Log(Fresh(maxKeys), [], ops, k) == SpecLog([], ops, k)
  {
    ForwardIsTimely(Fresh(maxKeys), ops, k, start, low);
    DecisionsExact(maxKeys, ops, k, start);
    ForwardKeepsEnough(Fresh(maxKeys), [], ops, k, start, low);
  }

  lemma {:induction false} DisciplinedIsForward(s: Limiter, ops: seq<Op>, k: Key, window: real, now: real, low: real)
    requires Disciplined(s, ops, k, window, now)
    requires low <= now - window && (k in s.hits ==> window <= s.maxWindow)
    ensures Forward(s, ops, k, now, low)
    decreases |ops|
  {
    if ops != [] {
      var op := ops[0];
      assert k in Recorded(s, op).hits ==> window <= Recorded(s, op).maxWindow;
      assert k in Step(s, op).hits ==> k in Recorded(s, op).hits && Step(s, op).maxWindow == Recorded(s, op).maxWindow;
      DisciplinedIsForward(Step(s, op), ops[1..], k, window, EndOf(op, now), NextLow(s, op, k, low));
    }
  }

  /** Main result, with one window: over any run, despite pruning, key deletion and traffic on
      other keys, the limiter answers each check of `k` as the complete log does. */
  lemma LimiterRefinesCompleteLog(maxKeys: nat, ops: seq<Op>, k: Key, window: real, start: real)
    requires Disciplined(Fresh(maxKeys), ops, k, window, start)
    ensures forall op <- ops :: Usable(op)
    ensures Answers(Fresh(maxKeys), ops, k) == SpecAnswers([], ops, k)
    ensures Log(Fresh(maxKeys), [], ops, k) == SpecLog([], ops, k)
  {
    DisciplinedIsForward(Fresh(maxKeys), ops, k, window, start, start - window);
    ForwardRefinesCompleteLog(maxKeys, ops, k, start, start - window);
  }

  // ---------------------------------------------------------------- the rate actually enforced

  ghost predicate Spaced(log: seq<real>, limit: nat, window: real) {
    forall i, j | 0 <= i && j == i + limit && j < |log| :: log[j] >= log[i] + window
  }

  /** Every check of `k` is at least as strict as this limit and window. */
  predicate AtLeastStrict(ops: seq<Op>, k: Key, limit: nat, window: real) {
    forall op <- ops :: ChecksKey(op, k) ==> op.limit <= limit && op.window >= window
  }

  lemma {:induction false} CountAfterAtLeast(log: seq<real>, i: nat, cutoff: real)
    requires Sorted(log) && i < |log| && log[i] > cutoff
    ensures CountAfter(log, cutoff) >= |log| - i
  {
    if i > 0 {
      CountAfterAtLeast(log[1..], i - 1, cutoff);
    } else if |log| > 1 {
      CountAfterAtLeast(log[1..], 0, cutoff);
    }
  }

  /** An admission comes at least a window after the one `limit` places before it. */
  lemma AdmissionIsSpaced(log: seq<real>, op: Op, limit: nat, window: real)
    requires op.Check? && op.limit <= limit && limit >= 1 && op.window >= window
    requires SpecAdmits(log, op) && op.decideAt <= op.recordAt
    requires Sorted(log) && Spaced(log, limit, window) && (log != [] ==> log[|log| - 1] <= op.decideAt)
    ensures Sorted(log + [op.recordAt]) && Spaced(log + [op.recordAt], limit, window)
  {
    var cutoff := op.decideAt - op.window;
    if |log| >= limit {
      if log[|log| - limit] > cutoff {
        CountAfterAtLeast(log, |log| - limit, cutoff);
        assert false;
      }
      assert op.recordAt >= log[|log| - limit] + window;
    }
  }

  lemma {:induction false} SpecLogSpaced(log: seq<real>, ops: seq<Op>, k: Key, limit: nat, window: real, now: real)
    requires limit >= 1 && AtLeastStrict(ops, k, limit, window) && Timely(ops, k, now)
    requires Sorted(log) && Spaced(log, limit, window) && (log != [] ==> log[|log| - 1] <= now)
    ensures Sorted(SpecLog(log, ops, k)) && Spaced(SpecLog(log, ops, k), limit, window)
    decreases |ops|
  {
    if ops != [] {
      var op := ops[0];
      assert op in ops;
      if ChecksKey(op, k) && SpecAdmits(log, op) {
        AdmissionIsSpaced(log, op, limit, window);
        SpecLogSpaced(log + [op.recordAt], ops[1..], k, limit, window, EndOf(op, now));
      } else {
        SpecLogSpaced(log, ops[1..], k, limit, window, EndOf(op, now));
      }
    }
  }

  /** Admissions in the half-open interval [a, b). */
  function CountIn(log: seq<real>, a: real, b: real): nat {
    if log == [] then 0 else (if a <= log[0] < b then 1 else 0) + CountIn(log[1..], a, b)
  }

  lemma {:induction false} CountInPrefix(log: seq<real>, n: nat, a: real, b: real)
    requires forall i | n <= i < |log| :: log[i] >= b
    ensures CountIn(log, a, b) <= n
  {
    if log != [] {
      CountInPrefix(log[1..], if n > 0 then n - 1 else 0, a, b);
    }
  }

  lemma {:induction false} SpacedBoundsIntervals(log: seq<real>, limit: nat, window: real, a: real)
    requires Sorted(log) && Spaced(log, limit, window)
    ensures CountIn(log, a, a + window) <= limit
  {
    if log != [] {
      if log[0] < a {
        SpacedBoundsIntervals(log[1..], limit, window, a);
      } else {
        forall i | limit <= i < |log| ensures log[i] >= a + window {
          assert log[limit] >= log[0] + window;
        }
        CountInPrefix(log, limit, a, a + window);
      }
    }
  }

  /** Main result: over every run that keeps enough, whatever the windows and limits of its checks,
      a half-open interval as long as the shortest window contains at most the largest limit of
      admissions of the key, although each admission is stamped later than it was decided. */
  lemma RateIsBounded(maxKeys: nat, ops: seq<Op>, k: Key, limit: nat, window: real, start: real, a: real)
    requires limit >= 1 && AtLeastStrict(ops, k, limit, window)
    requires Timely(ops, k, start) && forall op <- ops :: Usable(op)
    requires KeepsEnough(Fresh(maxKeys), [], ops, k)
    ensures CountIn(Log(Fresh(maxKeys), [], ops, k), a, a + window) <= limit
  {
    DecisionsExact(maxKeys, ops, k, start);
    SpecLogSpaced([], ops, k, limit, window, start);
    SpacedBoundsIntervals(SpecLog([], ops, k), limit, window, a);
  }

  /** In particular over runs whose cutoffs on the key never go back. */
  lemma ForwardRateIsBounded(maxKeys: nat, ops: seq<Op>, k: Key, limit: nat, window: real, start: real, low: real, a: real)
    requires limit >= 1 && AtLeastStrict(ops, k, limit, window)
    requires Forward(Fresh(maxKeys), ops, k, start, low)
    ensures forall op <- ops :: Usable(op)
    ensures CountIn(Log(Fresh(maxKeys), [], ops, k), a, a + window) <= limit
  {
    ForwardIsTimely(Fresh(maxKeys), ops, k, start, low);
    TimelyUsable(ops, k, start);
    ForwardKeepsEnough(Fresh(maxKeys), [], ops, k, start, low);
    RateIsBounded(maxKeys, ops, k, limit, window, start, a);
  }

  // ---------------------------------------------------------------- the announced delay

  /** No admission of `k` happens during the run. */
  predicate Quiet(s: Limiter, ops: seq<Op>, k: Key)
    decreases |ops|
  {
    ops != [] ==>
      && Usable(ops[0]) && !ops[0].Reset?
      && (ops[0].key == k ==> ops[0].Peek? || (ops[0].Check? && !Admits(s, ops[0])))
      && Quiet(Step(s, ops[0]), ops[1..], k)
  }

  predicate UpTo(ops: seq<Op>, t: real) {
    forall op <- ops :: !op.Reset? ==> EndOf(op, t) <= t
  }

  /** The limiter a refused check leaves behind. */
  function AfterRefusal(s: Limiter, k: Key, limit: nat, window: real, now: real): Limiter {
    Pruned(s.(maxWindow := Max(s.maxWindow, window)), k, now - window)
  }

  lemma QuietStepShrinks(s: Limiter, op: Op, k: Key)
    requires Usable(op) && !op.Reset?
    requires op.key == k ==> op.Peek? || (op.Check? && !Admits(s, op))
    ensures Tail(HitsOf(Step(s, op), k), HitsOf(s, k))
  {
    RecordedHits(s, op, k);
    if op.key == k {
      LiveIsSuffix(HitsOf(s, k), op.decideAt - op.window);
    }
    CollectShrinks(Recorded(s, op), if op.Peek? then op.decideAt else op.gcAt, k);
  }

  lemma {:induction false} QuietOnlyShrinks(s: Limiter, ops: seq<Op>, k: Key)
    requires forall op <- ops :: Usable(op)
    requires Quiet(s, ops, k)
    ensures Tail(HitsOf(Run(s, ops), k), HitsOf(s, k))
    decreases |ops|
  {
    if ops != [] {
      QuietStepShrinks(s, ops[0], k);
      QuietOnlyShrinks(Step(s, ops[0]), ops[1..], k);
      TailOfTail(HitsOf(Run(s, ops), k), HitsOf(Step(s, ops[0]), k), HitsOf(s, k));
    }
  }

  lemma {:induction false} QuietKeepsFreshHits(s: Limiter, ops: seq<Op>, k: Key, window: real, now: real, t: real)
    requires forall op <- ops :: Usable(op)
    requires Quiet(s, ops, k) && Disciplined(s, ops, k, window, now) && UpTo(ops, t)
    requires HitsOf(s, k) != [] && Sorted(HitsOf(s, k)) && HitsOf(s, k)[0] > t - window
    requires window <= s.maxWindow
    ensures HitsOf(Run(s, ops), k) == HitsOf(s, k)
    decreases |ops|
  {
    if ops != [] {
      var op := ops[0];
      var hits := HitsOf(s, k);
      assert op in ops;
      assert Live(hits, t - window) == hits && (op.key == k ==> Live(hits, op.decideAt - window) == hits);
      assert HitsOf(Recorded(s, op), k) == hits;
      assert hits[0] <= hits[|hits| - 1];
      assert HitsOf(Step(s, op), k) == hits;
      QuietKeepsFreshHits(Step(s, op), ops[1..], k, window, EndOf(op, now), t);
    }
  }

  /** Once the oldest hit has left the window, fewer hits than before are left to count. */
  lemma ShrunkAndPruned(before: seq<real>, after: seq<real>, cutoff: real)
    requires before != [] && before[0] <= cutoff && Tail(after, before)
    ensures |Live(after, cutoff)| < |before|
  {
    LiveIsSuffix(after, cutoff);
  }

  /** The value of the Retry-After header: the wait rounded up, at least one second. */
  function RetryAfterHeader(wait: real): int {
    var up := -((-wait).Floor);
    if up > 1 then up else 1
  }

  /** A refusal finds the deque full: every hit in it counts, and none is dropped. */
  lemma RefusalHits(s: Limiter, k: Key, limit: nat, window: real, now: real)
    requires limit >= 1 && |HitsOf(s, k)| <= limit
    requires Wait(s, k, limit, window, now) > 0.0
    ensures HitsOf(s, k) != [] && HitsOf(s, k)[0] > now - window
    ensures HitsOf(AfterRefusal(s, k, limit, window, now), k) == HitsOf(s, k)
    ensures |HitsOf(s, k)| == limit
    ensures Wait(s, k, limit, window, now) == Max(HitsOf(s, k)[0] + window - now, 0.001)
  {
    var hits := HitsOf(s, k);
    var kept := Live(hits, now - window);
    LiveIsSuffix(hits, now - window);
    WholeTail(kept, hits);
    PrunedHits(s.(maxWindow := Max(s.maxWindow, window)), k, now - window);
  }

  lemma WholeTail(rest: seq<real>, hits: seq<real>)
    requires Tail(rest, hits) && |rest| >= |hits|
    ensures rest == hits
  {
  }

  lemma PrunedHits(s: Limiter, k: Key, cutoff: real)
    ensures HitsOf(Pruned(s, k, cutoff), k) == Live(HitsOf(s, k), cutoff)
  {
  }

  lemma FewHitsAdmit(s: Limiter, k: Key, limit: nat, window: real, now: real)
    requires limit >= 1 && |Live(HitsOf(s, k), now - window)| < limit
    ensures Wait(s, k, limit, window, now) == 0.0
  {
  }

  /** Main result: waiting for the announced delay is enough, whatever other keys do and even
      if this key is polled meanwhile; so is waiting for the rounded Retry-After header. The
      deque bound is the invariant `DequeIsBounded`. */
  lemma AnnouncedWaitSuffices(s: Limiter, k: Key, limit: nat, window: real, now: real, ops: seq<Op>, t: real)
    requires limit >= 1 && |HitsOf(s, k)| <= limit
    requires Wait(s, k, limit, window, now) > 0.0
    requires forall op <- ops :: Usable(op)
    requires Quiet(AfterRefusal(s, k, limit, window, now), ops, k)
    requires t >= now + Wait(s, k, limit, window, now) || t >= now + RetryAfterHeader(Wait(s, k, limit, window, now)) as real
    ensures Wait(Run(AfterRefusal(s, k, limit, window, now), ops), k, limit, window, t) == 0.0
  {
    var s1 := AfterRefusal(s, k, limit, window, now);
    RefusalHits(s, k, limit, window, now);
    HeaderCovers(Wait(s, k, limit, window, now));
    QuietOnlyShrinks(s1, ops, k);
    ShrunkAndPruned(HitsOf(s, k), HitsOf(Run(s1, ops), k), t - window);
    FewHitsAdmit(Run(s1, ops), k, limit, window, t);
  }

  lemma HeaderCovers(wait: real)
    ensures RetryAfterHeader(wait) as real >= wait && RetryAfterHeader(wait) >= 1
    ensures RetryAfterHeader(wait) as real < wait + 1.0 || RetryAfterHeader(wait) == 1
  {
  }

  /** Main result: the delay is also necessary. On a disciplined run without admissions of `k`,
      a check made at `t` is allowed if and only if the oldest counted hit has left the window. */
  lemma ExactWait(s: Limiter, k: Key, limit: nat, window: real, now: real, ops: seq<Op>, t: real)
    requires limit >= 1 && |HitsOf(s, k)| <= limit && Sorted(HitsOf(s, k))
    requires Wait(s, k, limit, window, now) > 0.0
    requires forall op <- ops :: Usable(op)
    requires var s1 := AfterRefusal(s, k, limit, window, now);
             Quiet(s1, ops, k) && Disciplined(s1, ops, k, window, now) && UpTo(ops, t)
    ensures HitsOf(s, k) != []
    ensures Wait(Run(AfterRefusal(s, k, limit, window, now), ops), k, limit, window, t) == 0.0
       <==> t >= HitsOf(s, k)[0] + window
  {
    var hits := HitsOf(s, k);
    var s1 := AfterRefusal(s, k, limit, window, now);
    RefusalHits(s, k, limit, window, now);
    if t < hits[0] + window {
      QuietKeepsFreshHits(s1, ops, k, window, now, t);
      assert Live(hits, t - window) == hits;
    } else {
      QuietOnlyShrinks(s1, ops, k);
      ShrunkAndPruned(hits, HitsOf(Run(s1, ops), k), t - window);
      FewHitsAdmit(Run(s1, ops), k, limit, window, t);
    }
  }

  /** Main result, on every state that a run reaches: after a refusal, the announced delay and the
      rounded header suffice, and without other admissions a check is allowed if and only if the
      oldest counted hit has left the window. */
  lemma WaitIsExactOnRuns(maxKeys: nat, before: seq<Op>, k: Key, limit: nat, window: real, start: real, now: real,
                          ops: seq<Op>, t: real)
    requires limit >= 1 && Timely(before, k, start) && ChecksOnly(before, k, limit)
    requires Wait(Run(Fresh(maxKeys), before), k, limit, window, now) > 0.0
    requires forall op <- ops :: Usable(op)
    requires Quiet(AfterRefusal(Run(Fresh(maxKeys), before), k, limit, window, now), ops, k)
    ensures var s := Run(Fresh(maxKeys), before);
            var wait, s1 := Wait(s, k, limit, window, now), AfterRefusal(s, k, limit, window, now);
            && HitsOf(s, k) != []
            && (t >= now + wait || t >= now + RetryAfterHeader(wait) as real ==> Wait(Run(s1, ops), k, limit, window, t) == 0.0)
            && (Disciplined(s1, ops, k, window, now) && UpTo(ops, t) ==>
                  (Wait(Run(s1, ops), k, limit, window, t) == 0.0 <==> t >= HitsOf(s, k)[0] + window))
  {
    var s := Run(Fresh(maxKeys), before);
    DequeIsBounded(Fresh(maxKeys), before, k, limit);
    ForgettingIsExact(maxKeys, before, k, start, 0.0);
    RefusalHits(s, k, limit, window, now);
    var wait, s1 := Wait(s, k, limit, window, now), AfterRefusal(s, k, limit, window, now);
    if t >= now + wait || t >= now + RetryAfterHeader(wait) as real {
      AnnouncedWaitSuffices(s, k, limit, window, now, ops, t);
    }
    if Disciplined(s1, ops, k, window, now) && UpTo(ops, t) {
      ExactWait(s, k, limit, window, now, ops, t);
    }
  }

  // ---------------------------------------------------------------- where the premises matter

  /** Two windows on one key: the shorter one prunes a hit that the longer one still counts,
      so the third check is admitted where the complete log refuses it. */
  lemma SeveralWindowsForget()
    ensures var s0 := Step(Fresh(9), Check("k", 2, 100.0, 0.0, 0.0, 0.0));
            var s1 := Step(s0, Check("k", 2, 10.0, 50.0, 50.0, 50.0));
            var third := Check("k", 2, 100.0, 60.0, 60.0, 60.0);
            Admits(s1, third) && !SpecAdmits([0.0, 50.0], third)
  {
    var first, second := Check("k", 2, 100.0, 0.0, 0.0, 0.0), Check("k", 2, 10.0, 50.0, 50.0, 50.0);
    var s0 := Recorded(Fresh(9), first);
    assert HitsOf(s0, "k") == [] + [0.0] == [0.0];
    assert |s0.hits.Keys| == |{"k"}| == 1;
    assert Step(Fresh(9), first) == s0;
    assert Live([0.0], 40.0) == Live([], 40.0) by { assert [0.0][1..] == []; }
    var s1 := Recorded(s0, second);
    assert HitsOf(s1, "k") == [] + [50.0] == [50.0];
    assert s1.hits.Keys == {"k"} && |s1.hits.Keys| == 1;
    assert Step(s0, second) == s1;
    assert [0.0, 50.0][1..] == [50.0] && [50.0][1..] == [];
    assert CountAfter([50.0], -40.0) == 1 && CountAfter([0.0, 50.0], -40.0) == 2;
  }

  /** A table that is full of hits still in the window. */
  ghost predicate FullTable(s: Limiter, t: real) {
    |s.hits| == s.maxKeys && forall k <- s.hits :: !Expired(s.hits[k], t - s.maxWindow)
  }

  lemma NewKeyRecorded(s: Limiter, b: Key, limit: nat, t: real)
    requires limit >= 1 && s.maxWindow > 0.0 && b !in s.hits
    ensures var op := Check(b, limit, s.maxWindow, t, t, t);
            Admits(s, op) && Recorded(s, op) == s.(hits := s.hits[b := [t]])
  {
    assert [] + [t] == [t];
  }

  /** Saturation: on a full table, one key more clears every counter. */
  lemma KeyTooMany(s: Limiter, b: Key, limit: nat, t: real)
    requires limit >= 1 && s.maxWindow > 0.0 && FullTable(s, t) && b !in s.hits
    ensures Step(s, Check(b, limit, s.maxWindow, t, t, t)).hits == map[]
  {
    var s' := s.(hits := s.hits[b := [t]]);
    NewKeyRecorded(s, b, limit, t);
    assert |s'.hits| == |s.hits| + 1 by {
      assert s'.hits.Keys == s.hits.Keys + {b};
    }
    assert Unexpired(s'.hits, t - s.maxWindow) == s'.hits by {
      StaysFull(s, b, t);
    }
    assert Collect(s', t).hits == map[];
  }

  lemma StaysFull(s: Limiter, b: Key, t: real)
    requires s.maxWindow > 0.0 && FullTable(s, t) && b !in s.hits
    ensures Unexpired(s.hits[b := [t]], t - s.maxWindow) == s.hits[b := [t]]
  {
  }

  function Name(i: nat): (k: Key)
    ensures |k| == i
  {
    if i == 0 then "" else "k" + Name(i - 1)
  }

  function Visit(i: nat): Op {
    Check(Name(i), 1, 60.0, 0.0, 0.0, 0.0)
  }

  /** One admission of each of the first `n` keys, and the table they leave. */
  function Filling(n: nat): seq<Op> {
    if n == 0 then [] else Filling(n - 1) + [Visit(n - 1)]
  }

  function FilledHits(n: nat): map<Key, seq<real>> {
    if n == 0 then map[] else FilledHits(n - 1)[Name(n - 1) := [0.0]]
  }

  lemma {:induction false} FilledSound(n: nat)
    ensures |FilledHits(n)| == n
    ensures forall k <- FilledHits(n) :: |k| < n && FilledHits(n)[k] == [0.0]
    ensures n > 0 ==> Name(0) in FilledHits(n)
  {
    if n > 0 {
      FilledSound(n - 1);
      var before, after := FilledHits(n - 1), FilledHits(n);
      assert Name(n - 1) !in before;
      assert after.Keys == before.Keys + {Name(n - 1)} && |after.Keys| == |before.Keys| + 1;
    }
  }

  lemma VisitFills(s: Limiter, n: nat)
    requires n < s.maxKeys && s.hits == FilledHits(n) && (n > 0 ==> s.maxWindow == 60.0) && s.maxWindow >= 0.0 && s.maxWindow <= 60.0
    ensures Step(s, Visit(n)) == s.(maxWindow := 60.0, hits := FilledHits(n + 1))
  {
    FilledSound(n);
    FilledSound(n + 1);
    assert [] + [0.0] == [0.0];
    assert Recorded(s, Visit(n)) == s.(maxWindow := 60.0, hits := FilledHits(n + 1));
  }

  lemma {:induction false} FillingFills(maxKeys: nat, n: nat)
    requires n <= maxKeys
    ensures forall op <- Filling(n) :: Usable(op)
    ensures Run(Fresh(maxKeys), Filling(n)) == Limiter(maxKeys, if n == 0 then 0.0 else 60.0, FilledHits(n))
  {
    if n > 0 {
      FillingFills(maxKeys, n - 1);
      RunOfAppend(Fresh(maxKeys), Filling(n - 1), Visit(n - 1));
      VisitFills(Run(Fresh(maxKeys), Filling(n - 1)), n - 1);
    }
  }

  lemma {:induction false} RunOfAppend(s: Limiter, ops: seq<Op>, op: Op)
    requires forall o <- ops :: Usable(o)
    requires Usable(op)
    ensures forall o <- ops + [op] :: Usable(o)
    ensures Run(s, ops + [op]) == Step(Run(s, ops), op)
    decreases |ops|
  {
    if ops == [] {
      assert [op][1..] == [] && ops + [op] == [op];
    } else {
      assert (ops + [op])[1..] == ops[1..] + [op];
      RunOfAppend(Step(s, ops[0]), ops[1..], op);
    }
  }

  /** So a table of any size forgets: once it is full, one key more frees an exhausted key. */
  lemma SaturationForgets(maxKeys: nat)
    requires maxKeys >= 1
    ensures forall op <- Filling(maxKeys) :: Usable(op)
    ensures var s := Run(Fresh(maxKeys), Filling(maxKeys));
            var again := Check(Name(0), 1, 60.0, 2.0, 2.0, 2.0);
            && !Admits(s, again)
            && Admits(Step(s, Check(Name(maxKeys), 1, 60.0, 1.0, 1.0, 1.0)), again)
  {
    var s := Limiter(maxKeys, 60.0, FilledHits(maxKeys));
    FillingFills(maxKeys, maxKeys);
    FilledSound(maxKeys);
    KeyTooMany(s, Name(maxKeys), 1, 1.0);
    assert HitsOf(s, Name(0)) == [0.0] && Live([0.0], -58.0) == [0.0];
  }

  // ---------------------------------------------------------------- the mutable object

  lemma CheckIsPeekThenRecord(s: Limiter, k: Key, limit: nat, window: real, decideAt: real, recordAt: real, gcAt: real)
    requires limit >= 1
    ensures var op := Check(k, limit, window, decideAt, recordAt, gcAt);
            var s' := Step(s.(maxWindow := Max(s.maxWindow, window)), Peek(k, limit, window, decideAt));
            Step(s, op) == if Admits(s, op) then Step(s', Record(k, recordAt, gcAt)) else s'
  {
  }

  class SlidingWindowLimiter {
    const maxKeys: nat
    var maxWindow: real
    var hits: map<Key, seq<real>>

    ghost function View(): Limiter
      reads this
    {
      Limiter(maxKeys, maxWindow, hits)
    }

    constructor (maxKeys: nat)
      ensures View() == Fresh(maxKeys)
    {
      this.maxKeys := maxKeys;
      maxWindow := 0.0;
      hits := map[];
    }

    method Prune(key: Key, now: real, window: real)
      requires key in hits
      modifies this`hits
      ensures hits == old(hits)[key := Live(old(hits)[key], now - window)]
    {
      var cutoff := now - window;
      while hits[key] != [] && hits[key][0] <= cutoff
        invariant key in hits
        invariant hits == old(hits)[key := hits[key]]
        invariant Live(hits[key], cutoff) == Live(old(hits)[key], cutoff)
        decreases |hits[key]|
      {
        hits := hits[key := hits[key][1..]];
      }
    }

    method RetryAfter(key: Key, limit: nat, window: real, now: real) returns (wait: real)
      requires limit >= 1
      modifies this`hits
      ensures wait == Wait(old(View()), key, limit, window, now)
      ensures View() == Step(old(View()), Peek(key, limit, window, now))
    {
      if key !in hits || hits[key] == [] {
        return 0.0;
      }
      Prune(key, now, window);
      if |hits[key]| < limit {
        return 0.0;
      }
      wait := Max(hits[key][0] + window - now, 0.001);
    }

    /** The deletion loop, over keys collected beforehand. */
    method RemoveAll(dead: set<Key>)
      modifies this`hits
      ensures hits == old(hits) - dead
    {
      var left := dead;
      while left != {}
        invariant left <= dead
        invariant hits == old(hits) - (dead - left)
      {
        var key :| key in left;
        hits := hits - {key};
        left := left - {key};
        assert (dead - (left + {key})) + {key} == dead - left;
      }
      assert dead - left == dead;
    }

    method CollectGarbage(now: real)
      modifies this`hits
      ensures View() == Collect(old(View()), now)
    {
      if |hits| <= maxKeys {
        return;
      }
      var cutoff := now - maxWindow;
      RemoveAll(set k | k in hits && Expired(hits[k], cutoff));
      assert hits == Unexpired(old(hits), cutoff);
      if |hits| > maxKeys {
        hits := map[];
      }
    }

    method Record(key: Key, recordAt: real, gcAt: real)
      modifies this`hits
      ensures View() == Step(old(View()), Op.Record(key, recordAt, gcAt))
    {
      if key !in hits {
        hits := hits[key := []];
      }
      hits := hits[key := hits[key] + [recordAt]];
      assert hits == old(hits)[key := HitsOf(old(View()), key) + [recordAt]];
      CollectGarbage(gcAt);
    }

    method Check(key: Key, limit: nat, window: real, decideAt: real, recordAt: real, gcAt: real) returns (wait: real)
      requires limit >= 1
      modifies this
      ensures wait == Wait(old(View()), key, limit, window, decideAt)
      ensures View() == Step(old(View()), Op.Check(key, limit, window, decideAt, recordAt, gcAt))
    {
      CheckIsPeekThenRecord(View(), key, limit, window, decideAt, recordAt, gcAt);
      maxWindow := Max(maxWindow, window);
      wait := RetryAfter(key, limit, window, decideAt);
      if wait == 0.0 {
        Record(key, recordAt, gcAt);
      }
    }

    method Reset()
      modifies this`hits
      ensures View() == Step(old(View()), Op.Reset) && hits == map[]
    {
      hits := map[];
    }

    /** Notes and controls a request: `refusal` is the Retry-After value of the 429 response. */
    method Enforce(key: Key, limit: nat, window: real, enabled: bool, decideAt: real, recordAt: real, gcAt: real)
      returns (refusal: int)
      requires limit >= 1
      modifies this
      ensures !enabled ==> refusal == 0 && View() == old(View())
      ensures enabled ==> View() == Step(old(View()), Op.Check(key, limit, window, decideAt, recordAt, gcAt))
      ensures enabled ==> (refusal == 0 <==> Admits(old(View()), Op.Check(key, limit, window, decideAt, recordAt, gcAt)))
      ensures refusal != 0 ==> refusal == RetryAfterHeader(Wait(old(View()), key, limit, window, decideAt)) >= 1
    {
      refusal := 0;
      if enabled {
        var wait := Check(key, limit, window, decideAt, recordAt, gcAt);
        if wait > 0.0 {
          refusal := RetryAfterHeader(wait);
        }
      }
    }
  }
}
