/** The cache of signing keys of backend/app/security/oidc.py: `_refresh` reloads the key set,
    `_key` decides when. Clock readings and the outcome of each fetch are inputs. */
module JwksCache {
  import opened Common

  /** An entry of a key set: `kid` is absent when it is not a string, `key` when it is unusable. */
  datatype Entry = Entry(kid: Option<string>, key: Option<string>)

  datatype Error = JwksUnavailable | UnknownKey

  datatype Cache = Cache(keys: map<string, string>, loadedAt: Option<real>)

  const EMPTY := Cache(map[], None)
  const MIN_REFRESH_SECONDS := 30.0

  /** One call of `_key`: the clock when it decides, what a fetch would bring, and the clock once
      the fetch is over. */
  datatype Ask = Ask(kid: string, now: real, fetched: Option<seq<Entry>>, after: real)

  predicate Usable(e: Entry) {
    e.kid.Some? && e.key.Some?
  }

  function Loaded(entries: seq<Entry>): map<string, string> {
    if entries == [] then map[]
    else if Usable(Last(entries)) then Loaded(Init(entries))[Last(entries).kid.value := Last(entries).key.value]
    else Loaded(Init(entries))
  }

  /** A key set holds exactly the usable entries, the last one of each name. */
  lemma {:induction false} LoadedIsLastOfEach(entries: seq<Entry>, kid: string)
    ensures kid in Loaded(entries) <==> exists i :: 0 <= i < |entries| && Usable(entries[i]) && entries[i].kid.value == kid
    ensures kid in Loaded(entries) ==> exists i ::
              && 0 <= i < |entries| && Usable(entries[i]) && entries[i].kid.value == kid && entries[i].key.value == Loaded(entries)[kid]
              && forall j | i < j < |entries| && Usable(entries[j]) :: entries[j].kid.value != kid
  {
    if entries != [] {
      LoadedIsLastOfEach(Init(entries), kid);
      var n := |entries| - 1;
      if Usable(entries[n]) && entries[n].kid.value == kid {
      } else if kid in Loaded(Init(entries)) {
        var i :| && 0 <= i < n && Usable(Init(entries)[i]) && Init(entries)[i].kid.value == kid
                 && Init(entries)[i].key.value == Loaded(Init(entries))[kid]
                 && forall j | i < j < n && Usable(Init(entries)[j]) :: Init(entries)[j].kid.value != kid;
        forall j | i < j < |entries| && Usable(entries[j]) ensures entries[j].kid.value != kid {
          if j < n { assert Init(entries)[j] == entries[j]; }
        }
        assert entries[i] == Init(entries)[i];
      } else {
        forall i | 0 <= i < |entries| && Usable(entries[i]) ensures entries[i].kid.value != kid {
          if i < n { assert Init(entries)[i] == entries[i]; }
        }
      }
    }
  }

  // ---------------------------------------------------------------- one call

  predicate Stale(c: Cache, cacheSeconds: real, now: real) {
    c.loadedAt.None? || now - c.loadedAt.value > cacheSeconds
  }

  predicate NeedsReload(c: Cache, cacheSeconds: real, ask: Ask) {
    || Stale(c, cacheSeconds, ask.now)
    || (ask.kid !in c.keys && ask.now - c.loadedAt.value >= MIN_REFRESH_SECONDS)
  }

  predicate Reloads(c: Cache, cacheSeconds: real, ask: Ask) {
    NeedsReload(c, cacheSeconds, ask) && ask.fetched.Some?
  }

  function Step(c: Cache, cacheSeconds: real, ask: Ask): Cache {
    if Reloads(c, cacheSeconds, ask) then Cache(Loaded(ask.fetched.value), Some(ask.after)) else c
  }

  function Answer(c: Cache, cacheSeconds: real, ask: Ask): Result<string, Error> {
    if NeedsReload(c, cacheSeconds, ask) && ask.fetched.None? then Err(JwksUnavailable)
    else
      var c' := Step(c, cacheSeconds, ask);
      if ask.kid in c'.keys then Ok(c'.keys[ask.kid]) else Err(UnknownKey)
  }

  // ---------------------------------------------------------------- runs

  predicate Monotone(asks: seq<Ask>, from: real) {
    asks != [] ==> from <= asks[0].now <= asks[0].after && Monotone(asks[1..], asks[0].after)
  }

  function Run(c: Cache, cacheSeconds: real, asks: seq<Ask>): Cache
    decreases |asks|
  {
    if asks == [] then c else Run(Step(c, cacheSeconds, asks[0]), cacheSeconds, asks[1..])
  }

  /** The times at which a run reloads the key set. */
  function ReloadTimes(c: Cache, cacheSeconds: real, asks: seq<Ask>): seq<real>
    decreases |asks|
  {
    if asks == [] then []
    else (if Reloads(c, cacheSeconds, asks[0]) then [asks[0].after] else [])
         + ReloadTimes(Step(c, cacheSeconds, asks[0]), cacheSeconds, asks[1..])
  }

  function Gap(cacheSeconds: real): real {
    if cacheSeconds < MIN_REFRESH_SECONDS then cacheSeconds else MIN_REFRESH_SECONDS
  }

  ghost predicate SpacedBy(times: seq<real>, gap: real) {
    forall i, j | 0 <= i && j == i + 1 && j < |times| :: times[j] >= times[i] + gap
  }

  lemma {:induction false} ReloadsSpacedFrom(c: Cache, cacheSeconds: real, asks: seq<Ask>, from: real)
    requires Monotone(asks, from)
    ensures var times := ReloadTimes(c, cacheSeconds, asks);
            && SpacedBy(times, Gap(cacheSeconds))
            && (times != [] && c.loadedAt.Some? ==> times[0] >= c.loadedAt.value + Gap(cacheSeconds))
    decreases |asks|
  {
    if asks != [] {
      ReloadsSpacedFrom(Step(c, cacheSeconds, asks[0]), cacheSeconds, asks[1..], asks[0].after);
    }
  }

  /** The length of `n` gaps in a row. */
  function Gaps(n: nat, gap: real): real {
    if n == 0 then 0.0 else gap + Gaps(n - 1, gap)
  }

  lemma {:induction false} GapsMultiply(n: nat, gap: real)
    ensures Gaps(n, gap) == n as real * gap
  {
    if n > 0 {
      GapsMultiply(n - 1, gap);
      assert n as real * gap == gap + (n - 1) as real * gap;
    }
  }

  lemma {:induction false} SpacedAddsUp(times: seq<real>, gap: real, n: nat)
    requires SpacedBy(times, gap) && n < |times|
    ensures times[n] >= times[0] + Gaps(n, gap)
  {
    if n > 0 {
      SpacedAddsUp(times, gap, n - 1);
    }
  }

  /** Main result: whatever key names are asked for, reloads that succeed are at least
      min(cache_seconds, 30) seconds apart. */
  lemma ReloadsAreSpaced(cacheSeconds: real, asks: seq<Ask>, from: real)
    requires Monotone(asks, from)
    ensures SpacedBy(ReloadTimes(EMPTY, cacheSeconds, asks), Gap(cacheSeconds))
  {
    ReloadsSpacedFrom(EMPTY, cacheSeconds, asks, from);
  }

  /** So the reloads of `period` seconds, but for the first, take a gap each: with the default
      settings there are at most 1 + period / 30 of them. */
  lemma ReloadsAreRare(cacheSeconds: real, asks: seq<Ask>, from: real, period: real)
    requires Monotone(asks, from)
    requires forall ask <- asks :: ask.after <= from + period
    requires ReloadTimes(EMPTY, cacheSeconds, asks) != []
    ensures Gaps(|ReloadTimes(EMPTY, cacheSeconds, asks)| - 1, Gap(cacheSeconds)) <= period
    ensures cacheSeconds >= 30.0 ==> 30.0 * (|ReloadTimes(EMPTY, cacheSeconds, asks)| - 1) as real <= period
  {
    ReloadsAreSpaced(cacheSeconds, asks, from);
    ReloadsWithin(EMPTY, cacheSeconds, asks, from, period);
    SpanOfSpaced(ReloadTimes(EMPTY, cacheSeconds, asks), Gap(cacheSeconds), from, period);
    GapsMultiply(|ReloadTimes(EMPTY, cacheSeconds, asks)| - 1, 30.0);
  }

  lemma SpanOfSpaced(times: seq<real>, gap: real, from: real, period: real)
    requires SpacedBy(times, gap) && times != []
    requires forall t <- times :: from <= t <= from + period
    ensures Gaps(|times| - 1, gap) <= period
  {
    SpacedAddsUp(times, gap, |times| - 1);
    assert times[0] in times && times[|times| - 1] in times;
  }

  lemma {:induction false} ReloadsWithin(c: Cache, cacheSeconds: real, asks: seq<Ask>, from: real, period: real)
    requires Monotone(asks, from)
    requires forall ask <- asks :: ask.after <= from + period
    ensures forall t <- ReloadTimes(c, cacheSeconds, asks) :: from <= t <= from + period
    decreases |asks|
  {
    if asks != [] {
      assert asks[0] in asks;
      var later := from + period - asks[0].after;
      ReloadsWithin(Step(c, cacheSeconds, asks[0]), cacheSeconds, asks[1..], asks[0].after, later);
    }
  }

  // ---------------------------------------------------------------- the reference: the last set loaded

  /** A call must fetch if nothing was ever loaded, if the last set is too old, or if it lacks the
      name asked for and is at least half a minute old. */
  predicate MustFetch(last: Option<(seq<Entry>, real)>, cacheSeconds: real, kid: string, now: real) {
    match last
    case None => true
    case Some((entries, at)) =>
      now - at > cacheSeconds || (now - at >= 30.0 && forall e <- entries :: !(Usable(e) && e.kid == Some(kid)))
  }

  /** The set loaded last over a run, and when, by that rule alone. */
  function LastLoad(last: Option<(seq<Entry>, real)>, cacheSeconds: real, asks: seq<Ask>): Option<(seq<Entry>, real)>
    decreases |asks|
  {
    if asks == [] then last
    else LastLoad(if MustFetch(last, cacheSeconds, asks[0].kid, asks[0].now) && asks[0].fetched.Some?
                  then Some((asks[0].fetched.value, asks[0].after)) else last,
                  cacheSeconds, asks[1..])
  }

  /** The cache holds the set that was loaded last, entire and stamped with its time. */
  predicate Holds(c: Cache, last: Option<(seq<Entry>, real)>) {
    match last
    case None => c == EMPTY
    case Some((entries, at)) => c == Cache(Loaded(entries), Some(at))
  }

  lemma HoldsDecides(c: Cache, last: Option<(seq<Entry>, real)>, cacheSeconds: real, ask: Ask)
    requires Holds(c, last)
    ensures NeedsReload(c, cacheSeconds, ask) <==> MustFetch(last, cacheSeconds, ask.kid, ask.now)
  {
    if last.Some? {
      var entries := last.value.0;
      LoadedIsLastOfEach(entries, ask.kid);
      if ask.kid in Loaded(entries) {
        var i :| 0 <= i < |entries| && Usable(entries[i]) && entries[i].kid.value == ask.kid;
        assert entries[i] in entries;
      }
    }
  }

  lemma {:induction false} CacheHoldsLastLoad(last: Option<(seq<Entry>, real)>, c: Cache, cacheSeconds: real, asks: seq<Ask>)
    requires Holds(c, last)
    ensures Holds(Run(c, cacheSeconds, asks), LastLoad(last, cacheSeconds, asks))
    decreases |asks|
  {
    if asks != [] {
      HoldsDecides(c, last, cacheSeconds, asks[0]);
      var last' := if MustFetch(last, cacheSeconds, asks[0].kid, asks[0].now) && asks[0].fetched.Some?
                   then Some((asks[0].fetched.value, asks[0].after)) else last;
      CacheHoldsLastLoad(last', Step(c, cacheSeconds, asks[0]), cacheSeconds, asks[1..]);
    }
  }

  /** Main result, both ways: after any run, a call fetches exactly if it must. It is then refused if
      the fetch fails, and otherwise answered from the set fetched; a call that does not fetch is
      answered from the set loaded last. A name is refused as unknown only if that set lacks it. */
  lemma AnswersByRule(cacheSeconds: real, asks: seq<Ask>, ask: Ask)
    ensures var last := LastLoad(None, cacheSeconds, asks);
            var answer := Answer(Run(EMPTY, cacheSeconds, asks), cacheSeconds, ask);
            if !MustFetch(last, cacheSeconds, ask.kid, ask.now) then answer == Found(last.value.0, ask.kid)
            else if ask.fetched.None? then answer == Err(JwksUnavailable)
            else answer == Found(ask.fetched.value, ask.kid)
  {
    var last := LastLoad(None, cacheSeconds, asks);
    CacheHoldsLastLoad(None, EMPTY, cacheSeconds, asks);
    HoldsDecides(Run(EMPTY, cacheSeconds, asks), last, cacheSeconds, ask);
    if !MustFetch(last, cacheSeconds, ask.kid, ask.now) {
      FoundInLoaded(last.value.0, ask.kid);
    } else if ask.fetched.Some? {
      FoundInLoaded(ask.fetched.value, ask.kid);
    }
  }

  /** The key of a name in a list of entries: that of the last usable one. */
  function Found(entries: seq<Entry>, kid: string): Result<string, Error> {
    if entries == [] then Err(UnknownKey)
    else if Last(entries).kid == Some(kid) && Last(entries).key.Some? then Ok(Last(entries).key.value)
    else Found(Init(entries), kid)
  }

  lemma {:induction false} FoundInLoaded(entries: seq<Entry>, kid: string)
    ensures Found(entries, kid) == if kid in Loaded(entries) then Ok(Loaded(entries)[kid]) else Err(UnknownKey)
  {
    if entries != [] {
      FoundInLoaded(Init(entries), kid);
    }
  }

  /** In particular a key that has just been published is found: half a minute after the last load,
      a call for a name it lacks is answered with the last usable entry of that name fetched. */
  lemma NewKeyIsFound(cacheSeconds: real, asks: seq<Ask>, ask: Ask, i: nat)
    requires var last := LastLoad(None, cacheSeconds, asks);
             last.Some? ==> ask.now - last.value.1 >= 30.0 && forall e <- last.value.0 :: !(Usable(e) && e.kid == Some(ask.kid))
    requires ask.fetched.Some? && i < |ask.fetched.value|
    requires ask.fetched.value[i].kid == Some(ask.kid) && ask.fetched.value[i].key.Some?
    requires forall n | i < n < |ask.fetched.value| :: !(Usable(ask.fetched.value[n]) && ask.fetched.value[n].kid == Some(ask.kid))
    ensures Answer(Run(EMPTY, cacheSeconds, asks), cacheSeconds, ask) == Ok(ask.fetched.value[i].key.value)
  {
    AnswersByRule(cacheSeconds, asks, ask);
    LastIsFound(ask.fetched.value, ask.kid, i);
  }

  lemma {:induction false} LastIsFound(entries: seq<Entry>, kid: string, i: nat)
    requires i < |entries| && entries[i].kid == Some(kid) && entries[i].key.Some?
    requires forall n | i < n < |entries| :: !(Usable(entries[n]) && entries[n].kid == Some(kid))
    ensures Found(entries, kid) == Ok(entries[i].key.value)
  {
    if i < |entries| - 1 {
      LastIsFound(Init(entries), kid, i);
    }
  }

  /** Main result: after any run, a key that is handed out belongs, under the name asked for, to
      the set loaded last, and that set was loaded by this very call or at most
      `cache_seconds` before it. */
  lemma KeysAreFresh(cacheSeconds: real, asks: seq<Ask>, ask: Ask)
    requires Answer(Run(EMPTY, cacheSeconds, asks), cacheSeconds, ask).Ok?
    ensures var c := Run(EMPTY, cacheSeconds, asks);
            var last := LastLoad(None, cacheSeconds, asks);
            var (entries, at) := if Reloads(c, cacheSeconds, ask) then (ask.fetched.value, ask.after)
                                 else if last.Some? then last.value else ([], ask.now);
            && ((at == ask.after && Reloads(c, cacheSeconds, ask)) || (last.Some? && ask.now - at <= cacheSeconds))
            && ask.kid in Loaded(entries) && Answer(c, cacheSeconds, ask) == Ok(Loaded(entries)[ask.kid])
  {
    CacheHoldsLastLoad(None, EMPTY, cacheSeconds, asks);
  }

  // ---------------------------------------------------------------- attempts

  /** The calls of a run that fetch, whether or not the fetch succeeds. */
  function Attempts(c: Cache, cacheSeconds: real, asks: seq<Ask>): seq<Ask>
    decreases |asks|
  {
    if asks == [] then []
    else (if NeedsReload(c, cacheSeconds, asks[0]) then [asks[0]] else [])
         + Attempts(Step(c, cacheSeconds, asks[0]), cacheSeconds, asks[1..])
  }

  /** What is promised of refreshes, attempt by attempt: the next one waits out the gap. */
  ghost predicate Throttled(before: Ask, next: Ask, gap: real) {
    next.now >= before.after + gap
  }

  /** Main result: within a gap of an attempt, a call for the same key attempts again if and only
      if the fetch failed. A success throttles calls for any key. */
  lemma ThrottledIffFetched(c: Cache, cacheSeconds: real, ask: Ask, again: Ask)
    requires NeedsReload(c, cacheSeconds, ask)
    requires ask.now <= ask.after <= again.now < ask.after + Gap(cacheSeconds)
    ensures Answer(c, cacheSeconds, ask) == Err(JwksUnavailable) <==> ask.fetched.None?
    ensures ask.fetched.Some? ==> !NeedsReload(Step(c, cacheSeconds, ask), cacheSeconds, again)
    ensures again.kid == ask.kid ==> (NeedsReload(Step(c, cacheSeconds, ask), cacheSeconds, again) <==> ask.fetched.None?)
  {
  }

  ghost predicate ThrottledAfterSuccess(attempts: seq<Ask>, gap: real) {
    forall i, j | 0 <= i && j == i + 1 && j < |attempts| && attempts[i].fetched.Some? :: Throttled(attempts[i], attempts[j], gap)
  }

  lemma {:induction false} AttemptsFrom(c: Cache, cacheSeconds: real, asks: seq<Ask>, from: real)
    requires Monotone(asks, from)
    ensures var attempts := Attempts(c, cacheSeconds, asks);
            && ThrottledAfterSuccess(attempts, Gap(cacheSeconds))
            && (attempts != [] && c.loadedAt.Some? ==> attempts[0].now >= c.loadedAt.value + Gap(cacheSeconds))
    decreases |asks|
  {
    if asks != [] {
      AttemptsFrom(Step(c, cacheSeconds, asks[0]), cacheSeconds, asks[1..], asks[0].after);
    }
  }

  /** Main result: over any run, an attempt made before the gap is over follows a failed fetch;
      so attempts are a gap apart if no fetch fails but perhaps the last. */
  lemma AttemptsAreThrottled(cacheSeconds: real, asks: seq<Ask>, from: real)
    requires Monotone(asks, from)
    ensures var attempts := Attempts(EMPTY, cacheSeconds, asks);
            && ThrottledAfterSuccess(attempts, Gap(cacheSeconds))
            && ((forall i | 0 <= i < |attempts| - 1 :: attempts[i].fetched.Some?) ==>
                forall i, j | 0 <= i && j == i + 1 && j < |attempts| :: Throttled(attempts[i], attempts[j], Gap(cacheSeconds)))
  {
    AttemptsFrom(EMPTY, cacheSeconds, asks, from);
  }

  /** Main result: while the cache is stale and fetches fail, every call attempts one. */
  lemma {:induction false} OutageAttemptsEveryCall(c: Cache, cacheSeconds: real, asks: seq<Ask>, from: real)
    requires Monotone(asks, from) && Stale(c, cacheSeconds, from)
    requires forall ask <- asks :: ask.fetched.None?
    ensures Attempts(c, cacheSeconds, asks) == asks && Run(c, cacheSeconds, asks) == c
    decreases |asks|
  {
    if asks != [] {
      assert asks[0] in asks && asks == [asks[0]] + asks[1..];
      OutageAttemptsEveryCall(c, cacheSeconds, asks[1..], asks[0].after);
    }
  }

  /** A call that fails at once. */
  const REFUSED := Ask("k", 0.0, None, 0.0)

  function Refusals(n: nat): seq<Ask> {
    if n == 0 then [] else [REFUSED] + Refusals(n - 1)
  }

  /** So no number bounds the attempts made within a gap: a run may make any number of them at
      one instant. */
  lemma {:induction false} AttemptsAreUnbounded(n: nat, cacheSeconds: real)
    ensures var asks := Refusals(n);
            && Monotone(asks, 0.0) && |Attempts(EMPTY, cacheSeconds, asks)| == n
            && forall ask <- Attempts(EMPTY, cacheSeconds, asks) :: ask.now == ask.after == 0.0
  {
    RefusalsAreMonotone(n);
    OutageAttemptsEveryCall(EMPTY, cacheSeconds, Refusals(n), 0.0);
  }

  lemma {:induction false} RefusalsAreMonotone(n: nat)
    ensures Monotone(Refusals(n), 0.0) && |Refusals(n)| == n && forall ask <- Refusals(n) :: ask == REFUSED
  {
    if n > 0 {
      RefusalsAreMonotone(n - 1);
    }
  }

  // ---------------------------------------------------------------- the object

  class OidcVerifier {
    const cacheSeconds: real
    var keys: map<string, string>
    var loadedAt: Option<real>

    ghost function View(): Cache
      reads this
    {
      Cache(keys, loadedAt)
    }

    constructor (cacheSeconds: real)
      ensures View() == EMPTY && this.cacheSeconds == cacheSeconds
    {
      this.cacheSeconds := cacheSeconds;
      keys, loadedAt := map[], None;
    }

    method Refresh(entries: seq<Entry>, after: real)
      modifies this
      ensures View() == Cache(Loaded(entries), Some(after))
    {
      var rebuilt: map<string, string> := map[];
      for i := 0 to |entries|
        invariant rebuilt == Loaded(entries[..i])
      {
        assert Init(entries[..i + 1]) == entries[..i];
        var entry := entries[i];
        if entry.kid.None? || entry.key.None? {
          continue;
        }
        rebuilt := rebuilt[entry.kid.value := entry.key.value];
      }
      assert entries[..|entries|] == entries;
      keys := rebuilt;
      loadedAt := Some(after);
    }

    /** `fetches` tells whether the call asks for the key set. */
    method KeyFor(ask: Ask) returns (r: Result<string, Error>, fetches: bool)
      modifies this
      ensures View() == Step(old(View()), cacheSeconds, ask)
      ensures r == Answer(old(View()), cacheSeconds, ask)
      ensures fetches <==>
              || old(loadedAt).None?
              || ask.now - old(loadedAt).value > cacheSeconds
              || (ask.kid !in old(keys) && ask.now - old(loadedAt).value >= 30.0)
      ensures if fetches && ask.fetched.Some? then keys == Loaded(ask.fetched.value) && loadedAt == Some(ask.after)
              else keys == old(keys) && loadedAt == old(loadedAt)
      ensures r == if fetches && ask.fetched.None? then Err(JwksUnavailable)
                   else if ask.kid in keys then Ok(keys[ask.kid]) else Err(UnknownKey)
    {
      var age := if loadedAt.None? then None else Some(ask.now - loadedAt.value);
      var stale := age.None? || age.value > cacheSeconds;
      var unknownKidRefreshAllowed := age.None? || age.value >= MIN_REFRESH_SECONDS;
      fetches := stale || (ask.kid !in keys && unknownKidRefreshAllowed);
      if fetches {
        if ask.fetched.None? {
          return Err(JwksUnavailable), fetches;
        }
        Refresh(ask.fetched.value, ask.after);
      }
      if ask.kid !in keys {
        return Err(UnknownKey), fetches;
      }
      r := Ok(keys[ask.kid]);
    }
  }
}
