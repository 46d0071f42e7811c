/** What holds of every compiled container: references are closed, each item is accounted for,
    and neither the order nor the repetition of the chosen items matters. */
module GtmResults {
  import opened Common
  import opened Sequences
  import opened GtmContainer

  /** What is asked of a catalogue: recipes send different events, use only declared variables,
      and are too few for fresh numbers to reach the reserved one. */
  ghost predicate Coherent(c: Catalogue) {
    && (forall a, b | a in c.recipes && b in c.recipes && c.recipes[a].event == c.recipes[b].event :: a == b)
    && (forall a | a in c.recipes :: RowsDeclared(c.recipes[a].params))
    && |c.recipes| < ALL_PAGES - FIRST_TRIGGER
  }

  predicate Declared(v: Value) {
    v.Ref? ==> v.name in DECLARED || v.name == "_event"
  }

  ghost predicate RowsDeclared(rows: seq<(string, Value)>) {
    forall i | 0 <= i < |rows| :: Declared(rows[i].1)
  }

  // ---------------------------------------------------------------- numbering

  lemma EventCount(c: Catalogue, req: Request)
    ensures |Events(c, req)| <= |c.recipes|
  {
    EventsSound(c, req);
    DistinctLength(Events(c, req));
    assert Elements(Events(c, req)) <= c.recipes.Keys;
    Smaller(Elements(Events(c, req)), c.recipes.Keys);
  }

  lemma Smaller(a: set<string>, b: set<string>)
    requires a <= b
    ensures |a| <= |b|
  {
    assert b == a + (b - a);
  }

  lemma TriggerAt(c: Catalogue, req: Request, k: nat)
    requires k < |AllTriggers(c, req)|
    ensures AllTriggers(c, req)[k].id == FIRST_TRIGGER + k
    ensures forall e :: e in Events(c, req) <==> e in req.items && e in c.recipes
    ensures var h := |HistoryTrigger(c, req)|;
            AllTriggers(c, req)[k] ==
            if k < h then Trigger(FIRST_TRIGGER, "History Change (SPA)", HistoryChange)
            else EventTrigger(c.recipes[Events(c, req)[k - h]], FIRST_TRIGGER + k)
  {
    EventsSound(c, req);
  }

  function FirstTag(c: Catalogue, req: Request): nat {
    if WantsConfig(c, req) then 1 else FIRST_TAG
  }

  lemma FourParts<T>(a: seq<T>, b: seq<T>, d: seq<T>, e: seq<T>, k: nat)
    requires k < |a + b + d + e|
    ensures (a + b + d + e)[k] ==
            if k < |a| then a[k] else if k < |a| + |b| then b[k - |a|]
            else if k < |a| + |b| + |d| then d[k - |a| - |b|] else e[k - |a| - |b| - |d|]
  {
  }

  /** The parts of the tag list: configuration, events, conversion, linker. */
  lemma TagParts(c: Catalogue, req: Request, k: nat)
    requires k < |AllTags(c, req)|
    ensures forall e <- Events(c, req) :: e in c.recipes
    ensures AllTags(c, req)[k] ==
            var g, n, a := |ConfigTags(c, req)|, |Events(c, req)|, |Ads(c, req)|;
            if k < g then ConfigTags(c, req)[k]
            else if k < g + n then EventTags(c, Events(c, req), Base(c, req))[k - g]
            else if k < g + n + a then Ads(c, req)[k - g - n]
            else Linker(c, req)[k - g - n - a]
  {
    EventsSound(c, req);
    FourParts(ConfigTags(c, req), EventTags(c, Events(c, req), Base(c, req)), Ads(c, req), Linker(c, req), k);
  }

  lemma EventTagAt(c: Catalogue, req: Request, n: nat)
    requires n < |Events(c, req)|
    ensures Events(c, req)[n] in c.recipes
    ensures var k := |ConfigTags(c, req)| + n;
            && k < |AllTags(c, req)|
            && AllTags(c, req)[k] == EventTag(c.recipes[Events(c, req)[n]], FIRST_TAG + n, Base(c, req) + n)
  {
    EventsSound(c, req);
    TagParts(c, req, |ConfigTags(c, req)| + n);
  }

  lemma AdsShape(c: Catalogue, req: Request)
    ensures |Ads(c, req)| <= 1
    ensures Ads(c, req) != [] ==> Ads(c, req)[0].id == FIRST_TAG + |Events(c, req)| && Ads(c, req)[0].name == ADS_TAG
  {
    EventsSound(c, req);
    KeyEventChosen(c.keyEvents, Events(c, req));
  }

  /** After the events come the conversion tag and the linker. */
  lemma LastTagAt(c: Catalogue, req: Request, k: nat)
    requires |ConfigTags(c, req)| + |Events(c, req)| <= k < |AllTags(c, req)|
    ensures var at := k - |ConfigTags(c, req)| - |Events(c, req)|;
            && AllTags(c, req)[k].id == FIRST_TAG + |Events(c, req)| + at
            && (at < |Ads(c, req)| ==> at == 0 && AllTags(c, req)[k] == Ads(c, req)[0] && AllTags(c, req)[k].name == ADS_TAG)
            && (at >= |Ads(c, req)| ==> AllTags(c, req)[k] == LinkerTag(AllTags(c, req)[k].id))
  {
    TagParts(c, req, k);
    AdsShape(c, req);
  }

  lemma TagNumber(c: Catalogue, req: Request, k: nat)
    requires k < |AllTags(c, req)|
    ensures AllTags(c, req)[k].id == FirstTag(c, req) + k
  {
    var g := |ConfigTags(c, req)|;
    if k < g {
      TagParts(c, req, k);
    } else if k < g + |Events(c, req)| {
      EventTagAt(c, req, k - g);
    } else {
      LastTagAt(c, req, k);
    }
  }

  /** Main result: numbers are fresh. Trigger numbers are pairwise different, tag numbers are
      pairwise different, and no trigger takes the reserved number. */
  lemma NumbersDistinct(c: Catalogue, req: Request)
    requires Coherent(c)
    ensures var k := Compiled(c, req);
            && (forall i, j | 0 <= i < j < |k.triggers| :: k.triggers[i].id != k.triggers[j].id)
            && (forall i, j | 0 <= i < j < |k.tags| :: k.tags[i].id != k.tags[j].id)
            && (forall i | 0 <= i < |k.triggers| :: k.triggers[i].id != ALL_PAGES)
  {
    var k := Compiled(c, req);
    EventCount(c, req);
    forall i | 0 <= i < |k.triggers| ensures k.triggers[i].id == FIRST_TRIGGER + i {
      TriggerAt(c, req, i);
    }
    forall i | 0 <= i < |k.tags| ensures k.tags[i].id == FirstTag(c, req) + i {
      TagNumber(c, req, i);
    }
  }

  // ---------------------------------------------------------------- closed references

  ghost predicate Fires(triggers: seq<Trigger>, id: nat) {
    id == ALL_PAGES || exists i :: 0 <= i < |triggers| && triggers[i].id == id
  }

  /** Exactly one tag of the container has this name. */
  ghost predicate NamesOneTag(tags: seq<Tag>, name: string) {
    exists i :: 0 <= i < |tags| && tags[i].name == name && forall j | 0 <= j < |tags| && tags[j].name == name :: j == i
  }

  ghost predicate ParamClosed(tags: seq<Tag>, p: Param) {
    match p
    case Template(_, v) => Declared(v)
    case Boolean(_, _) => true
    case TagReference(_, name) => NamesOneTag(tags, name)
    case Rows(_, rows) => RowsDeclared(rows)
  }

  predicate FilterClosed(f: GtmContainer.Filter) {
    match f
    case HistoryChange => true
    case EventEquals(v, _) => Declared(v)
    case LinkFilter(_, v, _) => Declared(v)
  }

  lemma NamesDiffer(event: string, other: string)
    ensures "GA4 - " + event != CONFIG_TAG && "GA4 - " + event != ADS_TAG && "GA4 - " + event != LINKER_TAG
    ensures ADS_TAG != CONFIG_TAG && LINKER_TAG != CONFIG_TAG && ADS_TAG != LINKER_TAG
    ensures "GA4 - " + event == "GA4 - " + other ==> event == other
    ensures "CE - " + event == "CE - " + other ==> event == other
    ensures "Clic - " + event == "Clic - " + other ==> event == other
    ensures "CE - " + event != "Clic - " + other
    ensures "CE - " + event != "History Change (SPA)" && "Clic - " + event != "History Change (SPA)"
  {
    assert ("GA4 - " + event)[4] == '-' && CONFIG_TAG[4] == 'C' && ADS_TAG[1] == 'o' && LINKER_TAG[0] == 'C';
    assert ("GA4 - " + event)[1] == 'A' && ("GA4 - " + event)[0] == 'G' && CONFIG_TAG[0] == 'G' && ADS_TAG[0] == 'G';
    assert CONFIG_TAG[1] == 'A';
    assert ("GA4 - " + event)[6..] == event && ("GA4 - " + other)[6..] == other;
    assert ("CE - " + event)[5..] == event && ("CE - " + other)[5..] == other;
    assert ("Clic - " + event)[7..] == event && ("Clic - " + other)[7..] == other;
    assert ("CE - " + event)[1] == 'E' && ("Clic - " + other)[1] == 'l' && ("CE - " + event)[0] == 'C';
    assert ("Clic - " + event)[0] == 'C' && "History Change (SPA)"[0] == 'H';
  }

  lemma ConfigNamed(c: Catalogue, req: Request)
    requires WantsConfig(c, req)
    ensures NamesOneTag(AllTags(c, req), CONFIG_TAG)
  {
    var tags := AllTags(c, req);
    assert |ConfigTags(c, req)| == 1;
    TagParts(c, req, 0);
    forall j | 0 <= j < |tags| && tags[j].name == CONFIG_TAG ensures j == 0 {
      if j >= 1 {
        TagNames(c, req, j);
        assert false;
      }
    }
  }

  lemma TagNames(c: Catalogue, req: Request, j: nat)
    requires |ConfigTags(c, req)| <= j < |AllTags(c, req)|
    ensures AllTags(c, req)[j].name != CONFIG_TAG
  {
    NamesDiffer("", "");
    var g, n := |ConfigTags(c, req)|, |Events(c, req)|;
    if j < g + n {
      EventTagAt(c, req, j - g);
      NamesDiffer(c.recipes[Events(c, req)[j - g]].event, "");
    } else {
      LastTagAt(c, req, j);
    }
  }

  ghost predicate TagClosed(triggers: seq<Trigger>, tags: seq<Tag>, tag: Tag) {
    (forall p <- tag.params :: ParamClosed(tags, p)) && (forall f <- tag.firing :: Fires(triggers, f))
  }

  lemma EventTriggerAt(c: Catalogue, req: Request, n: nat)
    requires n < |Events(c, req)|
    ensures Events(c, req)[n] in c.recipes
    ensures var at := |HistoryTrigger(c, req)| + n;
            && at < |AllTriggers(c, req)|
            && AllTriggers(c, req)[at] == EventTrigger(c.recipes[Events(c, req)[n]], Base(c, req) + n)
    ensures Fires(AllTriggers(c, req), Base(c, req) + n)
  {
    EventsSound(c, req);
    var at := |HistoryTrigger(c, req)| + n;
    TriggerAt(c, req, at);
    assert AllTriggers(c, req)[at].id == Base(c, req) + n;
  }

  lemma EventTagClosed(triggers: seq<Trigger>, tags: seq<Tag>, r: Recipe, id: nat, trigger: nat)
    requires NamesOneTag(tags, CONFIG_TAG) && Fires(triggers, trigger) && RowsDeclared(r.params)
    ensures TagClosed(triggers, tags, EventTag(r, id, trigger))
  {
  }

  lemma AdsTagClosed(triggers: seq<Trigger>, tags: seq<Tag>, id: nat, adsId: string, adsLabel: string, trigger: nat, ecommerce: bool)
    requires Fires(triggers, trigger)
    ensures TagClosed(triggers, tags, AdsTag(id, adsId, adsLabel, trigger, ecommerce))
  {
  }

  lemma ConfigTagClosed(triggers: seq<Trigger>, tags: seq<Tag>, measurementId: string, spa: bool)
    requires spa ==> Fires(triggers, FIRST_TRIGGER)
    ensures TagClosed(triggers, tags, ConfigTag(measurementId, spa))
  {
  }

  lemma AdsClosed(c: Catalogue, req: Request)
    requires Ads(c, req) != []
    ensures TagClosed(AllTriggers(c, req), AllTags(c, req), Ads(c, req)[0])
  {
    EventsSound(c, req);
    var events := Events(c, req);
    KeyEventChosen(c.keyEvents, events);
    var key := KeyEvent(c.keyEvents, events).value;
    EventTriggerAt(c, req, IndexOf(events, key));
    AdsTagClosed(AllTriggers(c, req), AllTags(c, req), FIRST_TAG + |events|, RemovePrefix(req.adsId), req.adsLabel,
                 Base(c, req) + IndexOf(events, key), c.recipes[key].ecommerce);
  }

  lemma EventTagIsClosed(c: Catalogue, req: Request, n: nat)
    requires Coherent(c) && n < |Events(c, req)|
    ensures Events(c, req)[n] in c.recipes
    ensures TagClosed(AllTriggers(c, req), AllTags(c, req),
                      EventTag(c.recipes[Events(c, req)[n]], FIRST_TAG + n, Base(c, req) + n))
  {
    EventsSound(c, req);
    ConfigNamed(c, req);
    EventTriggerAt(c, req, n);
    EventTagClosed(AllTriggers(c, req), AllTags(c, req), c.recipes[Events(c, req)[n]], FIRST_TAG + n, Base(c, req) + n);
  }

  lemma ConfigIsClosed(c: Catalogue, req: Request)
    requires WantsConfig(c, req)
    ensures TagClosed(AllTriggers(c, req), AllTags(c, req), ConfigTag(req.measurementId, req.spa))
  {
    if req.spa {
      TriggerAt(c, req, 0);
    }
    ConfigTagClosed(AllTriggers(c, req), AllTags(c, req), req.measurementId, req.spa);
  }

  lemma LinkerTagClosed(triggers: seq<Trigger>, tags: seq<Tag>, id: nat)
    ensures TagClosed(triggers, tags, LinkerTag(id))
  {
  }

  lemma LastTagIsClosed(c: Catalogue, req: Request, i: nat)
    requires |ConfigTags(c, req)| + |Events(c, req)| <= i < |AllTags(c, req)|
    ensures TagClosed(AllTriggers(c, req), AllTags(c, req), AllTags(c, req)[i])
  {
    LastTagAt(c, req, i);
    if i < |ConfigTags(c, req)| + |Events(c, req)| + |Ads(c, req)| {
      AdsClosed(c, req);
    } else {
      LinkerTagClosed(AllTriggers(c, req), AllTags(c, req), AllTags(c, req)[i].id);
    }
  }

  lemma FirstTagIsClosed(c: Catalogue, req: Request, i: nat)
    requires i < |ConfigTags(c, req)|
    ensures i < |AllTags(c, req)| && TagClosed(AllTriggers(c, req), AllTags(c, req), AllTags(c, req)[i])
  {
    ConfigIsClosed(c, req);
    TagParts(c, req, i);
  }

  lemma EventTagPlaceIsClosed(c: Catalogue, req: Request, n: nat)
    requires Coherent(c) && n < |Events(c, req)|
    ensures var i := |ConfigTags(c, req)| + n;
            i < |AllTags(c, req)| && TagClosed(AllTriggers(c, req), AllTags(c, req), AllTags(c, req)[i])
  {
    EventTagAt(c, req, n);
    EventTagIsClosed(c, req, n);
  }

  lemma TagIsClosed(c: Catalogue, req: Request, i: nat)
    requires Coherent(c) && i < |AllTags(c, req)|
    ensures TagClosed(AllTriggers(c, req), AllTags(c, req), AllTags(c, req)[i])
  {
    var g := |ConfigTags(c, req)|;
    if i < g {
      FirstTagIsClosed(c, req, i);
    } else if i < g + |Events(c, req)| {
      EventTagPlaceIsClosed(c, req, i - g);
    } else {
      LastTagIsClosed(c, req, i);
    }
  }

  /** Main result: references are closed. Every firing number is the reserved one or belongs to
      a declared trigger, every tag reference names exactly one tag that is present, and every
      variable used is declared (or is the tag manager's own event name). */
  lemma ReferencesClosed(c: Catalogue, req: Request)
    requires Coherent(c)
    ensures var k := Compiled(c, req);
            && (forall i | 0 <= i < |k.triggers| :: FilterClosed(k.triggers[i].filter))
            && (forall i | 0 <= i < |k.tags| :: TagClosed(k.triggers, k.tags, k.tags[i]))
  {
    forall i | 0 <= i < |AllTriggers(c, req)| ensures FilterClosed(AllTriggers(c, req)[i].filter) {
      TriggerAt(c, req, i);
    }
    forall i | 0 <= i < |AllTags(c, req)| ensures TagClosed(AllTriggers(c, req), AllTags(c, req), AllTags(c, req)[i]) {
      TagIsClosed(c, req, i);
    }
  }

  /** What tags may use is what the container declares: the built-in variables and, under distinct
      numbers, its own. */
  lemma VariablesDeclared(c: Catalogue, req: Request, name: string)
    ensures var vs := Compiled(c, req).variables;
            && (name in DECLARED <==> name in BUILT_IN || exists v <- vs :: v.name == name)
            && (forall i, j | 0 <= i < j < |vs| :: vs[i].id != vs[j].id)
  {
    var vs := Variables(req);
    assert vs[0] in vs && vs[1] in vs && vs[2] in vs && vs[3] in vs && vs[4] in vs;
    if v :| v in vs && v.name == name {
      var i :| 0 <= i < |vs| && vs[i] == v;
      assert i == 0 || i == 1 || i == 2 || i == 3 || i == 4;
    }
  }

  // ---------------------------------------------------------------- every item is accounted for

  lemma {:induction false} DistinctCount<T>(s: seq<T>, x: T)
    requires Distinct(s)
    ensures multiset(s)[x] == if x in s then 1 else 0
  {
    if s != [] {
      DistinctCount(Init(s), x);
      assert s == Init(s) + [Last(s)];
      assert Last(s) !in Init(s);
    }
  }

  lemma {:induction false} IgnoredCount(items: seq<string>, x: string)
    ensures multiset(IgnoredWarnings(items))[Ignored(x)] == multiset(items)[x]
    ensures forall w <- IgnoredWarnings(items) :: w.Ignored?
  {
    if items != [] {
      IgnoredCount(Init(items), x);
      assert items == Init(items) + [Last(items)];
      assert IgnoredWarnings(items) == IgnoredWarnings(Init(items)) + [Ignored(Last(items))];
    }
  }

  lemma CountAround(a: seq<Warning>, b: seq<Warning>, d: seq<Warning>, w: Warning)
    requires w !in a && w !in d
    ensures multiset(a + b + d)[w] == multiset(b)[w]
  {
  }

  /** An item is named in exactly one warning if it is neither a recipe nor a special item, and
      in none otherwise. */
  lemma IgnoredExactly(c: Catalogue, req: Request, x: string)
    ensures multiset(Compiled(c, req).warnings)[Ignored(x)] ==
            if x in req.items && x !in c.recipes && x !in SPECIAL_ITEMS then 1 else 0
  {
    var items := IgnoredItems(c, req);
    DedupSound(req.items);
    UnknownSound(c, Dedup(req.items));
    DistinctCount(items, x);
    IgnoredCount(items, x);
    CountAround(FirstWarnings(req), IgnoredWarnings(items), LastWarnings(c, req), Ignored(x));
    WarningParts(c, req);
  }

  function FirstWarnings(req: Request): seq<Warning> {
    if req.measurementId == "" then [UnknownMeasurementId] else []
  }

  function LastWarnings(c: Catalogue, req: Request): seq<Warning> {
    (if WantsConfig(c, req) then [DoublePageView] else [])
    + AdsWarnings(req, Ads(c, req))
    + (if Ads(c, req) != [] || Linker(c, req) != [] then [AdsUnvalidated] else [])
  }

  lemma WarningParts(c: Catalogue, req: Request)
    ensures AllWarnings(c, req) == FirstWarnings(req) + IgnoredWarnings(IgnoredItems(c, req)) + LastWarnings(c, req)
  {
    Regroup(FirstWarnings(req), IgnoredWarnings(IgnoredItems(c, req)),
            if WantsConfig(c, req) then [DoublePageView] else [],
            AdsWarnings(req, Ads(c, req)),
            if Ads(c, req) != [] || Linker(c, req) != [] then [AdsUnvalidated] else []);
  }

  lemma Regroup<T>(a: seq<T>, b: seq<T>, d: seq<T>, e: seq<T>, f: seq<T>)
    ensures a + b + d + e + f == a + b + (d + e + f)
  {
  }

  /** The only trigger named like a recipe's is the one compiled for it. */
  lemma TriggerNamedOnce(c: Catalogue, req: Request, n: nat, m: nat)
    requires Coherent(c) && n < |Events(c, req)| && m < |AllTriggers(c, req)|
    requires Events(c, req)[n] in c.recipes
    requires AllTriggers(c, req)[m].name == EventTrigger(c.recipes[Events(c, req)[n]], 0).name
    ensures m == |HistoryTrigger(c, req)| + n
  {
    TriggerAt(c, req, m);
    EventsSound(c, req);
    var events, h := Events(c, req), |HistoryTrigger(c, req)|;
    var event := c.recipes[events[n]].event;
    if m < h {
      NamesDiffer(event, "");
    } else {
      NamesDiffer(event, c.recipes[events[m - h]].event);
      NamesDiffer(c.recipes[events[m - h]].event, event);
    }
  }

  /** No other trigger has the name of a chosen recipe's. */
  lemma OnlyTriggerNamed(c: Catalogue, req: Request, n: nat)
    requires Coherent(c) && n < |Events(c, req)| && Events(c, req)[n] in c.recipes
    ensures forall m | 0 <= m < |AllTriggers(c, req)| && AllTriggers(c, req)[m].name == EventTrigger(c.recipes[Events(c, req)[n]], 0).name ::
              m == |HistoryTrigger(c, req)| + n
  {
    forall m | 0 <= m < |AllTriggers(c, req)| && AllTriggers(c, req)[m].name == EventTrigger(c.recipes[Events(c, req)[n]], 0).name
      ensures m == |HistoryTrigger(c, req)| + n
    {
      TriggerNamedOnce(c, req, n, m);
    }
  }

  // ---------------------------------------------------------------- the Ads tag

  predicate Chosen(c: Catalogue, req: Request, item: string) {
    item in req.items && item in c.recipes
  }

  /** The most preferred key event among the chosen items, whatever their order. */
  predicate Preferred(c: Catalogue, req: Request, p: nat) {
    p < |c.keyEvents| && Chosen(c, req, c.keyEvents[p]) && forall q | 0 <= q < p :: !Chosen(c, req, c.keyEvents[q])
  }

  /** The Ads tag is there exactly when it is asked for, configured, and a key event is chosen. */
  lemma AdsPresence(c: Catalogue, req: Request)
    ensures Ads(c, req) != [] <==>
            "ads_conversion_tag" in req.items && AdsConfigured(req) && exists p :: Preferred(c, req, p)
  {
    EventsSound(c, req);
    KeyEventChosen(c.keyEvents, Events(c, req));
    var key := KeyEvent(c.keyEvents, Events(c, req));
    if key.Some? {
      var p :| 0 <= p < |c.keyEvents| && c.keyEvents[p] == key.value && forall q | 0 <= q < p :: c.keyEvents[q] !in Events(c, req);
      assert Preferred(c, req, p);
    }
  }

  lemma PreferredIsKeyEvent(c: Catalogue, req: Request, p: nat)
    requires Preferred(c, req, p)
    ensures KeyEvent(c.keyEvents, Events(c, req)) == Some(c.keyEvents[p])
  {
    EventsSound(c, req);
    PreferredIsFirst(c.keyEvents, Events(c, req), p);
  }

  lemma {:induction false} PreferredIsFirst(keys: seq<string>, events: seq<string>, p: nat)
    requires p < |keys| && keys[p] in events && forall q | 0 <= q < p :: keys[q] !in events
    ensures KeyEvent(keys, events) == Some(keys[p])
  {
    if p > 0 {
      PreferredIsFirst(keys[1..], events, p - 1);
    }
  }

  lemma AdsTagOfPreferred(c: Catalogue, req: Request, p: nat) returns (n: nat)
    requires Preferred(c, req, p) && Ads(c, req) != []
    ensures n < |Events(c, req)| && Events(c, req)[n] == c.keyEvents[p]
    ensures Ads(c, req) == [AdsTag(FIRST_TAG + |Events(c, req)|, RemovePrefix(req.adsId), req.adsLabel,
                                   Base(c, req) + n, c.recipes[c.keyEvents[p]].ecommerce)]
  {
    EventsSound(c, req);
    PreferredIsKeyEvent(c, req, p);
    n := IndexOf(Events(c, req), c.keyEvents[p]);
  }

  /** Main result: the Ads tag is alone of its kind and fires on the trigger compiled for the
      most preferred key event chosen, with that event's e-commerce data. */
  lemma AdsFiresOnPreferredEvent(c: Catalogue, req: Request, p: nat, k: nat) returns (i: nat)
    requires Preferred(c, req, p) && k < |AllTags(c, req)| && AllTags(c, req)[k].kind == Awct
    ensures i < |AllTriggers(c, req)|
    ensures AllTriggers(c, req)[i] == EventTrigger(c.recipes[c.keyEvents[p]], AllTriggers(c, req)[i].id)
    ensures AllTags(c, req)[k] == AdsTag(AllTags(c, req)[k].id, RemovePrefix(req.adsId), req.adsLabel,
                                         AllTriggers(c, req)[i].id, c.recipes[c.keyEvents[p]].ecommerce)
  {
    AwctPlace(c, req);
    var n := AdsTagOfPreferred(c, req, p);
    i := |HistoryTrigger(c, req)| + n;
    EventTriggerAt(c, req, n);
  }

  /** Only the conversion tag is of its kind. */
  lemma AwctPlace(c: Catalogue, req: Request)
    ensures forall j | 0 <= j < |AllTags(c, req)| && AllTags(c, req)[j].kind == Awct ::
              j == |ConfigTags(c, req)| + |Events(c, req)| && Ads(c, req) != [] && AllTags(c, req)[j] == Ads(c, req)[0]
  {
    forall j | 0 <= j < |AllTags(c, req)| && AllTags(c, req)[j].kind == Awct
      ensures j == |ConfigTags(c, req)| + |Events(c, req)| && Ads(c, req) != [] && AllTags(c, req)[j] == Ads(c, req)[0]
    {
      var g := |ConfigTags(c, req)|;
      TagParts(c, req, j);
      if g <= j < g + |Events(c, req)| {
        EventTagAt(c, req, j - g);
      } else if j >= g {
        LastTagAt(c, req, j);
      }
    }
  }

  /** Whether an event exists only if the site itself pushes it to the data layer. */
  predicate RequiresSiteCode(c: Catalogue, item: string) {
    item in c.recipes && c.recipes[item].kind == CustomEvent
  }

  /** That is so exactly if the trigger compiled for the item merely listens for an event. */
  lemma SiteCodeIffListening(c: Catalogue, req: Request, n: nat)
    requires n < |Events(c, req)|
    ensures var at := |HistoryTrigger(c, req)| + n;
            && at < |AllTriggers(c, req)|
            && (RequiresSiteCode(c, Events(c, req)[n]) <==> AllTriggers(c, req)[at].filter.EventEquals?)
  {
    EventTriggerAt(c, req, n);
  }
}
