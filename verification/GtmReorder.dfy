/** The order in which items are chosen, and their repetition, leave the container the same up
    to a renaming of trigger and tag numbers. */
module GtmReorder {
  import opened Common
  import opened Sequences
  import opened GtmContainer
  import opened GtmResults

  /** The same items, in any order and with any repetition; the rest of the request is equal. */
  ghost predicate SameChoice(r: Request, q: Request) {
    r.(items := q.items) == q && forall x :: x in r.items <==> x in q.items
  }

  lemma EventsReordered(c: Catalogue, r: Request, q: Request)
    requires SameChoice(r, q)
    ensures Reordered(Events(c, r), Events(c, q)) && |Events(c, r)| == |Events(c, q)|
    ensures HistoryTrigger(c, r) == HistoryTrigger(c, q) && Base(c, r) == Base(c, q)
    ensures ConfigTags(c, r) == ConfigTags(c, q)
  {
    EventsSound(c, r);
    EventsSound(c, q);
    ReorderedLength(Events(c, r), Events(c, q));
  }

  lemma SameAds(c: Catalogue, r: Request, q: Request)
    requires SameChoice(r, q) && Events(c, r) == Events(c, q)
    ensures Ads(c, r) == Ads(c, q)
  {
    EventsSound(c, r);
    EventsReordered(c, r, q);
    KeyEventChosen(c.keyEvents, Events(c, r));
  }

  lemma SameTags(c: Catalogue, r: Request, q: Request)
    requires SameChoice(r, q) && Events(c, r) == Events(c, q) && Ads(c, r) == Ads(c, q)
    ensures AllTriggers(c, r) == AllTriggers(c, q) && AllTags(c, r) == AllTags(c, q)
  {
    EventsSound(c, r);
    EventsReordered(c, r, q);
    assert Linker(c, r) == Linker(c, q);
  }

  lemma SameWarnings(c: Catalogue, r: Request, q: Request)
    requires SameChoice(r, q) && Dedup(r.items) == Dedup(q.items) && Ads(c, r) == Ads(c, q)
    ensures AllWarnings(c, r) == AllWarnings(c, q)
  {
    EventsReordered(c, r, q);
    WarningParts(c, r);
    WarningParts(c, q);
    assert Linker(c, r) == Linker(c, q);
  }

  /** Choosing an item again changes nothing at all. */
  lemma RepeatsAreIdle(c: Catalogue, req: Request, a: seq<string>, x: string, b: seq<string>)
    requires x in a
    ensures Compiled(c, req.(items := a + [x] + b)) == Compiled(c, req.(items := a + b))
  {
    DedupSkipsRepeats(a, x, b);
    var r, q := req.(items := a + [x] + b), req.(items := a + b);
    assert SameChoice(r, q);
    SameAds(c, r, q);
    SameTags(c, r, q);
    SameWarnings(c, r, q);
  }

  // ---------------------------------------------------------------- the renaming

  /** Numbers given to the values of `s` from `first` on become those given to them in `t`. */
  function Moved(s: seq<string>, t: seq<string>, first: nat, id: nat): nat
    requires forall x <- s :: x in t
  {
    if first <= id < first + |s| then first + IndexOf(t, s[id - first]) else id
  }

  /** A renaming is undone by the renaming back: it is a bijection. */
  lemma MovedBack(s: seq<string>, t: seq<string>, first: nat, id: nat)
    requires Reordered(s, t)
    ensures Moved(t, s, first, Moved(s, t, first, id)) == id
  {
    ReorderedLength(s, t);
    if first <= id < first + |s| {
      MovesBack(s, t, id - first);
    }
  }

  function TriggerNumber(c: Catalogue, r: Request, q: Request, id: nat): nat
    requires SameChoice(r, q)
  {
    EventsReordered(c, r, q);
    Moved(Events(c, r), Events(c, q), Base(c, r), id)
  }

  function TagNumberIn(c: Catalogue, r: Request, q: Request, id: nat): nat
    requires SameChoice(r, q)
  {
    EventsReordered(c, r, q);
    Moved(Events(c, r), Events(c, q), FIRST_TAG, id)
  }

  function RenamedTrigger(c: Catalogue, r: Request, q: Request, t: Trigger): Trigger
    requires SameChoice(r, q)
  {
    t.(id := TriggerNumber(c, r, q, t.id))
  }

  function RenamedFiring(c: Catalogue, r: Request, q: Request, firing: seq<nat>): seq<nat>
    requires SameChoice(r, q)
  {
    if firing == [] then [] else [TriggerNumber(c, r, q, firing[0])] + RenamedFiring(c, r, q, firing[1..])
  }

  /** A tag under its new number, fired by its triggers' new numbers; all else is kept. */
  function RenamedTag(c: Catalogue, r: Request, q: Request, tag: Tag): Tag
    requires SameChoice(r, q)
  {
    tag.(id := TagNumberIn(c, r, q, tag.id), firing := RenamedFiring(c, r, q, tag.firing))
  }

  /** The renaming is a bijection on numbers that keeps the reserved one. */
  lemma RenamingIsBijective(c: Catalogue, r: Request, q: Request, id: nat)
    requires Coherent(c) && SameChoice(r, q)
    ensures SameChoice(q, r)
    ensures TriggerNumber(c, q, r, TriggerNumber(c, r, q, id)) == id
    ensures TagNumberIn(c, q, r, TagNumberIn(c, r, q, id)) == id
    ensures TriggerNumber(c, r, q, ALL_PAGES) == ALL_PAGES
  {
    assert q.(items := r.items) == r;
    EventsReordered(c, r, q);
    MovedBack(Events(c, r), Events(c, q), Base(c, r), id);
    MovedBack(Events(c, r), Events(c, q), FIRST_TAG, id);
    EventCount(c, r);
  }

  // ---------------------------------------------------------------- triggers and tags correspond

  /** Where the n-th event of one request stands among the events of the other. */
  function Place(c: Catalogue, r: Request, q: Request, n: nat): (m: nat)
    requires SameChoice(r, q) && n < |Events(c, r)|
    ensures m < |Events(c, q)| && Events(c, q)[m] == Events(c, r)[n]
    ensures TriggerNumber(c, r, q, Base(c, r) + n) == Base(c, q) + m
    ensures TagNumberIn(c, r, q, FIRST_TAG + n) == FIRST_TAG + m
  {
    EventsReordered(c, r, q);
    IndexOf(Events(c, q), Events(c, r)[n])
  }

  lemma TriggerCorresponds(c: Catalogue, r: Request, q: Request, i: nat) returns (j: nat)
    requires SameChoice(r, q) && i < |AllTriggers(c, r)|
    ensures j < |AllTriggers(c, q)| && AllTriggers(c, q)[j] == RenamedTrigger(c, r, q, AllTriggers(c, r)[i])
  {
    EventsReordered(c, r, q);
    var h := |HistoryTrigger(c, r)|;
    if i < h {
      j := i;
      HistoryFirst(c, r);
      HistoryFirst(c, q);
    } else {
      TriggerCount(c, r);
      j := EventTriggerCorresponds(c, r, q, i - h);
      EventTriggerAt(c, r, i - h);
    }
  }

  lemma TriggerCount(c: Catalogue, r: Request)
    ensures |AllTriggers(c, r)| == |HistoryTrigger(c, r)| + |Events(c, r)|
  {
    EventsSound(c, r);
  }

  lemma HistoryFirst(c: Catalogue, r: Request)
    requires HistoryTrigger(c, r) != []
    ensures AllTriggers(c, r) != [] && AllTriggers(c, r)[0] == HistoryTrigger(c, r)[0]
  {
    EventsSound(c, r);
  }

  lemma EventTriggerCorresponds(c: Catalogue, r: Request, q: Request, n: nat) returns (j: nat)
    requires SameChoice(r, q) && n < |Events(c, r)|
    ensures Events(c, r)[n] in c.recipes
    ensures j < |AllTriggers(c, q)|
    ensures AllTriggers(c, q)[j] == RenamedTrigger(c, r, q, EventTrigger(c.recipes[Events(c, r)[n]], Base(c, r) + n))
  {
    EventsReordered(c, r, q);
    EventTriggerAt(c, r, n);
    var m := Place(c, r, q, n);
    EventTriggerAt(c, q, m);
    j := |HistoryTrigger(c, q)| + m;
  }

  lemma EventTagCorresponds(c: Catalogue, r: Request, q: Request, n: nat) returns (j: nat)
    requires SameChoice(r, q) && n < |Events(c, r)|
    ensures var k := |ConfigTags(c, r)| + n;
            k < |AllTags(c, r)| && j < |AllTags(c, q)| && AllTags(c, q)[j] == RenamedTag(c, r, q, AllTags(c, r)[k])
  {
    EventsReordered(c, r, q);
    EventTagAt(c, r, n);
    var m := Place(c, r, q, n);
    EventTagAt(c, q, m);
    j := |ConfigTags(c, q)| + m;
    FiringOfOne(c, r, q, Base(c, r) + n);
  }

  lemma FiringOfOne(c: Catalogue, r: Request, q: Request, id: nat)
    requires SameChoice(r, q)
    ensures RenamedFiring(c, r, q, [id]) == [TriggerNumber(c, r, q, id)]
  {
    assert [id][1..] == [];
  }

  lemma {:induction false} SameKeyEvent(keys: seq<string>, s: seq<string>, t: seq<string>)
    requires forall x :: x in s <==> x in t
    ensures KeyEvent(keys, s) == KeyEvent(keys, t)
  {
    if keys != [] && keys[0] !in s {
      SameKeyEvent(keys[1..], s, t);
    }
  }

  lemma AdsAppearTogether(c: Catalogue, r: Request, q: Request)
    requires SameChoice(r, q)
    ensures KeyEvent(c.keyEvents, Events(c, r)) == KeyEvent(c.keyEvents, Events(c, q))
    ensures |Ads(c, r)| == |Ads(c, q)| <= 1
  {
    EventsSound(c, r);
    EventsSound(c, q);
    SameKeyEvent(c.keyEvents, Events(c, r), Events(c, q));
    KeyEventChosen(c.keyEvents, Events(c, r));
  }

  /** The conversion tag, when there is one, in terms of its event's position. */
  lemma AdsAt(c: Catalogue, r: Request) returns (n: nat)
    requires Ads(c, r) != []
    ensures n < |Events(c, r)| && KeyEvent(c.keyEvents, Events(c, r)) == Some(Events(c, r)[n]) && Events(c, r)[n] in c.recipes
    ensures Ads(c, r)[0] == AdsTag(FIRST_TAG + |Events(c, r)|, RemovePrefix(r.adsId), r.adsLabel, Base(c, r) + n, c.recipes[Events(c, r)[n]].ecommerce)
  {
    EventsSound(c, r);
    KeyEventChosen(c.keyEvents, Events(c, r));
    n := IndexOf(Events(c, r), KeyEvent(c.keyEvents, Events(c, r)).value);
  }

  lemma AdsCorresponds(c: Catalogue, r: Request, q: Request)
    requires SameChoice(r, q)
    ensures |Ads(c, r)| == |Ads(c, q)| <= 1
    ensures Ads(c, r) != [] ==> Ads(c, q)[0] == RenamedTag(c, r, q, Ads(c, r)[0])
  {
    AdsAppearTogether(c, r, q);
    if Ads(c, r) != [] {
      EventsReordered(c, r, q);
      var n := AdsAt(c, r);
      var m := AdsAt(c, q);
      IndexOfAt(Events(c, q), m);
      assert m == Place(c, r, q, n);
      FiringOfOne(c, r, q, Base(c, r) + n);
    }
  }

  lemma ConfigUnmoved(c: Catalogue, r: Request, q: Request)
    requires Coherent(c) && SameChoice(r, q) && WantsConfig(c, r)
    ensures RenamedTag(c, r, q, ConfigTag(r.measurementId, r.spa)) == ConfigTag(q.measurementId, q.spa)
  {
    RenamingIsBijective(c, r, q, 0);
    FiringOfOne(c, r, q, ALL_PAGES);
    FiringOfOne(c, r, q, FIRST_TRIGGER);
    if r.spa {
      assert [ALL_PAGES, FIRST_TRIGGER][1..] == [FIRST_TRIGGER];
      assert TriggerNumber(c, r, q, FIRST_TRIGGER) == FIRST_TRIGGER;
      assert ConfigTag(r.measurementId, r.spa).firing == [ALL_PAGES, FIRST_TRIGGER];
    } else {
      assert ConfigTag(r.measurementId, r.spa).firing == [ALL_PAGES];
    }
  }

  lemma LinkerUnmoved(c: Catalogue, r: Request, q: Request, id: nat)
    requires Coherent(c) && SameChoice(r, q) && id >= FIRST_TAG + |Events(c, r)|
    ensures RenamedTag(c, r, q, LinkerTag(id)) == LinkerTag(id)
  {
    RenamingIsBijective(c, r, q, 0);
    FiringOfOne(c, r, q, ALL_PAGES);
  }

  lemma TagCountsEqual(c: Catalogue, r: Request, q: Request)
    requires SameChoice(r, q)
    ensures |AllTags(c, r)| == |AllTags(c, q)| && |AllTriggers(c, r)| == |AllTriggers(c, q)|
    ensures Linker(c, r) == Linker(c, q)
  {
    EventsReordered(c, r, q);
    AdsCorresponds(c, r, q);
  }

  lemma LastTagCorresponds(c: Catalogue, r: Request, q: Request, i: nat)
    requires Coherent(c) && SameChoice(r, q)
    requires |ConfigTags(c, r)| + |Events(c, r)| <= i < |AllTags(c, r)|
    ensures i < |AllTags(c, q)| && AllTags(c, q)[i] == RenamedTag(c, r, q, AllTags(c, r)[i])
  {
    EventsReordered(c, r, q);
    TagCountsEqual(c, r, q);
    AdsCorresponds(c, r, q);
    LastTagAt(c, r, i);
    LastTagAt(c, q, i);
    if i >= |ConfigTags(c, r)| + |Events(c, r)| + |Ads(c, r)| {
      LinkerUnmoved(c, r, q, AllTags(c, r)[i].id);
    }
  }

  lemma ConfigCorresponds(c: Catalogue, r: Request, q: Request)
    requires Coherent(c) && SameChoice(r, q) && WantsConfig(c, r)
    ensures AllTags(c, r) != [] && AllTags(c, q) != [] && AllTags(c, q)[0] == RenamedTag(c, r, q, AllTags(c, r)[0])
  {
    EventsReordered(c, r, q);
    ConfigUnmoved(c, r, q);
    TagParts(c, r, 0);
    TagParts(c, q, 0);
  }

  lemma TagCorresponds(c: Catalogue, r: Request, q: Request, i: nat) returns (j: nat)
    requires Coherent(c) && SameChoice(r, q) && i < |AllTags(c, r)|
    ensures j < |AllTags(c, q)| && AllTags(c, q)[j] == RenamedTag(c, r, q, AllTags(c, r)[i])
  {
    var g := |ConfigTags(c, r)|;
    if i < g {
      ConfigCorresponds(c, r, q);
      j := i;
    } else if i < g + |Events(c, r)| {
      j := EventTagCorresponds(c, r, q, i - g);
    } else {
      LastTagCorresponds(c, r, q, i);
      j := i;
    }
  }

  /** Main result: two requests that choose the same items get containers that are equal up to
      the renaming. Each trigger and each tag of one is found, renamed, in the other: same names,
      filters and parameters, and fired by the same triggers. The warnings are the same. */
  lemma OrderIsIrrelevant(c: Catalogue, r: Request, q: Request)
    requires Coherent(c) && SameChoice(r, q)
    ensures forall t <- Compiled(c, r).triggers :: RenamedTrigger(c, r, q, t) in Compiled(c, q).triggers
    ensures forall tag <- Compiled(c, r).tags :: RenamedTag(c, r, q, tag) in Compiled(c, q).tags
    ensures |Compiled(c, r).triggers| == |Compiled(c, q).triggers| && |Compiled(c, r).tags| == |Compiled(c, q).tags|
    ensures Compiled(c, r).variables == Compiled(c, q).variables
    ensures multiset(Compiled(c, r).warnings) == multiset(Compiled(c, q).warnings)
  {
    forall i | 0 <= i < |AllTriggers(c, r)| ensures RenamedTrigger(c, r, q, AllTriggers(c, r)[i]) in AllTriggers(c, q) {
      var j := TriggerCorresponds(c, r, q, i);
    }
    forall i | 0 <= i < |AllTags(c, r)| ensures RenamedTag(c, r, q, AllTags(c, r)[i]) in AllTags(c, q) {
      var j := TagCorresponds(c, r, q, i);
    }
    TagCountsEqual(c, r, q);
    WarningsCorrespond(c, r, q);
  }

  // ---------------------------------------------------------------- warnings

  lemma {:induction false} IgnoredBag(items: seq<string>, w: Warning)
    ensures multiset(IgnoredWarnings(items))[w] == if w.Ignored? then multiset(items)[w.item] else 0
  {
    if items != [] {
      IgnoredBag(Init(items), w);
      assert items == Init(items) + [Last(items)];
      assert IgnoredWarnings(items) == IgnoredWarnings(Init(items)) + [Ignored(Last(items))];
    }
  }

  lemma IgnoredReordered(s: seq<string>, t: seq<string>)
    requires Reordered(s, t)
    ensures multiset(IgnoredWarnings(s)) == multiset(IgnoredWarnings(t))
  {
    forall w ensures multiset(IgnoredWarnings(s))[w] == multiset(IgnoredWarnings(t))[w] {
      IgnoredBag(s, w);
      IgnoredBag(t, w);
      if w.Ignored? {
        DistinctCount(s, w.item);
        DistinctCount(t, w.item);
      }
    }
  }

  lemma LastWarningsEqual(c: Catalogue, r: Request, q: Request)
    requires SameChoice(r, q)
    ensures LastWarnings(c, r) == LastWarnings(c, q)
  {
    EventsReordered(c, r, q);
    AdsCorresponds(c, r, q);
    TagCountsEqual(c, r, q);
  }

  lemma WarningsCorrespond(c: Catalogue, r: Request, q: Request)
    requires SameChoice(r, q)
    ensures multiset(AllWarnings(c, r)) == multiset(AllWarnings(c, q))
  {
    DedupReordered(r.items, q.items);
    UnknownSound(c, Dedup(r.items));
    UnknownSound(c, Dedup(q.items));
    IgnoredReordered(IgnoredItems(c, r), IgnoredItems(c, q));
    LastWarningsEqual(c, r, q);
    WarningParts(c, r);
    WarningParts(c, q);
    assert FirstWarnings(r) == FirstWarnings(q);
    BagAround(FirstWarnings(r), IgnoredWarnings(IgnoredItems(c, r)), IgnoredWarnings(IgnoredItems(c, q)), LastWarnings(c, r));
  }

  lemma BagAround<T>(a: seq<T>, b: seq<T>, b': seq<T>, d: seq<T>)
    requires multiset(b) == multiset(b')
    ensures multiset(a + b + d) == multiset(a + b' + d)
  {
  }
}
