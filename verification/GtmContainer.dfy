/** The made-to-measure tag-manager container of backend/app/services/gtm_generator.py: a list
    of chosen items is compiled into triggers and tags that refer to each other by fresh
    numbers. Results are stated for every coherent catalogue of recipes; `GtmCatalogue` shows
    that the program's own catalogue is one. */
module GtmContainer {
  import opened Common
  import opened Sequences

  /** Reserved number of the built-in All Pages trigger. */
  const ALL_PAGES: nat := 2147479553
  const FIRST_TRIGGER: nat := 10
  const FIRST_TAG: nat := 2
  const CONFIG_TAG := "GA4 Configuration"
  const ADS_TAG := "Google Ads - Conversion"
  const LINKER_TAG := "Conversion Linker"

  /** A parameter's text: literal, or a {{reference}} to a variable of the container. */
  datatype Value = Text(text: string) | Ref(name: string)

  datatype Kind = CustomEvent | LinkClick

  datatype Recipe = Recipe(event: string, kind: Kind, ecommerce: bool, params: seq<(string, Value)>,
                           linkOp: string, linkValue: string)

  /** The recipes, and the events an Ads conversion may fire on, in order of preference. */
  datatype Catalogue = Catalogue(recipes: map<string, Recipe>, keyEvents: seq<string>)

  datatype Filter = HistoryChange | EventEquals(arg: Value, event: string) | LinkFilter(op: string, arg: Value, target: string)

  datatype Trigger = Trigger(id: nat, name: string, filter: Filter)

  datatype Param = Template(key: string, value: Value) | Boolean(key: string, on: bool)
    | TagReference(key: string, tagName: string) | Rows(key: string, rows: seq<(string, Value)>)

  datatype TagKind = Googtag | Gaawe | Awct | Gclidw

  datatype Tag = Tag(id: nat, name: string, kind: TagKind, params: seq<Param>, firing: seq<nat>)

  datatype Warning = UnknownMeasurementId | Ignored(item: string) | DoublePageView
    | AdsNotConfigured | AdsWithoutKeyEvent | AdsUnvalidated

  datatype Variable = DataLayer(id: nat, name: string, key: string) | Constant(id: nat, name: string, value: string)

  datatype Container = Container(triggers: seq<Trigger>, tags: seq<Tag>, variables: seq<Variable>, warnings: seq<Warning>)

  datatype Request = Request(spa: bool, items: seq<string>, measurementId: string, adsId: string, adsLabel: string)

  const SPECIAL_ITEMS: set<string> := {"ga4_tag", "ads_conversion_tag", "ads_conversion_linker"}

  const BUILT_IN: set<string> := {
    "Page URL", "Page Hostname", "Page Path", "Referrer", "Event", "History Source",
    "New History Fragment", "Old History Fragment", "Click Element", "Click URL", "Click Classes", "Click Text"}

  const DECLARED: set<string> := {
    "dlv - value", "dlv - currency", "dlv - items", "dlv - form_id", "Const - GA4 Measurement ID",
    "Page URL", "Page Hostname", "Page Path", "Referrer", "Event", "History Source",
    "New History Fragment", "Old History Fragment", "Click Element", "Click URL", "Click Classes", "Click Text"}

  /** The variables a container brings along, beside the built-in ones. */
  function Variables(req: Request): seq<Variable> {
    [DataLayer(1, "dlv - value", "ecommerce.value"),
     DataLayer(2, "dlv - currency", "ecommerce.currency"),
     DataLayer(3, "dlv - items", "ecommerce.items"),
     DataLayer(4, "dlv - form_id", "form_id"),
     Constant(5, "Const - GA4 Measurement ID", MeasurementId(req))]
  }

  function MeasurementId(req: Request): string {
    if req.measurementId == "" then "G-XXXXXXXXXX" else req.measurementId
  }

  // ---------------------------------------------------------------- builders

  function EventTrigger(r: Recipe, id: nat): Trigger {
    match r.kind
    case LinkClick => Trigger(id, "Clic - " + r.event, LinkFilter(r.linkOp, Ref("Click URL"), r.linkValue))
    case CustomEvent => Trigger(id, "CE - " + r.event, EventEquals(Ref("_event"), r.event))
  }

  function EventTag(r: Recipe, id: nat, trigger: nat): Tag {
    Tag(id, "GA4 - " + r.event, Gaawe,
        [Template("eventName", Text(r.event)), TagReference("measurementId", CONFIG_TAG)]
        + (if r.ecommerce then [Boolean("sendEcommerceData", true), Template("getEcommerceDataFrom", Text("dataLayer"))] else [])
        + (if r.params == [] then [] else [Rows("eventParameters", r.params)]),
        [trigger])
  }

  function ConfigTag(measurementId: string, spa: bool): Tag {
    Tag(1, CONFIG_TAG, Googtag,
        [Template("tagId", Text(if measurementId == "" then "G-XXXXXXXXXX" else measurementId)),
         Rows("configSettingsTable", [("send_page_view", Text("true"))])],
        [ALL_PAGES] + (if spa then [FIRST_TRIGGER] else []))
  }

  function AdsTag(id: nat, numericId: string, adsLabel: string, trigger: nat, ecommerce: bool): Tag {
    Tag(id, ADS_TAG, Awct,
        [Template("conversionId", Text(numericId)), Template("conversionLabel", Text(adsLabel))]
        + (if ecommerce then [Template("conversionValue", Ref("dlv - value")), Template("currencyCode", Ref("dlv - currency"))] else []),
        [trigger])
  }

  function LinkerTag(id: nat): Tag {
    Tag(id, LINKER_TAG, Gclidw, [], [ALL_PAGES])
  }

  // ---------------------------------------------------------------- the compiled container

  function WithRecipe(c: Catalogue, items: seq<string>): seq<string> {
    if items == [] then []
    else WithRecipe(c, Init(items)) + if Last(items) in c.recipes then [Last(items)] else []
  }

  function Unknown(c: Catalogue, items: seq<string>): seq<string> {
    if items == [] then []
    else Unknown(c, Init(items)) + if Last(items) in c.recipes || Last(items) in SPECIAL_ITEMS then [] else [Last(items)]
  }

  /** The items that have a recipe, each once, in the order chosen. */
  function Events(c: Catalogue, req: Request): seq<string> {
    WithRecipe(c, Dedup(req.items))
  }

  function WantsConfig(c: Catalogue, req: Request): bool {
    "ga4_tag" in req.items || Events(c, req) != []
  }

  function HistoryTrigger(c: Catalogue, req: Request): seq<Trigger> {
    if WantsConfig(c, req) && req.spa then [Trigger(FIRST_TRIGGER, "History Change (SPA)", HistoryChange)] else []
  }

  /** Number of the first event's trigger. */
  function Base(c: Catalogue, req: Request): nat {
    FIRST_TRIGGER + |HistoryTrigger(c, req)|
  }

  function EventTriggers(c: Catalogue, events: seq<string>, base: nat): seq<Trigger>
    requires forall e <- events :: e in c.recipes
  {
    seq(|events|, i requires 0 <= i < |events| => EventTrigger(c.recipes[events[i]], base + i))
  }

  function EventTags(c: Catalogue, events: seq<string>, base: nat): seq<Tag>
    requires forall e <- events :: e in c.recipes
  {
    seq(|events|, i requires 0 <= i < |events| => EventTag(c.recipes[events[i]], FIRST_TAG + i, base + i))
  }

  function RemovePrefix(s: string): string {
    if "AW-" <= s then s[3..] else s
  }

  /** The first key event, in order of preference, among the chosen events. */
  function KeyEvent(keys: seq<string>, events: seq<string>): Option<string> {
    if keys == [] then None
    else if keys[0] in events then Some(keys[0])
    else KeyEvent(keys[1..], events)
  }

  function AdsConfigured(req: Request): bool {
    RemovePrefix(req.adsId) != "" && req.adsLabel != ""
  }

  function AdsTags(c: Catalogue, req: Request, events: seq<string>, base: nat): seq<Tag>
    requires forall e <- events :: e in c.recipes
  {
    KeyEventChosen(c.keyEvents, events);
    var key := KeyEvent(c.keyEvents, events);
    if "ads_conversion_tag" in req.items && AdsConfigured(req) && key.Some? then
      [AdsTag(FIRST_TAG + |events|, RemovePrefix(req.adsId), req.adsLabel, base + IndexOf(events, key.value), c.recipes[key.value].ecommerce)]
    else []
  }

  function LinkerTags(req: Request, ads: seq<Tag>, id: nat): seq<Tag> {
    if "ads_conversion_linker" in req.items || ads != [] then [LinkerTag(id)] else []
  }

  function IgnoredItems(c: Catalogue, req: Request): seq<string> {
    Unknown(c, Dedup(req.items))
  }

  function IgnoredWarnings(items: seq<string>): seq<Warning> {
    seq(|items|, i requires 0 <= i < |items| => Ignored(items[i]))
  }

  function AdsWarnings(req: Request, ads: seq<Tag>): seq<Warning> {
    if "ads_conversion_tag" !in req.items then []
    else if !AdsConfigured(req) then [AdsNotConfigured]
    else if ads == [] then [AdsWithoutKeyEvent] else []
  }

  function Warnings(c: Catalogue, req: Request, ads: seq<Tag>, linker: seq<Tag>): seq<Warning> {
    (if req.measurementId == "" then [UnknownMeasurementId] else [])
    + IgnoredWarnings(IgnoredItems(c, req))
    + (if WantsConfig(c, req) then [DoublePageView] else [])
    + AdsWarnings(req, ads)
    + (if ads != [] || linker != [] then [AdsUnvalidated] else [])
  }

  lemma EventsSound(c: Catalogue, req: Request)
    ensures Distinct(Events(c, req))
    ensures forall e :: e in Events(c, req) <==> e in req.items && e in c.recipes
  {
    DedupSound(req.items);
    WithRecipeSound(c, Dedup(req.items));
  }

  lemma {:induction false} WithRecipeSound(c: Catalogue, items: seq<string>)
    ensures forall e :: e in WithRecipe(c, items) <==> e in items && e in c.recipes
    ensures Distinct(items) ==> Distinct(WithRecipe(c, items))
  {
    if items != [] {
      WithRecipeSound(c, Init(items));
      assert items == Init(items) + [Last(items)];
    }
  }

  lemma {:induction false} UnknownSound(c: Catalogue, items: seq<string>)
    ensures forall e :: e in Unknown(c, items) <==> e in items && e !in c.recipes && e !in SPECIAL_ITEMS
    ensures Distinct(items) ==> Distinct(Unknown(c, items))
  {
    if items != [] {
      UnknownSound(c, Init(items));
      assert items == Init(items) + [Last(items)];
    }
  }

  lemma {:induction false} KeyEventChosen(keys: seq<string>, events: seq<string>)
    ensures var key := KeyEvent(keys, events);
            && (key.Some? ==> exists i ::
                  0 <= i < |keys| && keys[i] == key.value && key.value in events && forall j | 0 <= j < i :: keys[j] !in events)
            && (key.None? ==> forall k <- keys :: k !in events)
  {
    if keys != [] && keys[0] !in events {
      KeyEventChosen(keys[1..], events);
      var key := KeyEvent(keys[1..], events);
      if key.Some? {
        var i :| 0 <= i < |keys[1..]| && keys[1..][i] == key.value && key.value in events
                 && forall j | 0 <= j < i :: keys[1..][j] !in events;
        forall j | 0 <= j < i + 1 ensures keys[j] !in events {
          if j > 0 { assert keys[1..][j - 1] !in events; }
        }
        assert keys[i + 1] == key.value;
      }
    }
  }

  function ConfigTags(c: Catalogue, req: Request): seq<Tag> {
    if WantsConfig(c, req) then [ConfigTag(req.measurementId, req.spa)] else []
  }

  function AllTriggers(c: Catalogue, req: Request): seq<Trigger> {
    EventsSound(c, req);
    HistoryTrigger(c, req) + EventTriggers(c, Events(c, req), Base(c, req))
  }

  /** The conversion tag, if there is one. */
  function Ads(c: Catalogue, req: Request): seq<Tag> {
    EventsSound(c, req);
    AdsTags(c, req, Events(c, req), Base(c, req))
  }

  function Linker(c: Catalogue, req: Request): seq<Tag> {
    LinkerTags(req, Ads(c, req), FIRST_TAG + |Events(c, req)| + |Ads(c, req)|)
  }

  function AllTags(c: Catalogue, req: Request): seq<Tag> {
    EventsSound(c, req);
    ConfigTags(c, req) + EventTags(c, Events(c, req), Base(c, req)) + Ads(c, req) + Linker(c, req)
  }

  function AllWarnings(c: Catalogue, req: Request): seq<Warning> {
    Warnings(c, req, Ads(c, req), Linker(c, req))
  }

  /** The container the program promises for a request. */
  function Compiled(c: Catalogue, req: Request): Container {
    Container(AllTriggers(c, req), AllTags(c, req), Variables(req), AllWarnings(c, req))
  }

  // ---------------------------------------------------------------- the builder itself

  method BuildSelectedContainer(c: Catalogue, req: Request) returns (container: Container)
    ensures container == Compiled(c, req)
  {
    var itemIds := Dedup(req.items);
    var recipes := WithRecipe(c, itemIds);
    var wantsConfig := "ga4_tag" in req.items || recipes != [];
    var triggers, tags, ads, adsWarnings, linker := TriggersAndTags(c, req, recipes, wantsConfig);
    var warnings := WarningStep(c, req, itemIds, wantsConfig, ads, adsWarnings, linker);
    container := Container(triggers, tags, Variables(req), warnings);
  }

  lemma Assembled(c: Catalogue, req: Request, recipes: seq<string>)
    requires recipes == Events(c, req)
    ensures Distinct(recipes) && forall e <- recipes :: e in c.recipes
    ensures AllTriggers(c, req) == HistoryTrigger(c, req) + EventTriggers(c, recipes, Base(c, req))
    ensures Ads(c, req) == AdsTags(c, req, recipes, Base(c, req))
    ensures Linker(c, req) == LinkerTags(req, Ads(c, req), FIRST_TAG + |recipes| + |Ads(c, req)|)
    ensures AllTags(c, req) == ConfigTags(c, req) + EventTags(c, recipes, Base(c, req)) + Ads(c, req) + Linker(c, req)
  {
    EventsSound(c, req);
  }

  /** Configuration, events, Ads conversion and linker, in this order. */
  method TriggersAndTags(c: Catalogue, req: Request, recipes: seq<string>, wantsConfig: bool)
    returns (triggers: seq<Trigger>, tags: seq<Tag>, ads: seq<Tag>, adsWarnings: seq<Warning>, linker: seq<Tag>)
    requires recipes == Events(c, req) && wantsConfig == WantsConfig(c, req)
    ensures triggers == AllTriggers(c, req) && tags == AllTags(c, req)
    ensures ads == Ads(c, req) && adsWarnings == AdsWarnings(req, ads) && linker == Linker(c, req)
  {
    Assembled(c, req, recipes);
    var nextTrigger;
    triggers, tags, nextTrigger := ConfigStep(c, req, wantsConfig);
    triggers, tags, ads, adsWarnings := TagStep(c, req, recipes, triggers, tags, nextTrigger);
    linker := LinkerTags(req, ads, FIRST_TAG + |recipes| + |ads|);
    tags := tags + linker;
  }

  /** Event triggers and tags, then the Ads conversion tag. */
  method TagStep(c: Catalogue, req: Request, recipes: seq<string>, before: seq<Trigger>, config: seq<Tag>, base: nat)
    returns (triggers: seq<Trigger>, tags: seq<Tag>, ads: seq<Tag>, adsWarnings: seq<Warning>)
    requires Distinct(recipes) && forall e <- recipes :: e in c.recipes
    ensures triggers == before + EventTriggers(c, recipes, base)
    ensures ads == AdsTags(c, req, recipes, base) && adsWarnings == AdsWarnings(req, ads)
    ensures tags == config + EventTags(c, recipes, base) + ads
  {
    var eventTriggers, eventTags, triggerByItem := EventLoop(c, recipes, base);
    triggers, tags := before + eventTriggers, config + eventTags;
    ads, adsWarnings := AdsStep(c, req, recipes, triggerByItem, base, FIRST_TAG + |recipes|);
    tags := tags + ads;
  }

  /** The warnings, in order: measurement id, ignored items, page views, Ads, unvalidated Ads tags. */
  method WarningStep(c: Catalogue, req: Request, itemIds: seq<string>, wantsConfig: bool,
                     ads: seq<Tag>, adsWarnings: seq<Warning>, linker: seq<Tag>) returns (warnings: seq<Warning>)
    requires itemIds == Dedup(req.items) && wantsConfig == WantsConfig(c, req) && adsWarnings == AdsWarnings(req, ads)
    ensures warnings == Warnings(c, req, ads, linker)
  {
    warnings := if req.measurementId == "" then [UnknownMeasurementId] else [];
    var ignored := IgnoredLoop(c, itemIds);
    warnings := warnings + ignored;
    if wantsConfig {
      warnings := warnings + [DoublePageView];
    } else {
      assert warnings + [] == warnings;
    }
    warnings := warnings + adsWarnings;
    if ads != [] || linker != [] {
      warnings := warnings + [AdsUnvalidated];
    } else {
      assert warnings + [] == warnings;
    }
  }

  method ConfigStep(c: Catalogue, req: Request, wantsConfig: bool)
    returns (triggers: seq<Trigger>, tags: seq<Tag>, nextTrigger: nat)
    requires wantsConfig == WantsConfig(c, req)
    ensures triggers == HistoryTrigger(c, req) && nextTrigger == Base(c, req)
    ensures tags == ConfigTags(c, req)
  {
    triggers, tags, nextTrigger := [], [], FIRST_TRIGGER;
    if wantsConfig {
      var configTriggers := [ALL_PAGES];
      if req.spa {
        triggers := triggers + [Trigger(nextTrigger, "History Change (SPA)", HistoryChange)];
        configTriggers := configTriggers + [nextTrigger];
        nextTrigger := nextTrigger + 1;
      }
      assert configTriggers == ConfigTag(req.measurementId, req.spa).firing;
      tags := tags + [ConfigTag(req.measurementId, req.spa).(firing := configTriggers)];
    }
  }

  method AdsStep(c: Catalogue, req: Request, recipes: seq<string>, triggerByItem: map<string, nat>, base: nat, nextTag: nat)
    returns (ads: seq<Tag>, warnings: seq<Warning>)
    requires forall e <- recipes :: e in c.recipes
    requires triggerByItem.Keys == Elements(recipes)
    requires forall e <- recipes :: triggerByItem[e] == base + IndexOf(recipes, e)
    requires nextTag == FIRST_TAG + |recipes|
    ensures ads == AdsTags(c, req, recipes, base) && warnings == AdsWarnings(req, ads)
  {
    ads, warnings := [], [];
    KeyEventChosen(c.keyEvents, recipes);
    var keyEvent := FirstKeyEvent(c, recipes, triggerByItem.Keys);
    if "ads_conversion_tag" in req.items {
      var numericId := RemovePrefix(req.adsId);
      if numericId == "" || req.adsLabel == "" {
        warnings := warnings + [AdsNotConfigured];
      } else if keyEvent.None? {
        warnings := warnings + [AdsWithoutKeyEvent];
      } else {
        ads := ads + [AdsTag(nextTag, numericId, req.adsLabel, triggerByItem[keyEvent.value], c.recipes[keyEvent.value].ecommerce)];
      }
    }
  }

  method IgnoredLoop(c: Catalogue, itemIds: seq<string>) returns (warnings: seq<Warning>)
    ensures warnings == IgnoredWarnings(Unknown(c, itemIds))
  {
    warnings := [];
    for i := 0 to |itemIds|
      invariant warnings == IgnoredWarnings(Unknown(c, itemIds[..i]))
    {
      assert Init(itemIds[..i + 1]) == itemIds[..i];
      if itemIds[i] !in c.recipes && itemIds[i] !in SPECIAL_ITEMS {
        warnings := warnings + [Ignored(itemIds[i])];
      }
    }
    assert itemIds[..|itemIds|] == itemIds;
  }

  method EventLoop(c: Catalogue, recipes: seq<string>, first: nat)
    returns (triggers: seq<Trigger>, tags: seq<Tag>, triggerByItem: map<string, nat>)
    requires Distinct(recipes) && forall e <- recipes :: e in c.recipes
    ensures triggers == EventTriggers(c, recipes, first) && tags == EventTags(c, recipes, first)
    ensures triggerByItem.Keys == Elements(recipes)
    ensures forall e <- recipes :: triggerByItem[e] == first + IndexOf(recipes, e)
  {
    triggers, tags, triggerByItem := [], [], map[];
    var nextTrigger, nextTag := first, FIRST_TAG;
    for i := 0 to |recipes|
      invariant nextTrigger == first + i && nextTag == FIRST_TAG + i
      invariant triggers == EventTriggers(c, recipes[..i], first) && tags == EventTags(c, recipes[..i], first)
      invariant triggerByItem.Keys == Elements(recipes[..i])
      invariant forall j | 0 <= j < i :: triggerByItem[recipes[j]] == first + j
    {
      var recipe := c.recipes[recipes[i]];
      triggers := triggers + [EventTrigger(recipe, nextTrigger)];
      triggerByItem := triggerByItem[recipes[i] := nextTrigger];
      tags := tags + [EventTag(recipe, nextTag, nextTrigger)];
      nextTrigger, nextTag := nextTrigger + 1, nextTag + 1;
      assert recipes[..i + 1] == recipes[..i] + [recipes[i]];
    }
    assert recipes[..|recipes|] == recipes;
  }

  method FirstKeyEvent(c: Catalogue, recipes: seq<string>, chosen: set<string>) returns (key: Option<string>)
    requires chosen == Elements(recipes)
    ensures key == KeyEvent(c.keyEvents, recipes)
  {
    for i := 0 to |c.keyEvents|
      invariant KeyEvent(c.keyEvents, recipes) == KeyEvent(c.keyEvents[i..], recipes)
    {
      if c.keyEvents[i] in chosen {
        return Some(c.keyEvents[i]);
      }
    }
    key := None;
  }
}
