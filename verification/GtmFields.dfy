/** What a compiled container holds, field by field: which tags, triggers and warnings are there,
    and what they carry, in terms of the chosen items and their recipes alone. */
module GtmFields {
  import opened Common
  import opened Sequences
  import opened GtmContainer
  import opened GtmResults

  /** A GA4 configuration is wanted: it is asked for, or an event needs it. */
  ghost predicate NeedsGa4(c: Catalogue, req: Request) {
    "ga4_tag" in req.items || exists item :: item in req.items && item in c.recipes
  }

  lemma NeedsGa4IsWanted(c: Catalogue, req: Request)
    ensures NeedsGa4(c, req) <==> WantsConfig(c, req)
  {
    EventsSound(c, req);
    if Events(c, req) != [] {
      assert Events(c, req)[0] in Events(c, req);
    }
  }

  // ---------------------------------------------------------------- where each kind of tag stands

  lemma TagKinds(c: Catalogue, req: Request, j: nat)
    requires j < |AllTags(c, req)|
    ensures var g, n, a := |ConfigTags(c, req)|, |Events(c, req)|, |Ads(c, req)|;
            && (AllTags(c, req)[j].kind == Googtag <==> j < g)
            && (AllTags(c, req)[j].kind == Gaawe <==> g <= j < g + n)
            && (AllTags(c, req)[j].kind == Awct <==> g + n <= j < g + n + a)
            && (AllTags(c, req)[j].kind == Gclidw <==> g + n + a <= j)
  {
    var g := |ConfigTags(c, req)|;
    if j < g {
      TagParts(c, req, j);
    } else if j < g + |Events(c, req)| {
      EventTagAt(c, req, j - g);
    } else {
      LastTagAt(c, req, j);
      AdsKind(c, req);
    }
  }

  lemma AdsKind(c: Catalogue, req: Request)
    ensures forall tag <- Ads(c, req) :: tag.kind == Awct
  {
    EventsSound(c, req);
    KeyEventChosen(c.keyEvents, Events(c, req));
  }

  lemma TagCount(c: Catalogue, req: Request)
    ensures |AllTags(c, req)| == |ConfigTags(c, req)| + |Events(c, req)| + |Ads(c, req)| + |Linker(c, req)|
    ensures |AllTriggers(c, req)| == |HistoryTrigger(c, req)| + |Events(c, req)|
  {
    EventsSound(c, req);
  }

  // ---------------------------------------------------------------- the configuration

  /** Main result: there is a configuration tag exactly if it is asked for or some chosen item has a
      recipe. It comes first and is the only one; it carries the measurement id, or the placeholder,
      and fires on all pages and, exactly for a single-page site, on the history trigger. */
  lemma ConfigurationTag(c: Catalogue, req: Request, j: nat)
    requires j < |Compiled(c, req).tags|
    ensures var k := Compiled(c, req);
            && (k.tags[j].kind == Googtag ==> NeedsGa4(c, req) && j == 0)
            && (NeedsGa4(c, req) ==>
                  k.tags[0] == Tag(1, "GA4 Configuration", Googtag,
                                   [Template("tagId", Text(if req.measurementId == "" then "G-XXXXXXXXXX" else req.measurementId)),
                                    Rows("configSettingsTable", [("send_page_view", Text("true"))])],
                                   if req.spa then [2147479553, 10] else [2147479553]))
  {
    NeedsGa4IsWanted(c, req);
    TagKinds(c, req, j);
    if NeedsGa4(c, req) {
      TagParts(c, req, 0);
      assert [ALL_PAGES] + [FIRST_TRIGGER] == [2147479553, 10] && [ALL_PAGES] + [] == [2147479553];
    }
  }

  /** Asking for the configuration, or for any event, does give a tag; asking for nothing gives none. */
  lemma SomeTag(c: Catalogue, req: Request)
    ensures NeedsGa4(c, req) ==> Compiled(c, req).tags != []
  {
    NeedsGa4IsWanted(c, req);
    TagCount(c, req);
  }

  /** The history trigger is there exactly for the configuration of a single-page site, first and
      under the number its tag fires on. */
  lemma HistoryTriggerPlace(c: Catalogue, req: Request)
    ensures var ts := Compiled(c, req).triggers;
            && (NeedsGa4(c, req) && req.spa ==> ts != [] && ts[0] == Trigger(10, "History Change (SPA)", HistoryChange))
            && (forall j | 0 <= j < |ts| && ts[j].filter == HistoryChange :: NeedsGa4(c, req) && req.spa && j == 0)
  {
    NeedsGa4IsWanted(c, req);
    TagCount(c, req);
    if NeedsGa4(c, req) && req.spa {
      TriggerAt(c, req, 0);
    }
    forall j | 0 <= j < |AllTriggers(c, req)| && AllTriggers(c, req)[j].filter == HistoryChange
      ensures NeedsGa4(c, req) && req.spa && j == 0
    {
      TriggerAt(c, req, j);
    }
  }

  // ---------------------------------------------------------------- events

  /** What a trigger of a recipe matches: a click on a link whose address passes the recipe's test, or
      the recipe's event in the data layer. */
  predicate Matches(t: Trigger, r: Recipe) {
    if r.kind == LinkClick then
      t.name == "Clic - " + r.event && t.filter == LinkFilter(r.linkOp, Ref("Click URL"), r.linkValue)
    else
      t.name == "CE - " + r.event && t.filter == EventEquals(Ref("_event"), r.event)
  }

  /** What a tag of a recipe sends: its event, to the configuration, with the e-commerce data of the data
      layer exactly if the recipe says so, and with the recipe's parameters exactly if it has any. */
  predicate Sends(tag: Tag, r: Recipe) {
    && tag.name == "GA4 - " + r.event && tag.kind == Gaawe && |tag.params| >= 2
    && tag.params[0] == Template("eventName", Text(r.event))
    && tag.params[1] == TagReference("measurementId", "GA4 Configuration")
    && tag.params[2..] ==
       if r.ecommerce && r.params != [] then
         [Boolean("sendEcommerceData", true), Template("getEcommerceDataFrom", Text("dataLayer")), Rows("eventParameters", r.params)]
       else if r.ecommerce then [Boolean("sendEcommerceData", true), Template("getEcommerceDataFrom", Text("dataLayer"))]
       else if r.params != [] then [Rows("eventParameters", r.params)] else []
  }

  lemma EventTagSends(r: Recipe, id: nat, trigger: nat)
    ensures Sends(EventTag(r, id, trigger), r) && EventTag(r, id, trigger).firing == [trigger]
  {
    var base := [Template("eventName", Text(r.event)), TagReference("measurementId", CONFIG_TAG)];
    var shop := if r.ecommerce then [Boolean("sendEcommerceData", true), Template("getEcommerceDataFrom", Text("dataLayer"))] else [];
    var rows := if r.params == [] then [] else [Rows("eventParameters", r.params)];
    assert EventTag(r, id, trigger).params == base + shop + rows;
    assert (base + shop + rows)[2..] == shop + rows;
  }

  lemma EventTriggerMatches(r: Recipe, id: nat)
    ensures Matches(EventTrigger(r, id), r) && EventTrigger(r, id).id == id
  {
  }

  /** Main result: every chosen item that has a recipe has a trigger that matches what the recipe says
      and a tag that sends what it says, fired by that trigger and by nothing else. */
  lemma ChosenEvent(c: Catalogue, req: Request, item: string) returns (i: nat, j: nat)
    requires item in req.items && item in c.recipes
    ensures i < |Compiled(c, req).triggers| && j < |Compiled(c, req).tags|
    ensures Matches(Compiled(c, req).triggers[i], c.recipes[item])
    ensures Sends(Compiled(c, req).tags[j], c.recipes[item])
    ensures Compiled(c, req).tags[j].firing == [Compiled(c, req).triggers[i].id]
  {
    var n := ChosenPlace(c, req, item);
    var id := Base(c, req) + n;
    i, j := |HistoryTrigger(c, req)| + n, |ConfigTags(c, req)| + n;
    assert i < |AllTriggers(c, req)| && AllTriggers(c, req)[i] == EventTrigger(c.recipes[item], id) by {
      EventTriggerAt(c, req, n);
    }
    assert j < |AllTags(c, req)| && AllTags(c, req)[j] == EventTag(c.recipes[item], FIRST_TAG + n, id) by {
      EventTagAt(c, req, n);
    }
    EventTriggerMatches(c.recipes[item], id);
    EventTagSends(c.recipes[item], FIRST_TAG + n, id);
  }

  lemma ChosenPlace(c: Catalogue, req: Request, item: string) returns (n: nat)
    requires item in req.items && item in c.recipes
    ensures n < |Events(c, req)| && Events(c, req)[n] == item
  {
    EventsSound(c, req);
    n := IndexOf(Events(c, req), item);
  }

  /** And there are no other event tags or triggers: as many as chosen items with a recipe, each of
      one of them. */
  lemma OnlyChosenEvents(c: Catalogue, req: Request, chosen: set<string>)
    requires forall item :: item in chosen <==> item in req.items && item in c.recipes
    ensures var k := Compiled(c, req);
            && |k.triggers| == |chosen| + (if NeedsGa4(c, req) && req.spa then 1 else 0)
            && forall j | 0 <= j < |k.tags| && k.tags[j].kind == Gaawe :: exists item :: item in chosen && Sends(k.tags[j], c.recipes[item])
  {
    EventsSound(c, req);
    NeedsGa4IsWanted(c, req);
    TagCount(c, req);
    DistinctLength(Events(c, req));
    assert Elements(Events(c, req)) == chosen;
    forall j | 0 <= j < |AllTags(c, req)| && AllTags(c, req)[j].kind == Gaawe
      ensures exists item :: item in chosen && Sends(AllTags(c, req)[j], c.recipes[item])
    {
      var n := j - |ConfigTags(c, req)|;
      TagKinds(c, req, j);
      EventTagAt(c, req, n);
      EventTagSends(c.recipes[Events(c, req)[n]], FIRST_TAG + n, Base(c, req) + n);
      assert Events(c, req)[n] in chosen;
    }
  }

  // ---------------------------------------------------------------- Ads

  /** The number of an Ads account, without the prefix it may be written with. */
  ghost predicate NumberOf(id: string, written: string) {
    if "AW-" <= written then written == "AW-" + id else written == id
  }

  lemma PrefixRemoved(written: string)
    ensures NumberOf(RemovePrefix(written), written)
  {
    if "AW-" <= written {
      assert written == written[..3] + written[3..];
    }
  }

  /** Main result: what the Ads tag carries: the account number and label, the trigger of the most
      preferred key event chosen, and the value and currency exactly if that event is a sale. */
  lemma AdsTagCarries(c: Catalogue, req: Request, p: nat, j: nat, account: string) returns (i: nat)
    requires Preferred(c, req, p) && j < |Compiled(c, req).tags| && Compiled(c, req).tags[j].kind == Awct
    requires NumberOf(account, req.adsId)
    ensures i < |Compiled(c, req).triggers| && Matches(Compiled(c, req).triggers[i], c.recipes[c.keyEvents[p]])
    ensures var tag := Compiled(c, req).tags[j];
            && tag.name == "Google Ads - Conversion" && tag.firing == [Compiled(c, req).triggers[i].id]
            && tag.params == [Template("conversionId", Text(account)), Template("conversionLabel", Text(req.adsLabel))]
                             + if c.recipes[c.keyEvents[p]].ecommerce
                               then [Template("conversionValue", Ref("dlv - value")), Template("currencyCode", Ref("dlv - currency"))]
                               else []
  {
    i := AdsFiresOnPreferredEvent(c, req, p, j);
    PrefixRemoved(req.adsId);
    if "AW-" <= req.adsId {
      assert ("AW-" + account)[3..] == account;
    }
  }

  /** The Ads tag is there, and alone, exactly if it is asked for with an account and a label, and a key
      event is chosen. */
  lemma AdsTagPresence(c: Catalogue, req: Request)
    ensures var tags := Compiled(c, req).tags;
            && ((exists j :: 0 <= j < |tags| && tags[j].kind == Awct)
                <==> "ads_conversion_tag" in req.items && req.adsId !in {"", "AW-"} && req.adsLabel != "" && exists p :: Preferred(c, req, p))
            && forall i, j | 0 <= i < |tags| && 0 <= j < |tags| && tags[i].kind == Awct && tags[j].kind == Awct :: i == j
  {
    AdsPresence(c, req);
    AdsShape(c, req);
    AccountGiven(req.adsId);
    TagCount(c, req);
    var at := |ConfigTags(c, req)| + |Events(c, req)|;
    forall j | 0 <= j < |AllTags(c, req)| ensures AllTags(c, req)[j].kind == Awct <==> j == at && Ads(c, req) != [] {
      TagKinds(c, req, j);
    }
    if Ads(c, req) != [] {
      assert AllTags(c, req)[at].kind == Awct;
    }
  }

  lemma AccountGiven(written: string)
    ensures RemovePrefix(written) != "" <==> written !in {"", "AW-"}
  {
    if "AW-" <= written {
      assert written == "AW-" + written[3..];
      if written[3..] == "" {
        assert written == "AW-" + "" == "AW-";
      } else {
        assert |written| > |"AW-"|;
      }
    } else {
      assert written != "AW-";
    }
  }

  /** The linker is there exactly if it is asked for or there is an Ads tag; it comes last, is the only
      one, carries nothing and fires on all pages. */
  lemma LinkerTagPresence(c: Catalogue, req: Request)
    ensures var tags := Compiled(c, req).tags;
            && ("ads_conversion_linker" in req.items || (exists j :: 0 <= j < |tags| && tags[j].kind == Awct)
                ==> tags != [] && Last(tags).kind == Gclidw)
            && forall j | 0 <= j < |tags| && tags[j].kind == Gclidw ::
                 && j == |tags| - 1 && tags[j] == Tag(tags[j].id, "Conversion Linker", Gclidw, [], [2147479553])
                 && ("ads_conversion_linker" in req.items || exists i :: 0 <= i < |tags| && tags[i].kind == Awct)
  {
    AdsShape(c, req);
    TagCount(c, req);
    var tags, at := AllTags(c, req), |ConfigTags(c, req)| + |Events(c, req)|;
    assert |Linker(c, req)| == if "ads_conversion_linker" in req.items || Ads(c, req) != [] then 1 else 0;
    forall j | 0 <= j < |tags|
      ensures tags[j].kind == Awct <==> j == at && Ads(c, req) != []
      ensures tags[j].kind == Gclidw <==> j == at + |Ads(c, req)|
    {
      TagKinds(c, req, j);
    }
    if Ads(c, req) != [] {
      assert tags[at].kind == Awct;
    }
    if Linker(c, req) != [] {
      LastTagAt(c, req, at + |Ads(c, req)|);
      assert Last(tags) == tags[at + |Ads(c, req)|];
    }
  }

  // ---------------------------------------------------------------- warnings

  lemma WarningIn(c: Catalogue, req: Request, w: Warning)
    ensures w in Compiled(c, req).warnings <==>
            w in FirstWarnings(req) || w in IgnoredWarnings(IgnoredItems(c, req)) || w in LastWarnings(c, req)
  {
    WarningParts(c, req);
  }

  lemma IgnoredOnly(items: seq<string>, w: Warning)
    requires w in IgnoredWarnings(items)
    ensures w.Ignored?
  {
    IgnoredCount(items, "");
  }

  lemma OtherWarningIn(c: Catalogue, req: Request, w: Warning)
    requires !w.Ignored?
    ensures w in Compiled(c, req).warnings <==> w in FirstWarnings(req) || w in LastWarnings(c, req)
  {
    WarningIn(c, req, w);
    if w in IgnoredWarnings(IgnoredItems(c, req)) {
      IgnoredOnly(IgnoredItems(c, req), w);
    }
  }

  lemma FirstHolds(req: Request, w: Warning)
    ensures w in FirstWarnings(req) <==> w == UnknownMeasurementId && req.measurementId == ""
  {
  }

  lemma LastHolds(c: Catalogue, req: Request, w: Warning)
    ensures w in LastWarnings(c, req) <==>
            || (w == DoublePageView && WantsConfig(c, req))
            || w in AdsWarnings(req, Ads(c, req))
            || (w == AdsUnvalidated && (Ads(c, req) != [] || Linker(c, req) != []))
  {
  }

  lemma AdsWarningKinds(req: Request, ads: seq<Tag>, w: Warning)
    requires w in AdsWarnings(req, ads)
    ensures w == AdsNotConfigured || w == AdsWithoutKeyEvent
  {
  }

  lemma GeneralWarning(c: Catalogue, req: Request, w: Warning)
    requires w in {UnknownMeasurementId, DoublePageView, AdsUnvalidated}
    ensures w in Compiled(c, req).warnings <==>
            || (w == UnknownMeasurementId && req.measurementId == "")
            || (w == DoublePageView && WantsConfig(c, req))
            || (w == AdsUnvalidated && (Ads(c, req) != [] || Linker(c, req) != []))
  {
    OtherWarningIn(c, req, w);
    FirstHolds(req, w);
    LastHolds(c, req, w);
    if w in AdsWarnings(req, Ads(c, req)) {
      AdsWarningKinds(req, Ads(c, req), w);
    }
  }

  /** Main result: when each of the other warnings is given. */
  lemma GeneralWarnings(c: Catalogue, req: Request)
    ensures var ws, tags := Compiled(c, req).warnings, Compiled(c, req).tags;
            && (UnknownMeasurementId in ws <==> req.measurementId == "")
            && (DoublePageView in ws <==> NeedsGa4(c, req))
            && (AdsUnvalidated in ws <==> exists j :: 0 <= j < |tags| && (tags[j].kind == Awct || tags[j].kind == Gclidw))
  {
    NeedsGa4IsWanted(c, req);
    GeneralWarning(c, req, UnknownMeasurementId);
    GeneralWarning(c, req, DoublePageView);
    GeneralWarning(c, req, AdsUnvalidated);
    UnvalidatedTags(c, req);
  }

  lemma AdsWarning(c: Catalogue, req: Request, w: Warning)
    requires w in {AdsNotConfigured, AdsWithoutKeyEvent}
    ensures w in Compiled(c, req).warnings <==> w in AdsWarnings(req, Ads(c, req))
  {
    OtherWarningIn(c, req, w);
    FirstHolds(req, w);
    LastHolds(c, req, w);
  }

  lemma AdsWarningsExact(c: Catalogue, req: Request)
    ensures var ws := Compiled(c, req).warnings;
            && (AdsNotConfigured in ws <==> "ads_conversion_tag" in req.items && (req.adsId in {"", "AW-"} || req.adsLabel == ""))
            && (AdsWithoutKeyEvent in ws <==>
                  "ads_conversion_tag" in req.items && req.adsId !in {"", "AW-"} && req.adsLabel != "" && forall p :: !Preferred(c, req, p))
  {
    AccountGiven(req.adsId);
    assert AdsConfigured(req) <==> req.adsId !in {"", "AW-"} && req.adsLabel != "";
    AdsPresence(c, req);
    AdsWarning(c, req, AdsNotConfigured);
    AdsWarning(c, req, AdsWithoutKeyEvent);
  }

  lemma UnvalidatedTags(c: Catalogue, req: Request)
    ensures Ads(c, req) != [] || Linker(c, req) != []
       <==> exists j :: 0 <= j < |AllTags(c, req)| && (AllTags(c, req)[j].kind == Awct || AllTags(c, req)[j].kind == Gclidw)
  {
    TagCount(c, req);
    var at := |ConfigTags(c, req)| + |Events(c, req)|;
    forall j | 0 <= j < |AllTags(c, req)|
      ensures AllTags(c, req)[j].kind == Awct || AllTags(c, req)[j].kind == Gclidw <==> j >= at
    {
      TagKinds(c, req, j);
    }
    if Ads(c, req) != [] || Linker(c, req) != [] {
      assert at < |AllTags(c, req)|;
      assert AllTags(c, req)[at].kind == Awct || AllTags(c, req)[at].kind == Gclidw;
    }
  }
}
