/** The program's own catalogue of recipes, and the results of `GtmResults` and `GtmReorder` for it. */
module GtmCatalogue {
  import opened Common
  import opened GtmContainer
  import opened GtmResults
  import opened GtmReorder

  function Ecommerce(event: string): Recipe {
    Recipe(event, CustomEvent, true, [], "", "")
  }

  function Plain(event: string): Recipe {
    Recipe(event, CustomEvent, false, [], "", "")
  }

  /** Clicks on contact links send the kind of contact and never the address itself. */
  function Contact(event: string, contact: string, op: string, target: string): Recipe {
    Recipe(event, LinkClick, false, [("contact_method", Text(contact))], op, target)
  }

  const RECIPES: seq<Recipe> := [
    Ecommerce("view_item"),
    Ecommerce("add_to_cart"),
    Ecommerce("begin_checkout"),
    Ecommerce("purchase"),
    Recipe("generate_lead", CustomEvent, false, [("form_id", Ref("dlv - form_id"))], "", ""),
    Plain("sign_up"),
    Plain("login"),
    Plain("begin_trial"),
    Plain("subscribe"),
    Plain("tutorial_complete"),
    Plain("newsletter_signup"),
    Plain("share"),
    Contact("click_to_call", "tel", "startsWith", "tel:"),
    Contact("click_email", "email", "startsWith", "mailto:"),
    Contact("click_whatsapp", "whatsapp", "contains", "wa.me")]

  const ADS_KEY_EVENTS := ["event_purchase", "event_generate_lead", "event_sign_up", "event_subscribe"]

  /** Every item that has a recipe is called "event_" and the name of the event it sends. */
  function Tabulated(table: seq<Recipe>): map<string, Recipe> {
    if table == [] then map[] else Tabulated(Init(table))["event_" + Last(table).event := Last(table)]
  }

  function Program(): Catalogue {
    Catalogue(Tabulated(RECIPES), ADS_KEY_EVENTS)
  }

  lemma {:induction false} TabulatedSound(table: seq<Recipe>)
    requires forall i | 0 <= i < |table| :: RowsDeclared(table[i].params)
    ensures forall a | a in Tabulated(table) :: a == "event_" + Tabulated(table)[a].event && RowsDeclared(Tabulated(table)[a].params)
    ensures |Tabulated(table)| <= |table|
  {
    if table != [] {
      TabulatedSound(Init(table));
    }
  }

  /** The program's catalogue is coherent, so every result about coherent catalogues holds of it. */
  lemma ProgramIsCoherent()
    ensures Coherent(Program())
  {
    assert "dlv - form_id" in DECLARED;
    TabulatedSound(RECIPES);
  }

  /** The results, for the program itself: fresh numbers and closed references, */
  lemma ProgramResults(req: Request)
    ensures var k := Compiled(Program(), req);
            && (forall i, j | 0 <= i < j < |k.triggers| :: k.triggers[i].id != k.triggers[j].id)
            && (forall i, j | 0 <= i < j < |k.tags| :: k.tags[i].id != k.tags[j].id)
            && (forall i | 0 <= i < |k.triggers| :: k.triggers[i].id != ALL_PAGES && FilterClosed(k.triggers[i].filter))
            && (forall i | 0 <= i < |k.tags| :: TagClosed(k.triggers, k.tags, k.tags[i]))
  {
    ProgramIsCoherent();
    NumbersDistinct(Program(), req);
    ReferencesClosed(Program(), req);
  }

  /** and independence of the order in which items are chosen. */
  lemma ProgramOrder(req: Request, again: Request)
    requires SameChoice(req, again)
    ensures var k, k' := Compiled(Program(), req), Compiled(Program(), again);
            && (forall tag <- k.tags :: RenamedTag(Program(), req, again, tag) in k'.tags)
            && (forall t <- k.triggers :: RenamedTrigger(Program(), req, again, t) in k'.triggers)
            && |k.triggers| == |k'.triggers| && |k.tags| == |k'.tags|
            && k.variables == k'.variables && multiset(k.warnings) == multiset(k'.warnings)
  {
    ProgramIsCoherent();
    OrderIsIrrelevant(Program(), req, again);
  }
}
