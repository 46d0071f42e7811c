/** What a scan looks for: `_build_findings` of backend/app/services/gtm_check.py and
    `detect_anomalies` of backend/app/services/audit_engine.py. The wording of titles and details
    is a parameter; the ratio of valid pages is compared exactly. */
module Detection {
  import opened Common
  import opened AuditEngine
  import opened Uuids

  datatype Rule =
    | SslCertificate
    | PreviewCspBlock
    | ConsentGated
    | CustomDataLayer
    | MultipleContainers
    | NoscriptOnlyTag
    | SnippetNotInHead
    | ServerSide
    | HardcodedGa4
    | QueryStripped
    | PurchaseParams
    | EventMissing
    | UserIdMissing
    | SearchStale
    | Noindex
    | Coverage
    | SlowLcp
    | SlowInp
    | LargeCls

  function Name(rule: Rule): string {
    match rule
    case SslCertificate => "ssl_certificate"
    case PreviewCspBlock => "gtm_preview_csp_block"
    case ConsentGated => "gtm_consent_gated"
    case CustomDataLayer => "gtm_custom_datalayer"
    case MultipleContainers => "gtm_multiple_containers"
    case NoscriptOnlyTag => "gtm_noscript_only"
    case SnippetNotInHead => "gtm_snippet_not_in_head"
    case ServerSide => "gtm_server_side"
    case HardcodedGa4 => "ga4_hardcoded_alongside_gtm"
    case QueryStripped => "gtm_query_stripped"
    case PurchaseParams => "ga4_purchase_params"
    case EventMissing => "ga4_event_missing"
    case UserIdMissing => "ga4_user_id"
    case SearchStale => "gsc_stale"
    case Noindex => "gsc_noindex"
    case Coverage => "gsc_coverage"
    case SlowLcp => "cwv_lcp"
    case SlowInp => "cwv_inp"
    case LargeCls => "cwv_cls"
  }

  // ---------------------------------------------------------------- tag manager findings

  datatype Form = Standard | CustomLoader | NoscriptOnly | Absent

  datatype Page = Page(containers: nat, form: Form, inHead: Option<bool>, dataLayer: string, consentGated: bool,
                       cspBlocksPreview: Option<bool>, serverSide: bool, ga4Tags: nat, queryStripped: bool)

  datatype Finding = Finding(code: Rule, severity: Severity)

  function Reported(found: seq<Finding>, condition: bool, code: Rule, severity: Severity): seq<Finding> {
    if condition then found + [Finding(code, severity)] else found
  }

  function Moderate(found: seq<Finding>, p: Page): seq<Finding> {
    var f1 := Reported(found, p.consentGated, ConsentGated, Medium);
    var f2 := Reported(f1, p.dataLayer != "dataLayer", CustomDataLayer, Medium);
    var f3 := Reported(f2, p.containers >= 2, MultipleContainers, Medium);
    Reported(f3, p.form == NoscriptOnly, NoscriptOnlyTag, Medium)
  }

  function Slight(found: seq<Finding>, p: Page): seq<Finding> {
    var late := (p.form == Standard || p.form == CustomLoader) && p.inHead == Some(false);
    var f1 := Reported(found, late, SnippetNotInHead, Low);
    var f2 := Reported(f1, p.serverSide, ServerSide, Low);
    var f3 := Reported(f2, p.ga4Tags > 0, HardcodedGa4, Low);
    Reported(f3, p.queryStripped, QueryStripped, Low)
  }

  /** The findings in the order in which they are looked for. */
  function Looked(p: Page): seq<Finding> {
    Slight(Moderate(Reported([], p.cspBlocksPreview == Some(true), PreviewCspBlock, High), p), p)
  }

  function Order(severity: Severity): nat {
    match severity case Critical => 0 case High => 0 case Medium => 1 case Low => 2
  }

  function Inserted(f: Finding, findings: seq<Finding>): seq<Finding> {
    if findings == [] || Order(f.severity) <= Order(findings[0].severity) then [f] + findings
    else [findings[0]] + Inserted(f, findings[1..])
  }

  /** The stable sort by severity. */
  function Sorted(findings: seq<Finding>): seq<Finding> {
    if findings == [] then [] else Inserted(findings[0], Sorted(findings[1..]))
  }

  ghost predicate Graded(findings: seq<Finding>) {
    forall i, j | 0 <= i < j < |findings| :: Order(findings[i].severity) <= Order(findings[j].severity)
  }

  /** Sorting moves nothing in a list that is already in order. */
  lemma {:induction false} SortMovesNothing(findings: seq<Finding>)
    requires Graded(findings)
    ensures Sorted(findings) == findings
  {
    if findings != [] {
      SortMovesNothing(findings[1..]);
      assert findings == [findings[0]] + findings[1..];
    }
  }

  /** It is a sort: the result is in order and has the same findings. */
  lemma {:induction false} SortSorts(findings: seq<Finding>)
    ensures Graded(Sorted(findings)) && multiset(Sorted(findings)) == multiset(findings)
  {
    if findings != [] {
      SortSorts(findings[1..]);
      assert findings == [findings[0]] + findings[1..];
      InsertSorts(findings[0], Sorted(findings[1..]));
    }
  }

  lemma {:induction false} InsertSorts(f: Finding, findings: seq<Finding>)
    requires Graded(findings)
    ensures Graded(Inserted(f, findings)) && multiset(Inserted(f, findings)) == multiset([f] + findings)
    ensures var r := Inserted(f, findings); r != [] && (r[0] == f || (findings != [] && r[0] == findings[0]))
  {
    if findings != [] && Order(f.severity) > Order(findings[0].severity) {
      var rest := Inserted(f, findings[1..]);
      InsertSorts(f, findings[1..]);
      assert findings == [findings[0]] + findings[1..];
      AddFirst(findings[0], rest);
    } else {
      AddFirst(f, findings);
    }
  }

  lemma AddFirst(f: Finding, rest: seq<Finding>)
    requires Graded(rest) && (rest != [] ==> Order(f.severity) <= Order(rest[0].severity))
    ensures Graded([f] + rest)
  {
  }

  method FindModerate(found: seq<Finding>, p: Page) returns (out: seq<Finding>)
    ensures out == Moderate(found, p)
  {
    out := found;
    if p.consentGated { out := out + [Finding(ConsentGated, Medium)]; }
    if p.dataLayer != "dataLayer" { out := out + [Finding(CustomDataLayer, Medium)]; }
    if p.containers >= 2 { out := out + [Finding(MultipleContainers, Medium)]; }
    if p.form == NoscriptOnly { out := out + [Finding(NoscriptOnlyTag, Medium)]; }
  }

  method FindSlight(found: seq<Finding>, p: Page) returns (out: seq<Finding>)
    ensures out == Slight(found, p)
  {
    out := found;
    if p.form in {Standard, CustomLoader} && p.inHead == Some(false) {
      out := out + [Finding(SnippetNotInHead, Low)];
    }
    if p.serverSide { out := out + [Finding(ServerSide, Low)]; }
    if p.ga4Tags > 0 { out := out + [Finding(HardcodedGa4, Low)]; }
    if p.queryStripped { out := out + [Finding(QueryStripped, Low)]; }
  }

  method BuildFindings(p: Page) returns (out: seq<Finding>)
    ensures out == Looked(p) && Graded(out)
  {
    out := [];
    if p.cspBlocksPreview == Some(true) { out := out + [Finding(PreviewCspBlock, High)]; }
    out := FindModerate(out, p);
    out := FindSlight(out, p);
    LookedIsTidy(p);
    SortMovesNothing(out);
    out := Sorted(out);
  }

  // ---------------------------------------------------------------- anomalies

  datatype Tls = Tls(status: TlsState, daysLeft: Option<int>)

  datatype TlsState = Valid | ExpiringSoon | Expired | SelfSigned | HostnameMismatch | Untrusted | Unreachable

  datatype Signals = Signals(purchaseMissingParams: seq<string>, missingEvents: seq<string>, loginMissingUserId: bool,
                             staleDays: int, noindexPages: int, noindexOnProducts: bool, validPages: int,
                             excludedPages: int, lcpMs: int, inpMs: int, cls: real)

  datatype Hit = Hit(rule: Rule, subject: string, category: Category, severity: Severity)

  function If(condition: bool, a: Hit): seq<Hit> {
    if condition then [a] else []
  }

  function TlsSeverity(t: Tls): Severity {
    match t.status
    case Expired => Critical
    case ExpiringSoon =>
      if t.daysLeft.Some? && t.daysLeft.value <= 7 then Critical
      else if t.daysLeft.Some? && t.daysLeft.value <= 14 then High
      else Medium
    case _ => High
  }

  function TlsAnomalies(tls: Option<Tls>): seq<Hit> {
    if tls.None? || tls.value.status == Valid || tls.value.status == Unreachable then []
    else [Hit(SslCertificate, "certificate", Seo, TlsSeverity(tls.value))]
  }

  /** Findings of low severity raise no issue. */
  function GtmAnomalies(findings: seq<Finding>): seq<Hit> {
    if findings == [] then []
    else
      If(findings[0].severity == High || findings[0].severity == Medium,
         Hit(findings[0].code, "gtm", Tracking, findings[0].severity))
      + GtmAnomalies(findings[1..])
  }

  function EventAnomalies(events: seq<string>): seq<Hit> {
    seq(|events|, i requires 0 <= i < |events| => Hit(EventMissing, events[i], Analytics, High))
  }

  /** At most one anomaly of the search console: stale data hide bad pages, which hide low coverage. */
  function SearchAnomalies(s: Signals): seq<Hit> {
    var total := s.validPages + s.excludedPages;
    if s.staleDays >= 3 then [Hit(SearchStale, "connection", Seo, High)]
    else if s.noindexPages > 0 then
      [Hit(Noindex, "noindex", Seo, if s.noindexOnProducts then High else Medium)]
    else If(total > 0 && 100 * s.validPages < 85 * total, Hit(Coverage, "coverage", Seo, Medium))
  }

  function SpeedAnomalies(s: Signals): seq<Hit> {
    If(s.lcpMs > 2500, Hit(SlowLcp, "lcp", Cwv, if s.lcpMs > 4000 then Critical else High))
    + If(s.inpMs > 200, Hit(SlowInp, "inp", Cwv, Medium))
    + If(s.cls > 0.1, Hit(LargeCls, "cls", Cwv, Medium))
  }

  function BeforeEvents(s: Signals, tls: Option<Tls>, findings: seq<Finding>): seq<Hit> {
    TlsAnomalies(tls) + GtmAnomalies(findings)
    + If(s.purchaseMissingParams != [], Hit(PurchaseParams, "purchase", Analytics, Critical))
  }

  function AfterEvents(s: Signals): seq<Hit> {
    If(s.loginMissingUserId, Hit(UserIdMissing, "login", Analytics, High)) + SearchAnomalies(s) + SpeedAnomalies(s)
  }

  function Detected(s: Signals, tls: Option<Tls>, findings: seq<Finding>): seq<Hit> {
    BeforeEvents(s, tls, findings) + EventAnomalies(s.missingEvents) + AfterEvents(s)
  }

  // ---------------------------------------------------------------- no anomaly is raised twice

  /** The place of a rule in the order in which rules are tried; slight findings have none. */
  function Rank(rule: Rule): nat {
    match rule
    case SslCertificate => 1
    case PreviewCspBlock => 2
    case ConsentGated => 3
    case CustomDataLayer => 4
    case MultipleContainers => 5
    case NoscriptOnlyTag => 6
    case PurchaseParams => 7
    case EventMissing => 8
    case UserIdMissing => 9
    case SearchStale => 10
    case Noindex => 11
    case Coverage => 12
    case SlowLcp => 13
    case SlowInp => 14
    case LargeCls => 15
    case _ => 0
  }

  /** The rules of a list go up strictly, and stay within bounds. */
  ghost predicate Climbs(anomalies: seq<Hit>, low: nat, high: nat) {
    && (forall i | 0 <= i < |anomalies| :: low <= Rank(anomalies[i].rule) < high)
    && forall i, j | 0 <= i < j < |anomalies| :: Rank(anomalies[i].rule) < Rank(anomalies[j].rule)
  }

  lemma ClimbsOn(a: seq<Hit>, b: seq<Hit>, low: nat, mid: nat, high: nat)
    requires Climbs(a, low, mid) && Climbs(b, mid, high) && low <= mid <= high
    ensures Climbs(a + b, low, high)
  {
  }

  lemma {:induction false} GtmOfAppend(a: seq<Finding>, b: seq<Finding>)
    ensures GtmAnomalies(a + b) == GtmAnomalies(a) + GtmAnomalies(b)
  {
    if a == [] {
      assert a + b == b;
    } else {
      assert (a + b)[1..] == a[1..] + b;
      GtmOfAppend(a[1..], b);
    }
  }

  /** What holds of the findings while they are looked for: they are in order of severity, and
      raise one issue per code. */
  ghost predicate Tidy(findings: seq<Finding>, k: nat, n: nat) {
    Graded(findings) && (forall f <- findings :: Order(f.severity) <= n) && Climbs(GtmAnomalies(findings), 2, k)
  }

  lemma NextFinding(findings: seq<Finding>, k: nat, n: nat, condition: bool, f: Finding) returns (k': nat)
    requires Tidy(findings, k, n) && 2 <= k && n <= Order(f.severity)
    requires f.severity != Low ==> Rank(f.code) == k
    ensures k' == if f.severity == Low then k else k + 1
    ensures Tidy(Reported(findings, condition, f.code, f.severity), k', Order(f.severity))
  {
    k' := if f.severity == Low then k else k + 1;
    if condition {
      var next := findings + [f];
      assert Reported(findings, condition, f.code, f.severity) == next;
      NextGraded(findings, n, f);
      NextClimbs(findings, k, f);
    }
  }

  lemma NextGraded(findings: seq<Finding>, n: nat, f: Finding)
    requires Graded(findings) && (forall f <- findings :: Order(f.severity) <= n) && n <= Order(f.severity)
    ensures Graded(findings + [f]) && forall g <- findings + [f] :: Order(g.severity) <= Order(f.severity)
  {
  }

  lemma NextClimbs(findings: seq<Finding>, k: nat, f: Finding)
    requires Climbs(GtmAnomalies(findings), 2, k) && 2 <= k
    requires f.severity != Low ==> Rank(f.code) == k
    ensures Climbs(GtmAnomalies(findings + [f]), 2, if f.severity == Low then k else k + 1)
  {
    GtmOfAppend(findings, [f]);
    assert GtmAnomalies([f]) == if f.severity == Low || f.severity == Critical then []
                                else [Hit(f.code, "gtm", Tracking, f.severity)];
    ClimbsOn(GtmAnomalies(findings), GtmAnomalies([f]), 2, k, if f.severity == Low then k else k + 1);
  }

  lemma TwoModerate(found: seq<Finding>, k: nat, n: nat, c: bool, code: Rule, c': bool, code': Rule)
    requires Tidy(found, k, n) && 2 <= k && n <= 1
    requires Rank(code) == k && Rank(code') == k + 1
    ensures Tidy(Reported(Reported(found, c, code, Medium), c', code', Medium), k + 2, 1)
  {
    var next := NextFinding(found, k, n, c, Finding(code, Medium));
    next := NextFinding(Reported(found, c, code, Medium), next, 1, c', Finding(code', Medium));
  }

  lemma ModerateIsTidy(found: seq<Finding>, p: Page)
    requires Tidy(found, 3, 0)
    ensures Tidy(Moderate(found, p), 7, 1)
  {
    var renamed := p.dataLayer != "dataLayer";
    TwoModerate(found, 3, 0, p.consentGated, ConsentGated, renamed, CustomDataLayer);
    var half := Reported(Reported(found, p.consentGated, ConsentGated, Medium), renamed, CustomDataLayer, Medium);
    TwoModerate(half, 5, 1, p.containers >= 2, MultipleContainers, p.form == NoscriptOnly, NoscriptOnlyTag);
  }

  lemma SlightIsTidy(found: seq<Finding>, p: Page)
    requires Tidy(found, 7, 1)
    ensures Tidy(Slight(found, p), 7, 2)
  {
    var late := (p.form == Standard || p.form == CustomLoader) && p.inHead == Some(false);
    var f1 := Reported(found, late, SnippetNotInHead, Low);
    var k := NextFinding(found, 7, 1, late, Finding(SnippetNotInHead, Low));
    var f2 := Reported(f1, p.serverSide, ServerSide, Low);
    k := NextFinding(f1, 7, 2, p.serverSide, Finding(ServerSide, Low));
    var f3 := Reported(f2, p.ga4Tags > 0, HardcodedGa4, Low);
    k := NextFinding(f2, 7, 2, p.ga4Tags > 0, Finding(HardcodedGa4, Low));
    k := NextFinding(f3, 7, 2, p.queryStripped, Finding(QueryStripped, Low));
  }

  /** The findings of a page are in order of severity, and raise one issue per code. */
  lemma LookedIsTidy(p: Page)
    ensures Tidy(Looked(p), 7, 2)
  {
    var urgent := Reported([], p.cspBlocksPreview == Some(true), PreviewCspBlock, High);
    var k := NextFinding([], 2, 0, p.cspBlocksPreview == Some(true), Finding(PreviewCspBlock, High));
    ModerateIsTidy(urgent, p);
    SlightIsTidy(Moderate(urgent, p), p);
  }

  lemma OneAnomaly(condition: bool, a: Hit, k: nat)
    requires Rank(a.rule) == k
    ensures Climbs(If(condition, a), k, k + 1)
  {
  }

  lemma BeforeClimbs(s: Signals, tls: Option<Tls>, findings: seq<Finding>)
    requires Climbs(GtmAnomalies(findings), 2, 7)
    ensures Climbs(BeforeEvents(s, tls, findings), 1, 8)
  {
    var purchase := Hit(PurchaseParams, "purchase", Analytics, Critical);
    var a, b, c := TlsAnomalies(tls), GtmAnomalies(findings), If(s.purchaseMissingParams != [], purchase);
    assert Climbs(a, 1, 2) by { CertificateClimbs(tls); }
    assert Climbs(a + b, 1, 7) by { ClimbsOn(a, b, 1, 2, 7); }
    assert Climbs(c, 7, 8) by { OneAnomaly(s.purchaseMissingParams != [], purchase, 7); }
    assert Climbs(a + b + c, 1, 8) by { ClimbsOn(a + b, c, 1, 7, 8); }
    assert BeforeEvents(s, tls, findings) == a + b + c;
  }

  lemma CertificateClimbs(tls: Option<Tls>)
    ensures Climbs(TlsAnomalies(tls), 1, 2)
  {
  }

  lemma SpeedClimbs(s: Signals)
    ensures Climbs(SpeedAnomalies(s), 13, 16)
  {
    var lcp := Hit(SlowLcp, "lcp", Cwv, if s.lcpMs > 4000 then Critical else High);
    var inp := Hit(SlowInp, "inp", Cwv, Medium);
    var cls := Hit(LargeCls, "cls", Cwv, Medium);
    var a, b, c := If(s.lcpMs > 2500, lcp), If(s.inpMs > 200, inp), If(s.cls > 0.1, cls);
    assert Climbs(a, 13, 14) by { OneAnomaly(s.lcpMs > 2500, lcp, 13); }
    assert Climbs(b, 14, 15) by { OneAnomaly(s.inpMs > 200, inp, 14); }
    assert Climbs(c, 15, 16) by { OneAnomaly(s.cls > 0.1, cls, 15); }
    assert Climbs(a + b, 13, 15) by { ClimbsOn(a, b, 13, 14, 15); }
    assert Climbs(a + b + c, 13, 16) by { ClimbsOn(a + b, c, 13, 15, 16); }
    assert SpeedAnomalies(s) == a + b + c;
  }

  lemma SearchClimbs(s: Signals)
    ensures Climbs(SearchAnomalies(s), 10, 13)
  {
    OneAnomaly(true, Hit(SearchStale, "connection", Seo, High), 10);
    OneAnomaly(true, Hit(Noindex, "noindex", Seo, if s.noindexOnProducts then High else Medium), 11);
    OneAnomaly(true, Hit(Coverage, "coverage", Seo, Medium), 12);
  }

  lemma AfterClimbs(s: Signals)
    ensures Climbs(AfterEvents(s), 9, 16)
  {
    var login := Hit(UserIdMissing, "login", Analytics, High);
    OneAnomaly(s.loginMissingUserId, login, 9);
    SearchClimbs(s);
    ClimbsOn(If(s.loginMissingUserId, login), SearchAnomalies(s), 9, 10, 13);
    SpeedClimbs(s);
    ClimbsOn(If(s.loginMissingUserId, login) + SearchAnomalies(s), SpeedAnomalies(s), 9, 13, 16);
  }

  method DetectAnomalies(s: Signals, tls: Option<Tls>, gtm: Option<seq<Finding>>) returns (out: seq<Hit>)
    ensures out == Detected(s, tls, FindingsOf(gtm))
  {
    out := DetectBeforeEvents(s, tls, gtm);
    ghost var before := out;
    for i := 0 to |s.missingEvents|
      invariant out == before + EventAnomalies(s.missingEvents[..i])
    {
      out := out + [Hit(EventMissing, s.missingEvents[i], Analytics, High)];
      NextEvent(s.missingEvents, i);
    }
    assert s.missingEvents[..|s.missingEvents|] == s.missingEvents;
    var rest := DetectAfterEvents(s);
    out := out + rest;
  }

  lemma NextEvent(events: seq<string>, i: nat)
    requires i < |events|
    ensures EventAnomalies(events[..i + 1]) == EventAnomalies(events[..i]) + [Hit(EventMissing, events[i], Analytics, High)]
  {
  }

  method DetectBeforeEvents(s: Signals, tls: Option<Tls>, gtm: Option<seq<Finding>>) returns (out: seq<Hit>)
    ensures out == BeforeEvents(s, tls, FindingsOf(gtm))
  {
    out := TlsAnomalies(tls);
    if gtm.Some? {
      var tracking := RaiseFindings(gtm.value);
      out := out + tracking;
    }
    if s.purchaseMissingParams != [] {
      out := out + [Hit(PurchaseParams, "purchase", Analytics, Critical)];
    }
  }

  method RaiseFindings(findings: seq<Finding>) returns (out: seq<Hit>)
    ensures out == GtmAnomalies(findings)
  {
    out := [];
    for i := 0 to |findings|
      invariant out == GtmAnomalies(findings[..i])
    {
      GtmOfAppend(findings[..i], [findings[i]]);
      assert findings[..i + 1] == findings[..i] + [findings[i]];
      if findings[i].severity in {High, Medium} {
        out := out + [Hit(findings[i].code, "gtm", Tracking, findings[i].severity)];
      }
    }
    assert findings[..|findings|] == findings;
  }

  method DetectAfterEvents(s: Signals) returns (out: seq<Hit>)
    ensures out == AfterEvents(s)
  {
    out := [];
    if s.loginMissingUserId { out := out + [Hit(UserIdMissing, "login", Analytics, High)]; }
    var search := DetectSearch(s);
    var speed := DetectSpeed(s);
    out := out + search + speed;
  }

  method DetectSearch(s: Signals) returns (out: seq<Hit>)
    ensures out == SearchAnomalies(s)
  {
    var total := s.validPages + s.excludedPages;
    if s.staleDays >= 3 {
      out := [Hit(SearchStale, "connection", Seo, High)];
    } else if s.noindexPages > 0 {
      out := [Hit(Noindex, "noindex", Seo, if s.noindexOnProducts then High else Medium)];
    } else if total > 0 && 100 * s.validPages < 85 * total {
      out := [Hit(Coverage, "coverage", Seo, Medium)];
    } else {
      out := [];
    }
  }

  method DetectSpeed(s: Signals) returns (out: seq<Hit>)
    ensures out == SpeedAnomalies(s)
  {
    out := [];
    if s.lcpMs > 2500 { out := out + [Hit(SlowLcp, "lcp", Cwv, if s.lcpMs > 4000 then Critical else High)]; }
    if s.inpMs > 200 { out := out + [Hit(SlowInp, "inp", Cwv, Medium)]; }
    if s.cls > 0.1 { out := out + [Hit(LargeCls, "cls", Cwv, Medium)]; }
  }

  /** A finding raises a tracking issue exactly if it is of high or medium severity. */
  lemma {:induction false} TrackingIsExact(findings: seq<Finding>, h: Hit)
    ensures h in GtmAnomalies(findings)
       <==> h.subject == "gtm" && h.category == Tracking && (h.severity == High || h.severity == Medium)
            && Finding(h.rule, h.severity) in findings
  {
    if findings != [] {
      var first := findings[0];
      TrackingIsExact(findings[1..], h);
      assert Finding(h.rule, h.severity) in findings <==>
               Finding(h.rule, h.severity) == first || Finding(h.rule, h.severity) in findings[1..];
      assert h in GtmAnomalies(findings) <==>
               ((first.severity == High || first.severity == Medium) && h == Hit(first.code, "gtm", Tracking, first.severity))
               || h in GtmAnomalies(findings[1..]);
    }
  }

  /** Nothing amiss at the certificate, the tag manager, the analytics, the search console, the speed. */
  predicate Healthy(s: Signals, tls: Option<Tls>, findings: seq<Finding>) {
    && (tls.Some? ==> tls.value.status in {Valid, Unreachable})
    && (forall f <- findings :: f.severity !in {High, Medium})
    && s.purchaseMissingParams == [] && s.missingEvents == [] && !s.loginMissingUserId
    && s.staleDays < 3 && s.noindexPages <= 0
    && 100 * s.validPages >= 85 * (s.validPages + s.excludedPages)
    && s.lcpMs <= 2500 && s.inpMs <= 200 && s.cls <= 0.1
  }

  /** A site raises no anomaly if and only if nothing is amiss (numbers of pages are not negative). */
  lemma SilentIffHealthy(s: Signals, tls: Option<Tls>, findings: seq<Finding>)
    requires s.validPages >= 0 && s.excludedPages >= 0
    ensures Detected(s, tls, findings) == [] <==> Healthy(s, tls, findings)
  {
    assert GtmAnomalies(findings) == [] <==> forall f <- findings :: f.severity !in {High, Medium} by {
      if GtmAnomalies(findings) != [] {
        var h := GtmAnomalies(findings)[0];
        TrackingIsExact(findings, h);
      }
      forall f <- findings | f.severity in {High, Medium} ensures GtmAnomalies(findings) != [] {
        TrackingIsExact(findings, Hit(f.code, "gtm", Tracking, f.severity));
      }
    }
    assert EventAnomalies(s.missingEvents) == [] <==> s.missingEvents == [];
    assert SpeedAnomalies(s) == [] <==> s.lcpMs <= 2500 && s.inpMs <= 200 && s.cls <= 0.1;
  }

  // ---------------------------------------------------------------- what is found, exactly

  lemma ReportedHolds(found: seq<Finding>, condition: bool, code: Rule, severity: Severity, f: Finding)
    ensures f in Reported(found, condition, code, severity) <==> f in found || (condition && f == Finding(code, severity))
  {
  }

  lemma ModerateHolds(found: seq<Finding>, p: Page, f: Finding)
    ensures f in Moderate(found, p) <==>
            || f in found
            || (p.consentGated && f == Finding(ConsentGated, Medium))
            || (p.dataLayer != "dataLayer" && f == Finding(CustomDataLayer, Medium))
            || (p.containers >= 2 && f == Finding(MultipleContainers, Medium))
            || (p.form == NoscriptOnly && f == Finding(NoscriptOnlyTag, Medium))
  {
    var f1 := Reported(found, p.consentGated, ConsentGated, Medium);
    var f2 := Reported(f1, p.dataLayer != "dataLayer", CustomDataLayer, Medium);
    var f3 := Reported(f2, p.containers >= 2, MultipleContainers, Medium);
    ReportedHolds(found, p.consentGated, ConsentGated, Medium, f);
    ReportedHolds(f1, p.dataLayer != "dataLayer", CustomDataLayer, Medium, f);
    ReportedHolds(f2, p.containers >= 2, MultipleContainers, Medium, f);
    ReportedHolds(f3, p.form == NoscriptOnly, NoscriptOnlyTag, Medium, f);
  }

  lemma SlightHolds(found: seq<Finding>, p: Page, f: Finding)
    ensures f in Slight(found, p) <==>
            || f in found
            || ((p.form == Standard || p.form == CustomLoader) && p.inHead == Some(false) && f == Finding(SnippetNotInHead, Low))
            || (p.serverSide && f == Finding(ServerSide, Low))
            || (p.ga4Tags > 0 && f == Finding(HardcodedGa4, Low))
            || (p.queryStripped && f == Finding(QueryStripped, Low))
  {
    var late := (p.form == Standard || p.form == CustomLoader) && p.inHead == Some(false);
    var f1 := Reported(found, late, SnippetNotInHead, Low);
    var f2 := Reported(f1, p.serverSide, ServerSide, Low);
    var f3 := Reported(f2, p.ga4Tags > 0, HardcodedGa4, Low);
    ReportedHolds(found, late, SnippetNotInHead, Low, f);
    ReportedHolds(f1, p.serverSide, ServerSide, Low, f);
    ReportedHolds(f2, p.ga4Tags > 0, HardcodedGa4, Low, f);
    ReportedHolds(f3, p.queryStripped, QueryStripped, Low, f);
  }

  /** Main result: each finding is reported, with its severity, exactly on its own condition. */
  lemma FindingsExact(p: Page, f: Finding)
    ensures f in Looked(p) <==>
            match f.code
            case PreviewCspBlock => f.severity == High && p.cspBlocksPreview == Some(true)
            case ConsentGated => f.severity == Medium && p.consentGated
            case CustomDataLayer => f.severity == Medium && p.dataLayer != "dataLayer"
            case MultipleContainers => f.severity == Medium && p.containers >= 2
            case NoscriptOnlyTag => f.severity == Medium && p.form == NoscriptOnly
            case SnippetNotInHead => f.severity == Low && p.form in {Standard, CustomLoader} && p.inHead == Some(false)
            case ServerSide => f.severity == Low && p.serverSide
            case HardcodedGa4 => f.severity == Low && p.ga4Tags > 0
            case QueryStripped => f.severity == Low && p.queryStripped
            case _ => false
  {
    var urgent := Reported([], p.cspBlocksPreview == Some(true), PreviewCspBlock, High);
    ReportedHolds([], p.cspBlocksPreview == Some(true), PreviewCspBlock, High, f);
    ModerateHolds(urgent, p, f);
    SlightHolds(Moderate(urgent, p), p, f);
  }

  lemma OneHolds(condition: bool, a: Hit, h: Hit)
    ensures h in If(condition, a) <==> condition && h == a
  {
  }

  lemma SpeedHolds(s: Signals, h: Hit)
    ensures h in SpeedAnomalies(s) <==>
            || (s.lcpMs > 2500 && h == Hit(SlowLcp, "lcp", Cwv, if s.lcpMs > 4000 then Critical else High))
            || (s.inpMs > 200 && h == Hit(SlowInp, "inp", Cwv, Medium))
            || (s.cls > 0.1 && h == Hit(LargeCls, "cls", Cwv, Medium))
  {
    OneHolds(s.lcpMs > 2500, Hit(SlowLcp, "lcp", Cwv, if s.lcpMs > 4000 then Critical else High), h);
    OneHolds(s.inpMs > 200, Hit(SlowInp, "inp", Cwv, Medium), h);
    OneHolds(s.cls > 0.1, Hit(LargeCls, "cls", Cwv, Medium), h);
  }

  lemma SearchHolds(s: Signals, h: Hit)
    ensures h in SearchAnomalies(s) <==>
            || (s.staleDays >= 3 && h == Hit(SearchStale, "connection", Seo, High))
            || (s.staleDays < 3 && s.noindexPages > 0 && h == Hit(Noindex, "noindex", Seo, if s.noindexOnProducts then High else Medium))
            || (s.staleDays < 3 && s.noindexPages <= 0 && s.validPages + s.excludedPages > 0
                && 100 * s.validPages < 85 * (s.validPages + s.excludedPages) && h == Hit(Coverage, "coverage", Seo, Medium))
  {
  }

  lemma CertificateHolds(tls: Option<Tls>, h: Hit)
    ensures h in TlsAnomalies(tls) <==>
            && tls.Some? && tls.value.status !in {Valid, Unreachable}
            && h == Hit(SslCertificate, "certificate", Seo,
                        match tls.value.status
                        case Expired => Critical
                        case ExpiringSoon =>
                          (match tls.value.daysLeft
                           case None => Medium
                           case Some(days) => if days <= 7 then Critical else if days <= 14 then High else Medium)
                        case _ => High)
  {
  }

  lemma EventHolds(events: seq<string>, h: Hit)
    ensures h in EventAnomalies(events) <==> h.subject in events && h == Hit(EventMissing, h.subject, Analytics, High)
  {
    if h.subject in events && h == Hit(EventMissing, h.subject, Analytics, High) {
      var i :| 0 <= i < |events| && events[i] == h.subject;
      assert EventAnomalies(events)[i] == h;
    }
  }

  /** Main result: each anomaly is raised, with its subject, category and severity, exactly on its own
      condition; of the search console's only the first that applies. */
  lemma AnomaliesExact(s: Signals, tls: Option<Tls>, findings: seq<Finding>, h: Hit)
    ensures h in Detected(s, tls, findings) <==>
            || h in TlsAnomalies(tls)
            || (h.severity in {High, Medium} && h == Hit(h.rule, "gtm", Tracking, h.severity) && Finding(h.rule, h.severity) in findings)
            || (s.purchaseMissingParams != [] && h == Hit(PurchaseParams, "purchase", Analytics, Critical))
            || (h.subject in s.missingEvents && h == Hit(EventMissing, h.subject, Analytics, High))
            || (s.loginMissingUserId && h == Hit(UserIdMissing, "login", Analytics, High))
            || h in SearchAnomalies(s) || h in SpeedAnomalies(s)
  {
    TrackingIsExact(findings, h);
    EventHolds(s.missingEvents, h);
    var purchase, login := Hit(PurchaseParams, "purchase", Analytics, Critical), Hit(UserIdMissing, "login", Analytics, High);
    OneHolds(s.purchaseMissingParams != [], purchase, h);
    OneHolds(s.loginMissingUserId, login, h);
    InParts(TlsAnomalies(tls), GtmAnomalies(findings), If(s.purchaseMissingParams != [], purchase), h);
    InParts(If(s.loginMissingUserId, login), SearchAnomalies(s), SpeedAnomalies(s), h);
    InParts(BeforeEvents(s, tls, findings), EventAnomalies(s.missingEvents), AfterEvents(s), h);
  }

  lemma InParts(a: seq<Hit>, b: seq<Hit>, c: seq<Hit>, h: Hit)
    ensures h in a + b + c <==> h in a || h in b || h in c
  {
  }

  // ---------------------------------------------------------------- one issue per anomaly

  function FindingsOf(gtm: Option<seq<Finding>>): seq<Finding> {
    if gtm.Some? then gtm.value else []
  }

  ghost predicate NamedOnce(hits: seq<Hit>) {
    forall i, j | 0 <= i < j < |hits| :: hits[i].rule != hits[j].rule || hits[i].subject != hits[j].subject
  }

  /** Main result on detection: for any signals, certificate and page, no two anomalies have the
      same rule and subject, exactly when the probe lists no missing event twice. */
  lemma AnomaliesNamedOnce(s: Signals, tls: Option<Tls>, page: Option<Page>)
    ensures var findings := if page.Some? then Looked(page.value) else [];
            NamedOnce(Detected(s, tls, findings)) <==> Distinct(s.missingEvents)
  {
    var findings := if page.Some? then Looked(page.value) else [];
    if page.Some? {
      LookedIsTidy(page.value);
    }
    BeforeClimbs(s, tls, findings);
    AfterClimbs(s);
    SandwichNamedOnce(BeforeEvents(s, tls, findings), s.missingEvents, AfterEvents(s));
  }

  lemma SandwichNamedOnce(before: seq<Hit>, events: seq<string>, after: seq<Hit>)
    requires Climbs(before, 1, 8) && Climbs(after, 9, 16)
    ensures NamedOnce(before + EventAnomalies(events) + after) <==> Distinct(events)
  {
    var all := before + EventAnomalies(events) + after;
    forall i | 0 <= i < |events| ensures all[|before| + i] == Hit(EventMissing, events[i], Analytics, High) {
    }
    if NamedOnce(all) {
      forall i, j | 0 <= i < j < |events| ensures events[i] != events[j] {
        assert all[|before| + i].rule == all[|before| + j].rule;
      }
    }
  }

  /** The wording of an anomaly is a function of what was found. */
  function Worded(hits: seq<Hit>, title: Hit -> string, detail: Hit -> string): seq<Anomaly> {
    seq(|hits|, i requires 0 <= i < |hits| =>
      Anomaly(Name(hits[i].rule), hits[i].subject, hits[i].category, hits[i].severity, title(hits[i]), detail(hits[i])))
  }

  function RuleNamed(name: string): Option<Rule> {
    if |name| == 7 then
      if name[4] == 'l' then Some(SlowLcp) else if name[4] == 'i' then Some(SlowInp) else Some(LargeCls)
    else if |name| == 9 then Some(SearchStale)
    else if |name| == 11 then if name[1] == 'a' then Some(UserIdMissing) else Some(Noindex)
    else if |name| == 12 then Some(Coverage)
    else if |name| == 15 then if name[0] == 's' then Some(SslCertificate) else Some(ServerSide)
    else if |name| == 17 then
      if name[4] == 'c' then Some(ConsentGated) else if name[4] == 'n' then Some(NoscriptOnlyTag) else Some(EventMissing)
    else if |name| == 18 then Some(QueryStripped)
    else if |name| == 19 then Some(PurchaseParams)
    else if |name| == 20 then Some(CustomDataLayer)
    else if |name| == 21 then Some(PreviewCspBlock)
    else if |name| == 23 then if name[4] == 'm' then Some(MultipleContainers) else Some(SnippetNotInHead)
    else if |name| == 27 then Some(HardcodedGa4)
    else None
  }

  lemma NamesDiffer(rule: Rule)
    ensures RuleNamed(Name(rule)) == Some(rule)
  {
  }

  predicate Tracks(rule: Rule) {
    rule in {PreviewCspBlock, ConsentGated, CustomDataLayer, MultipleContainers, NoscriptOnlyTag}
  }

  lemma NoBarWhileTracking(rule: Rule)
    requires Tracks(rule)
    ensures '|' !in Name(rule)
  {
  }

  lemma NoBarInSlight(rule: Rule)
    requires rule in {SnippetNotInHead, ServerSide, HardcodedGa4, QueryStripped}
    ensures '|' !in Name(rule)
  {
  }

  lemma NoBar(rule: Rule)
    ensures '|' !in Name(rule)
  {
    if Tracks(rule) {
      NoBarWhileTracking(rule);
    } else if rule in {SnippetNotInHead, ServerSide, HardcodedGa4, QueryStripped} {
      NoBarInSlight(rule);
    }
  }

  lemma WordedFingerprints(site: Uuid, a: Hit, x: Anomaly, b: Hit, y: Anomaly)
    requires x.rule == Name(a.rule) && x.subject == a.subject && y.rule == Name(b.rule) && y.subject == b.subject
    ensures FingerprintOf(site, x) == FingerprintOf(site, y) <==> a.rule == b.rule && a.subject == b.subject
  {
    NamesDiffer(a.rule);
    NamesDiffer(b.rule);
    NoBar(a.rule);
    NoBar(b.rule);
    FingerprintInjective(site, x, site, y);
  }

  lemma FingerprintsNamedOnce(hits: seq<Hit>, scan: Scan, title: Hit -> string, detail: Hit -> string)
    requires scan.anomalies == Worded(hits, title, detail)
    ensures Distinct(Fingerprints(scan)) <==> NamedOnce(hits)
  {
    var fps := Fingerprints(scan);
    forall i, j | 0 <= i < j < |hits|
      ensures fps[i] != fps[j] <==> hits[i].rule != hits[j].rule || hits[i].subject != hits[j].subject
    {
      WordedFingerprints(scan.site, hits[i], scan.anomalies[i], hits[j], scan.anomalies[j]);
    }
  }

  /** A scan made from what was detected names no issue twice in its result lists, exactly when
      the probe lists no missing event twice. */
  lemma AuditNamesIssuesOnce(rows: seq<Issue>, scan: Scan, s: Signals, tls: Option<Tls>, page: Option<Page>,
                             title: Hit -> string, detail: Hit -> string)
    requires OnePerFingerprint(rows)
    requires scan.anomalies == Worded(Detected(s, tls, if page.Some? then Looked(page.value) else []), title, detail)
    ensures Distinct(CreatedBy(rows, scan) + UpdatedBy(rows, scan)) <==> Distinct(s.missingEvents)
  {
    AnomaliesNamedOnce(s, tls, page);
    FingerprintsNamedOnce(Detected(s, tls, if page.Some? then Looked(page.value) else []), scan, title, detail);
    ListsNameRowsOnce(rows, scan);
  }
}
