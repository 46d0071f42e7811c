/** Issue reconciliation of backend/app/services/audit_engine.py: one scan of a site updates the
    table of issues from the anomalies it detected. Rows are never deleted here, so a row keeps
    its index for ever. */
module AuditEngine {
  import opened Common
  import opened Uuids

  datatype Status = Todo | InProgress | Fixed | Dismissed
  datatype Severity = Low | Medium | High | Critical
  datatype Category = Seo | Analytics | Cwv | Tracking | Other

  datatype Anomaly = Anomaly(rule: string, subject: string, category: Category, severity: Severity,
                             title: string, description: string)

  /** SHA-256 is taken to be collision-free: a digest stands for the text it was made from. */
  datatype Fingerprint = Sha256(text: string)

  datatype Issue = Issue(site: Uuid, fingerprint: Fingerprint, title: string, description: string,
                         category: Category, severity: Severity, status: Status, detectedAt: int,
                         resolvedAt: Option<int>, snapshot: Option<int>)

  function FingerprintOf(site: Uuid, a: Anomaly): Fingerprint {
    Sha256(Uuids.Print(site) + "|" + a.rule + "|" + a.subject)
  }

  lemma {:induction false} FirstBar(a: string, b: string, s: string, t: string)
    requires '|' !in a && '|' !in b && a + "|" + s == b + "|" + t
    ensures a == b && s == t
  {
    var left, right := a + "|" + s, b + "|" + t;
    assert left[0] == if a == "" then '|' else a[0];
    assert right[0] == if b == "" then '|' else b[0];
    if a == "" {
      assert left[1..] == s && right[1..] == t;
    } else {
      assert left[1..] == a[1..] + "|" + s && right[1..] == b[1..] + "|" + t;
      FirstBar(a[1..], b[1..], s, t);
      assert a == [a[0]] + a[1..] && b == [b[0]] + b[1..];
    }
  }

  /** Fingerprints separate sites, rules and subjects, whatever the subject contains, as long as
      rule names hold no bar (none does). */
  lemma FingerprintInjective(s1: Uuid, a1: Anomaly, s2: Uuid, a2: Anomaly)
    requires '|' !in a1.rule && '|' !in a2.rule
    ensures FingerprintOf(s1, a1) == FingerprintOf(s2, a2)
       <==> s1 == s2 && a1.rule == a2.rule && a1.subject == a2.subject
  {
    if FingerprintOf(s1, a1) == FingerprintOf(s2, a2) {
      PrintWritten(s1);
      PrintWritten(s2);
      var t1, t2 := a1.rule + "|" + a1.subject, a2.rule + "|" + a2.subject;
      assert Uuids.Print(s1) + "|" + t1 == FingerprintOf(s1, a1).text;
      assert Uuids.Print(s2) + "|" + t2 == FingerprintOf(s2, a2).text;
      FirstBar(Uuids.Print(s1), Uuids.Print(s2), t1, t2);
      FirstBar(a1.rule, a2.rule, a1.subject, a2.subject);
      PrintInjective(s1, s2);
    }
  }

  // ---------------------------------------------------------------- one scan

  predicate Open(i: Issue) {
    i.status == Todo || i.status == InProgress
  }

  predicate Matches(i: Issue, site: Uuid, fp: Fingerprint) {
    i.site == site && i.fingerprint == fp
  }

  function FindIssue(rows: seq<Issue>, site: Uuid, fp: Fingerprint): (k: nat)
    ensures k <= |rows|
    ensures k < |rows| ==> Matches(rows[k], site, fp)
    ensures forall j | 0 <= j < k :: !Matches(rows[j], site, fp)
  {
    if rows == [] || Matches(rows[0], site, fp) then 0 else 1 + FindIssue(rows[1..], site, fp)
  }

  datatype Scan = Scan(site: Uuid, snapshot: int, now: int, anomalies: seq<Anomaly>)

  function NewIssue(scan: Scan, a: Anomaly): Issue {
    Issue(scan.site, FingerprintOf(scan.site, a), a.title, a.description, a.category, a.severity,
          Todo, scan.now, None, Some(scan.snapshot))
  }

  /** A known issue seen again: reopened if it was fixed, otherwise left in its status. */
  function Seen(i: Issue, scan: Scan, a: Anomaly): Issue {
    var i' := i.(title := a.title, description := a.description, category := a.category,
                 severity := a.severity, detectedAt := scan.now, snapshot := Some(scan.snapshot));
    if i.status == Fixed then i'.(status := Todo, resolvedAt := None) else i'
  }

  function Upserted(rows: seq<Issue>, scan: Scan, a: Anomaly): seq<Issue> {
    var k := FindIssue(rows, scan.site, FingerprintOf(scan.site, a));
    if k == |rows| then rows + [NewIssue(scan, a)] else rows[k := Seen(rows[k], scan, a)]
  }

  function UpsertedAll(rows: seq<Issue>, scan: Scan): seq<Issue>
    decreases |scan.anomalies|
  {
    if scan.anomalies == [] then rows
    else Upserted(UpsertedAll(rows, scan.(anomalies := Init(scan.anomalies))), scan, Last(scan.anomalies))
  }

  function SeenSet(scan: Scan): set<Fingerprint> {
    set a | a in scan.anomalies :: FingerprintOf(scan.site, a)
  }

  /** An open issue that an earlier scan raised and this one did not see. */
  predicate Stale(i: Issue, scan: Scan) {
    i.site == scan.site && i.snapshot.Some? && Open(i) && i.fingerprint !in SeenSet(scan)
  }

  function Resolved(i: Issue, scan: Scan): Issue {
    if Stale(i, scan) then i.(status := Fixed, resolvedAt := Some(scan.now)) else i
  }

  function Swept(rows: seq<Issue>, scan: Scan): seq<Issue> {
    seq(|rows|, k requires 0 <= k < |rows| => Resolved(rows[k], scan))
  }

  function Scanned(rows: seq<Issue>, scan: Scan): seq<Issue> {
    Swept(UpsertedAll(rows, scan), scan)
  }

  // ---------------------------------------------------------------- what a scan does, row by row

  ghost predicate OnePerFingerprint(rows: seq<Issue>) {
    forall i, j | 0 <= i < j < |rows| :: !Matches(rows[j], rows[i].site, rows[i].fingerprint)
  }

  /** The anomaly a fingerprint finally shows: the last one that has it. */
  function LatestWith(scan: Scan, fp: Fingerprint): Anomaly
    requires fp in SeenSet(scan)
    decreases |scan.anomalies|
  {
    if FingerprintOf(scan.site, Last(scan.anomalies)) == fp then Last(scan.anomalies)
    else
      assert scan.anomalies == Init(scan.anomalies) + [Last(scan.anomalies)];
      LatestWith(scan.(anomalies := Init(scan.anomalies)), fp)
  }

  lemma LatestHasFingerprint(scan: Scan, fp: Fingerprint)
    requires fp in SeenSet(scan)
    ensures FingerprintOf(scan.site, LatestWith(scan, fp)) == fp
    decreases |scan.anomalies|
  {
    if FingerprintOf(scan.site, Last(scan.anomalies)) != fp {
      assert scan.anomalies == Init(scan.anomalies) + [Last(scan.anomalies)];
      LatestHasFingerprint(scan.(anomalies := Init(scan.anomalies)), fp);
    }
  }

  function AfterUpserts(i: Issue, scan: Scan): Issue {
    if i.site == scan.site && i.fingerprint in SeenSet(scan) then Seen(i, scan, LatestWith(scan, i.fingerprint)) else i
  }

  lemma SeenSetGrows(scan: Scan)
    requires scan.anomalies != []
    ensures var a := Last(scan.anomalies);
            SeenSet(scan) == SeenSet(scan.(anomalies := Init(scan.anomalies))) + {FingerprintOf(scan.site, a)}
  {
    assert scan.anomalies == Init(scan.anomalies) + [Last(scan.anomalies)];
  }

  lemma FoundAt(rows: seq<Issue>, site: Uuid, fp: Fingerprint, k: nat)
    requires OnePerFingerprint(rows) && k < |rows| && Matches(rows[k], site, fp)
    ensures FindIssue(rows, site, fp) == k
  {
  }

  lemma OnlyMatch(rows: seq<Issue>, site: Uuid, fp: Fingerprint)
    requires OnePerFingerprint(rows)
    ensures forall k | 0 <= k < |rows| && Matches(rows[k], site, fp) :: k == FindIssue(rows, site, fp)
  {
  }

  ghost predicate OldRowsDone(rows: seq<Issue>, rows': seq<Issue>, scan: Scan) {
    |rows| <= |rows'| && forall k | 0 <= k < |rows| :: rows'[k] == AfterUpserts(rows[k], scan)
  }

  ghost predicate NewRowsDone(rows: seq<Issue>, rows': seq<Issue>, scan: Scan) {
    forall k | |rows| <= k < |rows'| ::
      rows'[k].fingerprint in SeenSet(scan) && rows'[k] == NewIssue(scan, LatestWith(scan, rows'[k].fingerprint))
  }

  ghost predicate AllFound(rows: seq<Issue>, scan: Scan) {
    forall fp <- SeenSet(scan) :: FindIssue(rows, scan.site, fp) < |rows|
  }

  function Before(scan: Scan): Scan
    requires scan.anomalies != []
  {
    scan.(anomalies := Init(scan.anomalies))
  }

  function NextFingerprint(scan: Scan): Fingerprint
    requires scan.anomalies != []
  {
    FingerprintOf(scan.site, Last(scan.anomalies))
  }

  lemma LatestChangesOnlyNext(scan: Scan, g: Fingerprint)
    requires scan.anomalies != [] && g in SeenSet(scan)
    ensures g == NextFingerprint(scan) ==> LatestWith(scan, g) == Last(scan.anomalies)
    ensures g != NextFingerprint(scan) ==> g in SeenSet(Before(scan)) && LatestWith(scan, g) == LatestWith(Before(scan), g)
  {
    SeenSetGrows(scan);
  }

  lemma NextOldRows(rows: seq<Issue>, mid: seq<Issue>, scan: Scan)
    requires scan.anomalies != [] && OnePerFingerprint(mid) && OldRowsDone(rows, mid, Before(scan))
    ensures OldRowsDone(rows, Upserted(mid, scan, Last(scan.anomalies)), scan)
  {
    var fp := NextFingerprint(scan);
    var at := FindIssue(mid, scan.site, fp);
    var rows' := Upserted(mid, scan, Last(scan.anomalies));
    SeenSetGrows(scan);
    OnlyMatch(mid, scan.site, fp);
    forall k | 0 <= k < |rows| ensures rows'[k] == AfterUpserts(rows[k], scan) {
      assert mid[k] == AfterUpserts(rows[k], Before(scan));
      assert k != at ==> !Matches(rows[k], scan.site, fp);
      if rows[k].site == scan.site && rows[k].fingerprint in SeenSet(scan) {
        LatestChangesOnlyNext(scan, rows[k].fingerprint);
      }
    }
  }

  lemma NextNewRows(rows: seq<Issue>, mid: seq<Issue>, scan: Scan)
    requires scan.anomalies != [] && OnePerFingerprint(mid) && |rows| <= |mid| && NewRowsDone(rows, mid, Before(scan))
    ensures NewRowsDone(rows, Upserted(mid, scan, Last(scan.anomalies)), scan)
  {
    var fp := NextFingerprint(scan);
    var at := FindIssue(mid, scan.site, fp);
    var rows' := Upserted(mid, scan, Last(scan.anomalies));
    SeenSetGrows(scan);
    OnlyMatch(mid, scan.site, fp);
    forall k | |rows| <= k < |rows'|
      ensures rows'[k].fingerprint in SeenSet(scan) && rows'[k] == NewIssue(scan, LatestWith(scan, rows'[k].fingerprint))
    {
      LatestChangesOnlyNext(scan, fp);
      if k != at {
        LatestHasFingerprint(Before(scan), mid[k].fingerprint);
        LatestChangesOnlyNext(scan, mid[k].fingerprint);
      }
    }
  }

  lemma NextTable(mid: seq<Issue>, scan: Scan)
    requires scan.anomalies != [] && OnePerFingerprint(mid) && AllFound(mid, Before(scan))
    ensures OnePerFingerprint(Upserted(mid, scan, Last(scan.anomalies)))
    ensures AllFound(Upserted(mid, scan, Last(scan.anomalies)), scan)
  {
    var fp := NextFingerprint(scan);
    var at := FindIssue(mid, scan.site, fp);
    var rows' := Upserted(mid, scan, Last(scan.anomalies));
    SeenSetGrows(scan);
    assert forall k | 0 <= k < |mid| :: rows'[k].site == mid[k].site && rows'[k].fingerprint == mid[k].fingerprint;
    assert Matches(rows'[at], scan.site, fp);
    forall g <- SeenSet(scan) ensures FindIssue(rows', scan.site, g) < |rows'| {
      FoundAt(rows', scan.site, g, if g == fp then at else FindIssue(mid, scan.site, g));
    }
  }

  lemma {:induction false} UpsertsAreDone(rows: seq<Issue>, scan: Scan)
    requires OnePerFingerprint(rows)
    ensures var mid := UpsertedAll(rows, scan);
            OnePerFingerprint(mid) && OldRowsDone(rows, mid, scan) && NewRowsDone(rows, mid, scan) && AllFound(mid, scan)
    decreases |scan.anomalies|
  {
    if scan.anomalies != [] {
      var mid := UpsertedAll(rows, Before(scan));
      UpsertsAreDone(rows, Before(scan));
      NextOldRows(rows, mid, scan);
      NextNewRows(rows, mid, scan);
      NextTable(mid, scan);
    }
  }

  /** What a scan makes of a row that was already there. */
  function AfterScan(i: Issue, scan: Scan): Issue {
    if i.site != scan.site then i
    else if i.fingerprint in SeenSet(scan) then Seen(i, scan, LatestWith(scan, i.fingerprint))
    else if i.snapshot.Some? && Open(i) then i.(status := Fixed, resolvedAt := Some(scan.now))
    else i
  }

  ghost predicate RowsScanned(rows: seq<Issue>, rows': seq<Issue>, scan: Scan) {
    |rows| <= |rows'| && forall k | 0 <= k < |rows| :: rows'[k] == AfterScan(rows[k], scan)
  }

  /** Main result: the whole effect of a scan. A known issue of the site that is seen again is
      refreshed and, if it was fixed, reopened; one that an earlier scan raised, is still open
      and is not seen is fixed now; every other row is untouched; and each fingerprint seen for
      the first time gets one new row. */
  lemma ScanEffect(rows: seq<Issue>, scan: Scan)
    requires OnePerFingerprint(rows)
    ensures RowsScanned(rows, Scanned(rows, scan), scan)
    ensures NewRowsDone(rows, Scanned(rows, scan), scan)
    ensures OnePerFingerprint(Scanned(rows, scan)) && AllFound(Scanned(rows, scan), scan)
  {
    UpsertsAreDone(rows, scan);
    SweepEffect(UpsertedAll(rows, scan), scan);
    var mid := UpsertedAll(rows, scan);
    forall k | 0 <= k < |rows| ensures Scanned(rows, scan)[k] == AfterScan(rows[k], scan) {
      assert mid[k] == AfterUpserts(rows[k], scan);
    }
    forall k | |rows| <= k < |mid| ensures Scanned(rows, scan)[k] == mid[k] {
      assert mid[k].fingerprint in SeenSet(scan);
    }
  }

  lemma SweepEffect(mid: seq<Issue>, scan: Scan)
    requires OnePerFingerprint(mid) && AllFound(mid, scan)
    ensures OnePerFingerprint(Swept(mid, scan)) && AllFound(Swept(mid, scan), scan)
  {
    var rows' := Swept(mid, scan);
    assert forall k | 0 <= k < |mid| :: rows'[k].site == mid[k].site && rows'[k].fingerprint == mid[k].fingerprint;
    forall fp <- SeenSet(scan) ensures FindIssue(rows', scan.site, fp) < |rows'| {
      FoundAt(rows', scan.site, fp, FindIssue(mid, scan.site, fp));
    }
  }

  // ---------------------------------------------------------------- field by field

  /** The n-th anomaly of a scan is the last with its fingerprint. */
  ghost predicate LastOfItsKind(scan: Scan, n: nat, fp: Fingerprint) {
    && n < |scan.anomalies| && FingerprintOf(scan.site, scan.anomalies[n]) == fp
    && forall m | n < m < |scan.anomalies| :: FingerprintOf(scan.site, scan.anomalies[m]) != fp
  }

  lemma {:induction false} LatestIsLast(scan: Scan, n: nat, fp: Fingerprint)
    requires LastOfItsKind(scan, n, fp)
    ensures fp in SeenSet(scan) && LatestWith(scan, fp) == scan.anomalies[n]
    decreases |scan.anomalies|
  {
    assert scan.anomalies[n] in scan.anomalies;
    if n < |scan.anomalies| - 1 {
      assert Init(scan.anomalies)[n] == scan.anomalies[n];
      LatestIsLast(Before(scan), n, fp);
    }
  }

  /** Main result, field by field: a known issue that a scan sees again takes the texts, category and
      severity of the last anomaly with its fingerprint, this date and this snapshot; it goes back
      to Todo, without resolution date, exactly if it was fixed, and keeps its status otherwise. */
  lemma SeenIssueFields(rows: seq<Issue>, scan: Scan, k: nat, n: nat)
    requires OnePerFingerprint(rows) && k < |rows| && rows[k].site == scan.site
    requires LastOfItsKind(scan, n, rows[k].fingerprint)
    ensures k < |Scanned(rows, scan)|
    ensures var i, i', a := rows[k], Scanned(rows, scan)[k], scan.anomalies[n];
            && i'.site == i.site && i'.fingerprint == i.fingerprint
            && i'.title == a.title && i'.description == a.description
            && i'.category == a.category && i'.severity == a.severity
            && i'.detectedAt == scan.now && i'.snapshot == Some(scan.snapshot)
            && i'.status == (if i.status == Fixed then Todo else i.status)
            && i'.resolvedAt == (if i.status == Fixed then None else i.resolvedAt)
  {
    ScanEffect(rows, scan);
    LatestIsLast(scan, n, rows[k].fingerprint);
    assert Scanned(rows, scan)[k] == AfterScan(rows[k], scan);
  }

  /** An issue that a scan does not see changes only if it is open, of this site and raised by an
      earlier scan; then it is fixed now and nothing else of it changes. */
  lemma UnseenIssueFields(rows: seq<Issue>, scan: Scan, k: nat)
    requires OnePerFingerprint(rows) && k < |rows|
    requires rows[k].site == scan.site ==>
               forall n | 0 <= n < |scan.anomalies| :: FingerprintOf(scan.site, scan.anomalies[n]) != rows[k].fingerprint
    ensures k < |Scanned(rows, scan)|
    ensures var i, i' := rows[k], Scanned(rows, scan)[k];
            if i.site == scan.site && i.snapshot != None && (i.status == Todo || i.status == InProgress)
            then i' == Issue(i.site, i.fingerprint, i.title, i.description, i.category, i.severity,
                             Fixed, i.detectedAt, Some(scan.now), i.snapshot)
            else i' == i
  {
    ScanEffect(rows, scan);
    assert Scanned(rows, scan)[k] == AfterScan(rows[k], scan);
  }

  /** A fingerprint seen for the first time gets one row, open from now on, with the texts of the last
      anomaly that has it. */
  lemma CreatedIssueFields(rows: seq<Issue>, scan: Scan, n: nat, fp: Fingerprint) returns (k: nat)
    requires OnePerFingerprint(rows) && LastOfItsKind(scan, n, fp)
    requires forall j | 0 <= j < |rows| :: !(rows[j].site == scan.site && rows[j].fingerprint == fp)
    ensures |rows| <= k < |Scanned(rows, scan)|
    ensures var a := scan.anomalies[n];
            Scanned(rows, scan)[k] == Issue(scan.site, fp, a.title, a.description, a.category, a.severity,
                                            Todo, scan.now, None, Some(scan.snapshot))
    ensures forall j | 0 <= j < |Scanned(rows, scan)| && j != k ::
              !(Scanned(rows, scan)[j].site == scan.site && Scanned(rows, scan)[j].fingerprint == fp)
  {
    ScanEffect(rows, scan);
    LatestIsLast(scan, n, fp);
    k := FindIssue(Scanned(rows, scan), scan.site, fp);
    OnlyMatch(Scanned(rows, scan), scan.site, fp);
    assert k < |rows| ==> Scanned(rows, scan)[k] == AfterScan(rows[k], scan);
  }

  // ---------------------------------------------------------------- right after a scan

  predicate OwnedOpen(i: Issue, site: Uuid) {
    i.site == site && i.snapshot.Some? && Open(i)
  }

  predicate DismissedOn(i: Issue, site: Uuid) {
    i.site == site && i.status == Dismissed
  }

  /** The open issues of a site that belong to scans. */
  function ScanOwnedOpen(rows: seq<Issue>, site: Uuid): set<Fingerprint> {
    set i | i in rows && OwnedOpen(i, site) :: i.fingerprint
  }

  function DismissedOf(rows: seq<Issue>, site: Uuid): set<Fingerprint> {
    set i | i in rows && DismissedOn(i, site) :: i.fingerprint
  }

  /** Which issue of the new table shows a detected fingerprint, and in which status. */
  lemma DetectedRow(rows: seq<Issue>, scan: Scan, fp: Fingerprint)
    requires OnePerFingerprint(rows) && fp in SeenSet(scan)
    ensures var rows' := Scanned(rows, scan);
            var k := FindIssue(rows', scan.site, fp);
            && k < |rows'| && rows'[k].snapshot.Some?
            && (OwnedOpen(rows'[k], scan.site) <==> !(k < |rows| && rows[k].status == Dismissed))
            && (k < |rows| ==> Matches(rows[k], scan.site, fp))
  {
    ScanEffect(rows, scan);
    var rows' := Scanned(rows, scan);
    var k := FindIssue(rows', scan.site, fp);
    if k < |rows| {
      assert rows'[k] == AfterScan(rows[k], scan);
    } else {
      assert rows'[k] == NewIssue(scan, LatestWith(scan, fp));
    }
  }

  /** After a scan, a detected issue is not fixed and an undetected one of scans is not open. */
  lemma SettledRow(rows: seq<Issue>, scan: Scan, k: nat)
    requires OnePerFingerprint(rows) && k < |Scanned(rows, scan)|
    ensures var i := Scanned(rows, scan)[k];
            i.site == scan.site ==>
              if i.fingerprint in SeenSet(scan) then i.status != Fixed else !(i.snapshot.Some? && Open(i))
  {
    ScanEffect(rows, scan);
    if k < |rows| {
      assert Scanned(rows, scan)[k] == AfterScan(rows[k], scan);
    } else {
      var fp := Scanned(rows, scan)[k].fingerprint;
      assert Scanned(rows, scan)[k] == NewIssue(scan, LatestWith(scan, fp));
    }
  }

  /** A dismissed row is where its fingerprint is found, before and after the scan. */
  lemma DismissedRow(rows: seq<Issue>, scan: Scan, j: nat)
    requires OnePerFingerprint(rows) && j < |rows| && DismissedOn(rows[j], scan.site)
    ensures j < |Scanned(rows, scan)| && Scanned(rows, scan)[j].status == Dismissed
    ensures FindIssue(Scanned(rows, scan), scan.site, rows[j].fingerprint) == j
  {
    ScanEffect(rows, scan);
    assert Scanned(rows, scan)[j] == AfterScan(rows[j], scan);
    FoundAt(Scanned(rows, scan), scan.site, rows[j].fingerprint, j);
  }

  lemma OwnedOpenIsDetected(rows: seq<Issue>, scan: Scan, k: nat)
    requires OnePerFingerprint(rows) && k < |Scanned(rows, scan)| && OwnedOpen(Scanned(rows, scan)[k], scan.site)
    ensures Scanned(rows, scan)[k].fingerprint in SeenSet(scan) - DismissedOf(rows, scan.site)
  {
    var rows' := Scanned(rows, scan);
    SettledRow(rows, scan, k);
    ScanEffect(rows, scan);
    FoundAt(rows', scan.site, rows'[k].fingerprint, k);
    forall j | 0 <= j < |rows| && DismissedOn(rows[j], scan.site) ensures rows[j].fingerprint != rows'[k].fingerprint {
      DismissedRow(rows, scan, j);
    }
  }

  /** Main result: right after a scan, the open issues that belong to scans are exactly the
      detected fingerprints, minus those the user has dismissed. */
  lemma OpenAfterScan(rows: seq<Issue>, scan: Scan)
    requires OnePerFingerprint(rows)
    ensures ScanOwnedOpen(Scanned(rows, scan), scan.site) == SeenSet(scan) - DismissedOf(rows, scan.site)
  {
    var rows' := Scanned(rows, scan);
    forall k | 0 <= k < |rows'| && OwnedOpen(rows'[k], scan.site)
      ensures rows'[k].fingerprint in SeenSet(scan) - DismissedOf(rows, scan.site)
    {
      OwnedOpenIsDetected(rows, scan, k);
    }
    forall fp <- SeenSet(scan) - DismissedOf(rows, scan.site) ensures fp in ScanOwnedOpen(rows', scan.site) {
      DetectedRow(rows, scan, fp);
      var k := FindIssue(rows', scan.site, fp);
      assert k < |rows| ==> rows[k] in rows;
      assert rows'[k] in rows';
    }
  }

  // ---------------------------------------------------------------- whole runs

  /** What happens to the table: scans, status changes by users (PATCH on one row), and the
      deletion of a snapshot, which turns its issues into manual ones. */
  datatype Event =
    | Scanning(scan: Scan)
    | Patch(row: nat, status: Status, now: int)
    | SnapshotDeleted(snapshot: int)

  function Patched(i: Issue, status: Status, now: int): Issue {
    i.(status := status, resolvedAt := if status == Fixed || status == Dismissed then Some(now) else None)
  }

  function Step(rows: seq<Issue>, e: Event): seq<Issue> {
    match e
    case Scanning(scan) => Scanned(rows, scan)
    case Patch(k, status, now) => if k < |rows| then rows[k := Patched(rows[k], status, now)] else rows
    case SnapshotDeleted(s) =>
      seq(|rows|, k requires 0 <= k < |rows| => if rows[k].snapshot == Some(s) then rows[k].(snapshot := None) else rows[k])
  }

  /** A user's edit sets the status of one issue, and its resolution date with it. */
  lemma PatchFields(rows: seq<Issue>, k: nat, status: Status, now: int)
    requires k < |rows|
    ensures var rows', i := Step(rows, Patch(k, status, now)), rows[k];
            && |rows'| == |rows| && (forall j | 0 <= j < |rows| && j != k :: rows'[j] == rows[j])
            && rows'[k] == Issue(i.site, i.fingerprint, i.title, i.description, i.category, i.severity, status,
                                 i.detectedAt, if status in {Fixed, Dismissed} then Some(now) else None, i.snapshot)
  {
  }

  function Run(rows: seq<Issue>, events: seq<Event>): seq<Issue>
    decreases |events|
  {
    if events == [] then rows else Run(Step(rows, events[0]), events[1..])
  }

  /** An issue carries a resolution date exactly while it is fixed or dismissed. */
  ghost predicate DatesMatch(rows: seq<Issue>) {
    forall k | 0 <= k < |rows| :: rows[k].resolvedAt.Some? <==> rows[k].status == Fixed || rows[k].status == Dismissed
  }

  lemma ScanKeepsDates(rows: seq<Issue>, scan: Scan)
    requires OnePerFingerprint(rows) && DatesMatch(rows)
    ensures DatesMatch(Scanned(rows, scan))
  {
    var rows' := Scanned(rows, scan);
    ScanEffect(rows, scan);
    forall k | 0 <= k < |rows'|
      ensures rows'[k].resolvedAt.Some? <==> rows'[k].status == Fixed || rows'[k].status == Dismissed
    {
      if k < |rows| {
        assert rows'[k] == AfterScan(rows[k], scan);
      } else {
        assert rows'[k] == NewIssue(scan, LatestWith(scan, rows'[k].fingerprint));
      }
    }
  }

  ghost predicate SameIdentities(rows: seq<Issue>, rows': seq<Issue>) {
    |rows| <= |rows'| && forall k | 0 <= k < |rows| :: Matches(rows'[k], rows[k].site, rows[k].fingerprint)
  }

  lemma StepKeepsTable(rows: seq<Issue>, e: Event)
    requires OnePerFingerprint(rows)
    ensures OnePerFingerprint(Step(rows, e)) && SameIdentities(rows, Step(rows, e))
  {
    match e
    case Scanning(scan) =>
      ScanEffect(rows, scan);
      forall k | 0 <= k < |rows| ensures Matches(Scanned(rows, scan)[k], rows[k].site, rows[k].fingerprint) {
        assert Scanned(rows, scan)[k] == AfterScan(rows[k], scan);
      }
    case Patch(_, _, _) =>
    case SnapshotDeleted(_) =>
  }

  lemma StepKeepsDates(rows: seq<Issue>, e: Event)
    requires OnePerFingerprint(rows) && DatesMatch(rows)
    ensures DatesMatch(Step(rows, e))
  {
    match e
    case Scanning(scan) => ScanKeepsDates(rows, scan);
    case Patch(_, _, _) =>
    case SnapshotDeleted(_) =>
  }

  /** Main result: however scans of any sites, user edits and snapshot deletions follow each
      other, a site never has two issues with one fingerprint, and dates agree with statuses. */
  lemma {:induction false} TableStaysSound(rows: seq<Issue>, events: seq<Event>)
    requires OnePerFingerprint(rows)
    ensures OnePerFingerprint(Run(rows, events)) && SameIdentities(rows, Run(rows, events))
    ensures DatesMatch(rows) ==> DatesMatch(Run(rows, events))
    decreases |events|
  {
    if events != [] {
      StepKeepsTable(rows, events[0]);
      if DatesMatch(rows) {
        StepKeepsDates(rows, events[0]);
      }
      TableStaysSound(Step(rows, events[0]), events[1..]);
    }
  }

  lemma {:induction false} ScanKeepsDismissed(rows: seq<Issue>, scan: Scan, k: nat)
    requires OnePerFingerprint(rows) && k < |rows| && rows[k].status == Dismissed
    ensures k < |Scanned(rows, scan)| && Scanned(rows, scan)[k] == AfterScan(rows[k], scan)
    ensures AfterScan(rows[k], scan).status == Dismissed && AfterScan(rows[k], scan).resolvedAt == rows[k].resolvedAt
  {
    ScanEffect(rows, scan);
  }

  lemma {:induction false} StepKeepsDismissed(rows: seq<Issue>, e: Event, k: nat)
    requires OnePerFingerprint(rows) && k < |rows| && rows[k].status == Dismissed && (e.Patch? ==> e.row != k)
    ensures k < |Step(rows, e)| && Step(rows, e)[k].status == Dismissed && Step(rows, e)[k].resolvedAt == rows[k].resolvedAt
  {
    match e
    case Scanning(scan) => ScanKeepsDismissed(rows, scan, k);
    case Patch(_, _, _) =>
    case SnapshotDeleted(_) =>
  }

  /** A dismissed issue stays dismissed through any run in which no user edits it. */
  lemma {:induction false} DismissedStaysDismissed(rows: seq<Issue>, events: seq<Event>, k: nat)
    requires OnePerFingerprint(rows) && k < |rows| && rows[k].status == Dismissed
    requires forall e <- events :: e.Patch? ==> e.row != k
    ensures k < |Run(rows, events)| && Run(rows, events)[k].status == Dismissed
    ensures Run(rows, events)[k].resolvedAt == rows[k].resolvedAt
    decreases |events|
  {
    if events != [] {
      StepKeepsTable(rows, events[0]);
      StepKeepsDismissed(rows, events[0], k);
      DismissedStaysDismissed(Step(rows, events[0]), events[1..], k);
    }
  }

  /** An issue is out of reach of scans that are of other sites, or that do not see it while it
      is manual: through any number of them it does not change at all. */
  lemma {:induction false} OutOfReachUntouched(rows: seq<Issue>, scans: seq<Scan>, k: nat)
    requires OnePerFingerprint(rows) && k < |rows|
    requires forall s <- scans ::
               s.site != rows[k].site || (rows[k].snapshot.None? && rows[k].fingerprint !in SeenSet(s))
    ensures var rows' := Run(rows, seq(|scans|, j requires 0 <= j < |scans| => Scanning(scans[j])));
            k < |rows'| && rows'[k] == rows[k]
    decreases |scans|
  {
    var events := seq(|scans|, j requires 0 <= j < |scans| => Scanning(scans[j]));
    if scans != [] {
      ScanEffect(rows, scans[0]);
      assert Scanned(rows, scans[0])[k] == AfterScan(rows[k], scans[0]);
      var rest := scans[1..];
      assert events[1..] == seq(|rest|, j requires 0 <= j < |rest| => Scanning(rest[j]));
      assert scans[0] in scans;
      OutOfReachUntouched(Step(rows, events[0]), rest, k);
    }
  }

  /** Scanning again with the same findings creates nothing and changes no status. */
  lemma RescanIsStable(rows: seq<Issue>, scan: Scan, again: Scan)
    requires OnePerFingerprint(rows) && scan.site == again.site && scan.anomalies == again.anomalies
    ensures var once, twice := Scanned(rows, scan), Scanned(Scanned(rows, scan), again);
            && |twice| == |once|
            && forall k | 0 <= k < |once| :: twice[k].status == once[k].status && twice[k].resolvedAt == once[k].resolvedAt
  {
    var once := Scanned(rows, scan);
    ScanEffect(rows, scan);
    assert SeenSet(scan) == SeenSet(again);
    AllKnown(once, again);
    ScanEffect(once, again);
    forall k | 0 <= k < |once|
      ensures Scanned(once, again)[k].status == once[k].status && Scanned(once, again)[k].resolvedAt == once[k].resolvedAt
    {
      assert Scanned(once, again)[k] == AfterScan(once[k], again);
      SettledRow(rows, scan, k);
    }
  }

  /** A scan adds no row when every fingerprint it sees has one. */
  lemma AllKnown(rows: seq<Issue>, scan: Scan)
    requires OnePerFingerprint(rows) && AllFound(rows, scan)
    ensures |Scanned(rows, scan)| == |rows|
  {
    var rows' := Scanned(rows, scan);
    ScanEffect(rows, scan);
    if |rows'| > |rows| {
      var fp := rows'[|rows|].fingerprint;
      LatestHasFingerprint(scan, fp);
      var k := FindIssue(rows, scan.site, fp);
      assert rows'[k] == AfterScan(rows[k], scan);
      FoundAt(rows', scan.site, fp, k);
      OnlyMatch(rows', scan.site, fp);
      assert false;
    }
  }

  // ---------------------------------------------------------------- the result lists

  /** Rows that the upserts of a scan insert, and rows that they update, in order. */
  function CreatedBy(rows: seq<Issue>, scan: Scan): seq<nat>
    decreases |scan.anomalies|
  {
    if scan.anomalies == [] then []
    else
      var mid := UpsertedAll(rows, Before(scan));
      var k := FindIssue(mid, scan.site, NextFingerprint(scan));
      CreatedBy(rows, Before(scan)) + if k == |mid| then [k] else []
  }

  function UpdatedBy(rows: seq<Issue>, scan: Scan): seq<nat>
    decreases |scan.anomalies|
  {
    if scan.anomalies == [] then []
    else
      var mid := UpsertedAll(rows, Before(scan));
      var k := FindIssue(mid, scan.site, NextFingerprint(scan));
      UpdatedBy(rows, Before(scan)) + if k == |mid| then [] else [k]
  }

  /** Every anomaly is in exactly one of the two lists, and the created rows are the new ones. */
  lemma {:induction false} ListsCoverAnomalies(rows: seq<Issue>, scan: Scan)
    ensures |CreatedBy(rows, scan)| + |UpdatedBy(rows, scan)| == |scan.anomalies|
    ensures |UpsertedAll(rows, scan)| == |rows| + |CreatedBy(rows, scan)|
    ensures forall n | 0 <= n < |CreatedBy(rows, scan)| :: CreatedBy(rows, scan)[n] == |rows| + n
    decreases |scan.anomalies|
  {
    if scan.anomalies != [] {
      ListsCoverAnomalies(rows, Before(scan));
    }
  }

  function Fingerprints(scan: Scan): seq<Fingerprint> {
    seq(|scan.anomalies|, i requires 0 <= i < |scan.anomalies| => FingerprintOf(scan.site, scan.anomalies[i]))
  }

  /** The rows in the two lists are those whose fingerprint was seen. */
  ghost predicate ListsSeen(rows: seq<Issue>, scan: Scan) {
    var mid := UpsertedAll(rows, scan);
    forall k :: k in CreatedBy(rows, scan) || k in UpdatedBy(rows, scan) <==> SeenRow(mid, scan, k)
  }

  lemma {:induction false} ListsHoldSeen(rows: seq<Issue>, scan: Scan)
    requires OnePerFingerprint(rows)
    ensures ListsSeen(rows, scan)
    decreases |scan.anomalies|
  {
    if scan.anomalies != [] {
      ListsHoldSeen(rows, Before(scan));
      UpsertsAreDone(rows, Before(scan));
      NextListed(rows, UpsertedAll(rows, Before(scan)), scan);
    }
  }

  lemma NextListed(rows: seq<Issue>, mid: seq<Issue>, scan: Scan)
    requires scan.anomalies != [] && mid == UpsertedAll(rows, Before(scan))
    requires OnePerFingerprint(mid) && ListsSeen(rows, Before(scan))
    ensures ListsSeen(rows, scan)
  {
    var at := FindIssue(mid, scan.site, NextFingerprint(scan));
    NextInLists(rows, scan, at);
    NextSeen(mid, scan, at);
    assert UpsertedAll(rows, scan) == Upserted(mid, scan, Last(scan.anomalies));
  }

  predicate SeenRow(rows: seq<Issue>, scan: Scan, k: int) {
    0 <= k < |rows| && rows[k].site == scan.site && rows[k].fingerprint in SeenSet(scan)
  }

  lemma NextInLists(rows: seq<Issue>, scan: Scan, at: nat)
    requires scan.anomalies != [] && at == FindIssue(UpsertedAll(rows, Before(scan)), scan.site, NextFingerprint(scan))
    ensures forall k :: k in CreatedBy(rows, scan) || k in UpdatedBy(rows, scan)
                   <==> k in CreatedBy(rows, Before(scan)) || k in UpdatedBy(rows, Before(scan)) || k == at
  {
  }

  lemma NextSeen(mid: seq<Issue>, scan: Scan, at: nat)
    requires scan.anomalies != [] && OnePerFingerprint(mid) && at == FindIssue(mid, scan.site, NextFingerprint(scan))
    ensures forall k :: SeenRow(Upserted(mid, scan, Last(scan.anomalies)), scan, k) <==> SeenRow(mid, Before(scan), k) || k == at
  {
    var fp := NextFingerprint(scan);
    var mid' := Upserted(mid, scan, Last(scan.anomalies));
    SeenSetGrows(scan);
    OnlyMatch(mid, scan.site, fp);
    assert forall k | 0 <= k < |mid| :: mid'[k].site == mid[k].site && mid'[k].fingerprint == mid[k].fingerprint;
    assert Matches(mid'[at], scan.site, fp);
  }

  lemma InsertedAt<T>(a: seq<T>, b: seq<T>, x: T)
    ensures var t := a + [x] + b;
            && |t| == |a| + 1 + |b| && t[|a|] == x
            && (forall i | 0 <= i < |a| :: t[i] == a[i] == (a + b)[i])
            && (forall i | 0 <= i < |b| :: t[|a| + 1 + i] == b[i] == (a + b)[|a| + i])
  {
  }

  lemma InsertKeepsDistinct<T>(a: seq<T>, b: seq<T>, x: T)
    requires Distinct(a + b) && x !in a && x !in b
    ensures Distinct(a + [x] + b)
  {
    var s, t := a + b, a + [x] + b;
    InsertedAt(a, b, x);
    forall i, j | 0 <= i < j < |t| ensures t[i] != t[j] {
      if i != |a| && j != |a| {
        var i', j' := if i < |a| then i else i - 1, if j < |a| then j else j - 1;
        assert t[i] == s[i'] && t[j] == s[j'];
      }
    }
  }

  lemma InsertDistinct<T>(a: seq<T>, b: seq<T>, x: T)
    ensures Distinct(a + [x] + b) <==> Distinct(a + b) && x !in a && x !in b
  {
    var s, t := a + b, a + [x] + b;
    InsertedAt(a, b, x);
    if Distinct(t) {
      forall i, j | 0 <= i < j < |s| ensures s[i] != s[j] {
        var i', j' := if i < |a| then i else i + 1, if j < |a| then j else j + 1;
        assert t[i'] == s[i] && t[j'] == s[j];
      }
    }
    if Distinct(s) && x !in a && x !in b {
      InsertKeepsDistinct(a, b, x);
    }
  }

  /** The result lists of a scan name no issue twice, exactly when no fingerprint is raised twice. */
  lemma {:induction false} ListsNameRowsOnce(rows: seq<Issue>, scan: Scan)
    requires OnePerFingerprint(rows)
    ensures Distinct(CreatedBy(rows, scan) + UpdatedBy(rows, scan)) <==> Distinct(Fingerprints(scan))
    decreases |scan.anomalies|
  {
    if scan.anomalies != [] {
      ListsNameRowsOnce(rows, Before(scan));
      RepeatIsListed(rows, Before(scan), NextFingerprint(scan));
      NextIsListed(rows, Before(scan), scan);
      NextIsNew(scan);
    }
  }

  lemma NextIsNew(scan: Scan)
    requires scan.anomalies != []
    ensures Distinct(Fingerprints(scan))
       <==> Distinct(Fingerprints(Before(scan))) && NextFingerprint(scan) !in SeenSet(Before(scan))
  {
    var fps, fp := Fingerprints(Before(scan)), NextFingerprint(scan);
    SeenIsListed(Before(scan));
    InsertDistinct(fps, [], fp);
    assert Fingerprints(scan) == fps + [fp] + [];
    assert fps + [] == fps;
  }

  lemma RepeatIsListed(rows: seq<Issue>, before: Scan, fp: Fingerprint)
    requires OnePerFingerprint(rows)
    ensures var k := FindIssue(UpsertedAll(rows, before), before.site, fp);
            k in CreatedBy(rows, before) || k in UpdatedBy(rows, before) <==> fp in SeenSet(before)
  {
    ListsHoldSeen(rows, before);
    UpsertsAreDone(rows, before);
  }

  lemma SeenIsListed(scan: Scan)
    ensures forall fp :: fp in SeenSet(scan) <==> fp in Fingerprints(scan)
  {
    forall fp | fp in SeenSet(scan) ensures fp in Fingerprints(scan) {
      LatestHasFingerprint(scan, fp);
      LatestIsListed(scan, fp);
    }
  }

  lemma LatestIsListed(scan: Scan, fp: Fingerprint)
    requires fp in SeenSet(scan)
    ensures exists i | 0 <= i < |scan.anomalies| :: FingerprintOf(scan.site, scan.anomalies[i]) == fp
    ensures fp in Fingerprints(scan)
  {
    var i :| 0 <= i < |scan.anomalies| && FingerprintOf(scan.site, scan.anomalies[i]) == fp;
    assert Fingerprints(scan)[i] == fp;
  }

  lemma NextIsListed(rows: seq<Issue>, before: Scan, scan: Scan)
    requires scan.anomalies != [] && before == Before(scan)
    ensures var k := FindIssue(UpsertedAll(rows, before), scan.site, NextFingerprint(scan));
            (Distinct(CreatedBy(rows, scan) + UpdatedBy(rows, scan))
             <==> Distinct(CreatedBy(rows, before) + UpdatedBy(rows, before))
                  && k !in CreatedBy(rows, before) && k !in UpdatedBy(rows, before))
  {
    var k := FindIssue(UpsertedAll(rows, before), scan.site, NextFingerprint(scan));
    var c, u := CreatedBy(rows, before), UpdatedBy(rows, before);
    if k == |UpsertedAll(rows, before)| {
      ListedOnce(c, u, k, c + [k], u + []);
    } else {
      ListedOnce(c, u, k, c + [], u + [k]);
    }
  }

  lemma ListedOnce(c: seq<nat>, u: seq<nat>, k: nat, c': seq<nat>, u': seq<nat>)
    requires (c' == c + [k] && u' == u + []) || (c' == c + [] && u' == u + [k])
    ensures Distinct(c' + u') <==> Distinct(c + u) && k !in c && k !in u
  {
    if c' == c + [k] {
      assert c' + u' == c + [k] + u;
      InsertDistinct(c, u, k);
    } else {
      assert c' + u' == (c + u) + [k] + [];
      assert (c + u) + [] == c + u;
      InsertDistinct(c + u, [], k);
    }
  }

  // ---------------------------------------------------------------- the imperative scan

  lemma UpsertIgnoresList(rows: seq<Issue>, scan: Scan, part: Scan, a: Anomaly)
    requires part == scan.(anomalies := part.anomalies)
    ensures Upserted(rows, scan, a) == Upserted(rows, part, a)
  {
  }

  ghost predicate Ascending(list: seq<nat>) {
    forall i, j | 0 <= i < j < |list| :: list[i] < list[j]
  }

  class IssueTable {
    var issues: seq<Issue>

    constructor (rows: seq<Issue>)
      ensures issues == rows
    {
      issues := rows;
    }

    /** The reconciliation of `run_audit`; the result lists hold row indices. */
    method RunAudit(scan: Scan) returns (created: seq<nat>, updated: seq<nat>, resolved: seq<nat>)
      modifies this
      ensures issues == Scanned(old(issues), scan)
      ensures created == CreatedBy(old(issues), scan) && updated == UpdatedBy(old(issues), scan)
      ensures forall k :: k in resolved <==> 0 <= k < |issues| && Stale(UpsertedAll(old(issues), scan)[k], scan)
      ensures Ascending(resolved)
    {
      var seen;
      created, updated, seen := Upsert(scan);
      resolved := ResolveStale(scan, seen);
    }

    method UpsertOne(scan: Scan, anomaly: Anomaly) returns (k: nat, isNew: bool)
      modifies this
      ensures issues == Upserted(old(issues), scan, anomaly)
      ensures k == FindIssue(old(issues), scan.site, FingerprintOf(scan.site, anomaly))
      ensures isNew <==> k == |old(issues)|
    {
      k := FindIssue(issues, scan.site, FingerprintOf(scan.site, anomaly));
      isNew := k == |issues|;
      if isNew {
        issues := issues + [NewIssue(scan, anomaly)];
      } else {
        var existing := issues[k];
        existing := existing.(title := anomaly.title, description := anomaly.description);
        existing := existing.(category := anomaly.category, severity := anomaly.severity);
        existing := existing.(detectedAt := scan.now, snapshot := Some(scan.snapshot));
        if existing.status == Fixed {
          existing := existing.(status := Todo, resolvedAt := None);
        }
        issues := issues[k := existing];
      }
    }

    method Upsert(scan: Scan) returns (created: seq<nat>, updated: seq<nat>, seen: set<Fingerprint>)
      modifies this
      ensures issues == UpsertedAll(old(issues), scan) && seen == SeenSet(scan)
      ensures created == CreatedBy(old(issues), scan) && updated == UpdatedBy(old(issues), scan)
    {
      created, updated, seen := [], [], {};
      ghost var part := scan.(anomalies := []);
      for n := 0 to |scan.anomalies|
        invariant part == scan.(anomalies := scan.anomalies[..n])
        invariant issues == UpsertedAll(old(issues), part) && seen == SeenSet(part)
        invariant created == CreatedBy(old(issues), part) && updated == UpdatedBy(old(issues), part)
      {
        var anomaly := scan.anomalies[n];
        part := scan.(anomalies := scan.anomalies[..n + 1]);
        assert Before(part).anomalies == scan.anomalies[..n];
        SeenSetGrows(part);
        seen := seen + {FingerprintOf(scan.site, anomaly)};
        var k, isNew := UpsertOne(scan, anomaly);
        UpsertIgnoresList(UpsertedAll(old(issues), Before(part)), scan, part, anomaly);
        if isNew {
          created := created + [k];
        } else {
          updated := updated + [k];
        }
      }
      assert scan.anomalies[..|scan.anomalies|] == scan.anomalies;
    }

    method ResolveStale(scan: Scan, seen: set<Fingerprint>) returns (resolved: seq<nat>)
      requires seen == SeenSet(scan)
      modifies this
      ensures issues == Swept(old(issues), scan)
      ensures forall k :: k in resolved <==> 0 <= k < |issues| && Stale(old(issues)[k], scan)
      ensures Ascending(resolved)
    {
      resolved := [];
      for n := 0 to |issues|
        invariant |issues| == |old(issues)|
        invariant forall k | 0 <= k < n :: issues[k] == Resolved(old(issues)[k], scan)
        invariant forall k | n <= k < |issues| :: issues[k] == old(issues)[k]
        invariant forall k :: k in resolved <==> 0 <= k < n && Stale(old(issues)[k], scan)
        invariant Ascending(resolved)
      {
        var item := issues[n];
        if item.site == scan.site && item.snapshot.Some? && Open(item) && item.fingerprint !in seen {
          issues := issues[n := item.(status := Fixed, resolvedAt := Some(scan.now))];
          assert forall i | 0 <= i < |resolved| :: resolved[i] in resolved;
          resolved := resolved + [n];
        }
      }
    }
  }
}
