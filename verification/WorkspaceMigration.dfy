/** The data part of the workspace migration (backend/alembic/versions/1d03150b69e5_workspaces.py):
    every user gets a workspace of their own, and rows that named a user name a workspace
    instead; the downgrade goes back by the workspaces' owners. Identifiers drawn at random are
    an input, assumed pairwise different. */
module WorkspaceMigration {
  import opened Common

  type Id = int

  datatype User = User(id: Id, email: string, displayName: string)
  datatype Workspace = Workspace(id: Id, name: string, owner: Id)
  datatype Member = Member(workspace: Id, user: Id)

  /** A row of websites or of advisor_usage: the column that changes, the column that is unique
      beside it (the domain or the day), and the rest. */
  datatype Row = Row(holder: Id, key: string, rest: string)

  datatype OldDb = OldDb(users: seq<User>, websites: seq<Row>, usage: seq<Row>, connections: seq<Row>)

  datatype NewDb = NewDb(users: seq<User>, workspaces: seq<Workspace>, members: seq<Member>,
                         websites: seq<Row>, usage: seq<Row>, connections: seq<Row>)

  /** What stops a migration: a name too wide for its column, or a NOT NULL or uniqueness
      constraint that the data violates. */
  datatype Error = NameTooLong | NullColumn | NotUnique

  // ---------------------------------------------------------------- the constraints

  ghost predicate UniqueUsers(users: seq<User>) {
    forall i, j | 0 <= i < j < |users| :: users[i].id != users[j].id
  }

  predicate SameKey(a: Row, b: Row) {
    a.holder == b.holder && a.key == b.key
  }

  predicate UniqueRows(rows: seq<Row>) {
    forall i, j | 0 <= i < j < |rows| :: !SameKey(rows[i], rows[j])
  }

  /** Every row names a user that exists. */
  ghost predicate Owned(rows: seq<Row>, users: seq<User>) {
    forall row <- rows :: exists i :: 0 <= i < |users| && users[i].id == row.holder
  }

  ghost predicate Valid(db: OldDb) {
    && UniqueUsers(db.users)
    && UniqueRows(db.websites) && UniqueRows(db.usage)
    && Owned(db.websites, db.users) && Owned(db.usage, db.users)
  }

  // ---------------------------------------------------------------- backfill

  /** Widths of the columns the name comes from, and of the one it goes to. */
  const DISPLAY_NAME_MAX: nat := 255
  const EMAIL_MAX: nat := 320
  const NAME_MAX: nat := 200

  function NameFor(u: User): string {
    if u.displayName != "" then u.displayName else u.email
  }

  /** A column of bounded width refuses what exceeds it, unless the excess is all spaces. */
  predicate Fits(name: string) {
    forall i | NAME_MAX <= i < |name| :: name[i] == ' '
  }

  /** What such a column keeps. */
  function Clipped(name: string): string {
    if |name| > NAME_MAX then name[..NAME_MAX] else name
  }

  predicate NamesFit(users: seq<User>) {
    forall u <- users :: Fits(NameFor(u))
  }

  function WorkspaceFor(u: User, id: Id): Workspace {
    Workspace(id, Clipped(NameFor(u)), u.id)
  }

  function Workspaces(users: seq<User>, ids: seq<Id>): seq<Workspace>
    requires |ids| == |users|
  {
    seq(|users|, i requires 0 <= i < |users| => WorkspaceFor(users[i], ids[i]))
  }

  function Members(users: seq<User>, ids: seq<Id>): seq<Member>
    requires |ids| == |users|
  {
    seq(|users|, i requires 0 <= i < |users| => Member(ids[i], users[i].id))
  }

  /** The workspace that `UPDATE … FROM workspace_members` finds for a user; `None` is NULL. */
  function WorkspaceOf(members: seq<Member>, user: Id): Option<Id> {
    if members == [] then None
    else if members[0].user == user then Some(members[0].workspace)
    else WorkspaceOf(members[1..], user)
  }

  function OwnerOf(workspaces: seq<Workspace>, workspace: Id): Option<Id> {
    if workspaces == [] then None
    else if workspaces[0].id == workspace then Some(workspaces[0].owner)
    else OwnerOf(workspaces[1..], workspace)
  }

  /** A table-wide update of the holder column; an error if some row finds nothing. */
  function Rehold(rows: seq<Row>, lookup: Id -> Option<Id>): Result<seq<Row>, Error> {
    if rows == [] then Ok([])
    else match (Rehold(Init(rows), lookup), lookup(Last(rows).holder))
      case (Ok(done), Some(h)) => Ok(done + [Last(rows).(holder := h)])
      case _ => Err(NullColumn)
  }

  /** The update, then NOT NULL on the new column, then the new uniqueness constraint. */
  function Converted(rows: seq<Row>, lookup: Id -> Option<Id>): Result<seq<Row>, Error> {
    match Rehold(rows, lookup)
    case Err(e) => Err(e)
    case Ok(rows') => if UniqueRows(rows') then Ok(rows') else Err(NotUnique)
  }

  function Upgraded(db: OldDb, ids: seq<Id>): Result<NewDb, Error>
    requires |ids| == |db.users|
  {
    if !NamesFit(db.users) then Err(NameTooLong)
    else
      var members := Members(db.users, ids);
      match Converted(db.websites, u => WorkspaceOf(members, u))
      case Err(e) => Err(e)
      case Ok(websites) =>
        match Converted(db.usage, u => WorkspaceOf(members, u))
        case Err(e) => Err(e)
        case Ok(usage) => Ok(NewDb(db.users, Workspaces(db.users, ids), members, websites, usage, []))
  }

  function Downgraded(db: NewDb): Result<OldDb, Error> {
    match Converted(db.usage, w => OwnerOf(db.workspaces, w))
    case Err(e) => Err(e)
    case Ok(usage) =>
      match Converted(db.connections, w => OwnerOf(db.workspaces, w))
      case Err(e) => Err(e)
      case Ok(connections) =>
        match Converted(db.websites, w => OwnerOf(db.workspaces, w))
        case Err(e) => Err(e)
        case Ok(websites) => Ok(OldDb(db.users, websites, usage, connections))
  }

  // ---------------------------------------------------------------- lookups

  lemma {:induction false} WorkspaceFound(users: seq<User>, ids: seq<Id>, k: nat)
    requires |ids| == |users| && k < |users| && UniqueUsers(users)
    ensures WorkspaceOf(Members(users, ids), users[k].id) == Some(ids[k])
  {
    var members := Members(users, ids);
    if k > 0 {
      assert members[0].user == users[0].id != users[k].id;
      WorkspaceFound(users[1..], ids[1..], k - 1);
      assert members[1..] == Members(users[1..], ids[1..]);
    }
  }

  lemma {:induction false} OwnerFound(users: seq<User>, ids: seq<Id>, k: nat)
    requires |ids| == |users| && k < |users| && Distinct(ids)
    ensures OwnerOf(Workspaces(users, ids), ids[k]) == Some(users[k].id)
  {
    var workspaces := Workspaces(users, ids);
    if k > 0 {
      assert workspaces[0].id == ids[0] != ids[k];
      OwnerFound(users[1..], ids[1..], k - 1);
      assert workspaces[1..] == Workspaces(users[1..], ids[1..]);
    }
  }

  lemma {:induction false} RowPosition(users: seq<User>, id: Id) returns (k: nat)
    requires exists i :: 0 <= i < |users| && users[i].id == id
    ensures k < |users| && users[k].id == id
  {
    k :| 0 <= k < |users| && users[k].id == id;
  }

  /** The workspace given to an existing user. */
  ghost predicate Given(users: seq<User>, ids: seq<Id>, user: Id, workspace: Id)
    requires |ids| == |users|
  {
    exists i :: 0 <= i < |users| && users[i].id == user && ids[i] == workspace
  }

  // ---------------------------------------------------------------- converting a table

  /** `rows'` are `rows` with each holder replaced by what the lookup finds. */
  ghost predicate Reheld(rows: seq<Row>, rows': seq<Row>, lookup: Id -> Option<Id>) {
    |rows'| == |rows| && forall i | 0 <= i < |rows| ::
      lookup(rows[i].holder).Some? && rows'[i] == rows[i].(holder := lookup(rows[i].holder).value)
  }

  lemma {:induction false} ReholdSound(rows: seq<Row>, lookup: Id -> Option<Id>)
    ensures Rehold(rows, lookup).Ok? <==> forall row <- rows :: lookup(row.holder).Some?
    ensures Rehold(rows, lookup).Ok? ==> Reheld(rows, Rehold(rows, lookup).value, lookup)
    ensures Rehold(rows, lookup).Err? ==> Rehold(rows, lookup) == Err(NullColumn)
  {
    if rows != [] {
      ReholdSound(Init(rows), lookup);
      assert rows == Init(rows) + [Last(rows)];
    }
  }

  /** The lookup never sends two holders of the table to the same one. */
  ghost predicate InjectiveOn(rows: seq<Row>, lookup: Id -> Option<Id>) {
    forall a, b | a in rows && b in rows && lookup(a.holder) == lookup(b.holder) :: a.holder == b.holder
  }

  lemma ConvertedSound(rows: seq<Row>, lookup: Id -> Option<Id>)
    requires UniqueRows(rows) && InjectiveOn(rows, lookup)
    requires forall row <- rows :: lookup(row.holder).Some?
    ensures Converted(rows, lookup).Ok? && Reheld(rows, Converted(rows, lookup).value, lookup)
  {
    ReholdSound(rows, lookup);
    var rows' := Rehold(rows, lookup).value;
    forall i, j | 0 <= i < j < |rows'| ensures !SameKey(rows'[i], rows'[j]) {
      assert rows[i] in rows && rows[j] in rows && !SameKey(rows[i], rows[j]);
    }
  }

  /** A conversion by a lookup and then by its inverse brings every row back. */
  lemma ConvertedBack(rows: seq<Row>, rows': seq<Row>, there: Id -> Option<Id>, back: Id -> Option<Id>)
    requires UniqueRows(rows) && Reheld(rows, rows', there)
    requires forall row <- rows :: back(there(row.holder).value) == Some(row.holder)
    ensures Converted(rows', back) == Ok(rows)
  {
    forall row <- rows' ensures back(row.holder).Some? {
      var i :| 0 <= i < |rows'| && rows'[i] == row;
      assert rows[i] in rows;
    }
    ReholdSound(rows', back);
    var again := Rehold(rows', back).value;
    forall i | 0 <= i < |rows| ensures again[i] == rows[i] {
      assert rows[i] in rows;
    }
    assert again == rows;
  }

  lemma UpgradeLookup(users: seq<User>, ids: seq<Id>, rows: seq<Row>, lookup: Id -> Option<Id>)
    requires UniqueUsers(users) && |ids| == |users| && Distinct(ids) && Owned(rows, users)
    requires forall u :: lookup(u) == WorkspaceOf(Members(users, ids), u)
    ensures forall row <- rows :: lookup(row.holder).Some? && Given(users, ids, row.holder, lookup(row.holder).value)
                                  && OwnerOf(Workspaces(users, ids), lookup(row.holder).value) == Some(row.holder)
    ensures InjectiveOn(rows, lookup)
  {
    forall row <- rows
      ensures lookup(row.holder).Some? && Given(users, ids, row.holder, lookup(row.holder).value)
              && OwnerOf(Workspaces(users, ids), lookup(row.holder).value) == Some(row.holder)
    {
      var k := RowPosition(users, row.holder);
      WorkspaceFound(users, ids, k);
      OwnerFound(users, ids, k);
    }
  }

  // ---------------------------------------------------------------- results

  /** Every row now names the workspace given to the user it named, and nothing else changed. */
  ghost predicate Moved(users: seq<User>, ids: seq<Id>, rows: seq<Row>, rows': seq<Row>)
    requires |ids| == |users|
  {
    |rows'| == |rows| && forall i | 0 <= i < |rows| ::
      Given(users, ids, rows[i].holder, rows'[i].holder) && rows'[i] == rows[i].(holder := rows'[i].holder)
  }

  lemma ReheldIsMoved(users: seq<User>, ids: seq<Id>, rows: seq<Row>, rows': seq<Row>, lookup: Id -> Option<Id>)
    requires |ids| == |users| && Reheld(rows, rows', lookup)
    requires forall row <- rows :: lookup(row.holder).Some? && Given(users, ids, row.holder, lookup(row.holder).value)
    ensures Moved(users, ids, rows, rows')
  {
    forall i | 0 <= i < |rows| ensures Given(users, ids, rows[i].holder, rows'[i].holder) {
      assert rows[i] in rows;
    }
  }

  /** Main result: on data that meets the old constraints the upgrade succeeds if and only if
      every workspace name fits its column, and stops at a name otherwise. When it succeeds, each
      website and usage row names its user's workspace, both new uniqueness constraints hold,
      and no connection is left. */
  lemma UpgradeSucceeds(db: OldDb, ids: seq<Id>)
    requires Valid(db) && |ids| == |db.users| && Distinct(ids)
    ensures Upgraded(db, ids).Ok? <==> NamesFit(db.users)
    ensures Upgraded(db, ids).Err? ==> Upgraded(db, ids) == Err(NameTooLong)
    ensures NamesFit(db.users) ==>
              var n := Upgraded(db, ids).value;
              && Moved(db.users, ids, db.websites, n.websites) && Moved(db.users, ids, db.usage, n.usage)
              && UniqueRows(n.websites) && UniqueRows(n.usage)
              && n.users == db.users && n.connections == []
              && n.workspaces == Workspaces(db.users, ids) && n.members == Members(db.users, ids)
  {
    if NamesFit(db.users) {
      var lookup := u => WorkspaceOf(Members(db.users, ids), u);
      UpgradeLookup(db.users, ids, db.websites, lookup);
      UpgradeLookup(db.users, ids, db.usage, lookup);
      ConvertedSound(db.websites, lookup);
      ConvertedSound(db.usage, lookup);
      ReheldIsMoved(db.users, ids, db.websites, Converted(db.websites, lookup).value, lookup);
      ReheldIsMoved(db.users, ids, db.usage, Converted(db.usage, lookup).value, lookup);
    }
  }

  /** Names within the width always fit, and are kept whole; a longer one that does not end in
      a space never does. */
  lemma FitsByWidth(name: string)
    ensures |name| <= NAME_MAX ==> Fits(name) && Clipped(name) == name
    ensures |name| > NAME_MAX && Last(name) != ' ' ==> !Fits(name)
  {
  }

  /** The old schema has room for names that stop the upgrade: a display name of 201 characters,
      or without one an address of 201. */
  lemma LongNameStopsUpgrade(id: Id, workspace: Id, email: string, c: char)
    requires |email| <= EMAIL_MAX && c != ' '
    ensures var name := seq(NAME_MAX + 1, _ => c);
            var named, unnamed := User(id, email, name), User(id, name, "");
            && |name| <= DISPLAY_NAME_MAX && |name| <= EMAIL_MAX
            && Valid(OldDb([named], [], [], [])) && Upgraded(OldDb([named], [], [], []), [workspace]) == Err(NameTooLong)
            && Valid(OldDb([unnamed], [], [], [])) && Upgraded(OldDb([unnamed], [], [], []), [workspace]) == Err(NameTooLong)
  {
    var name := seq(NAME_MAX + 1, _ => c);
    var named, unnamed := User(id, email, name), User(id, name, "");
    FitsByWidth(name);
    assert NameFor(named) == name && NameFor(unnamed) == name;
    assert named in [named] && unnamed in [unnamed];
  }

  /** What each user's workspace is called: their display name or, without one, their address, which
      is kept whole but for spaces beyond the width. */
  lemma WorkspaceFields(db: OldDb, ids: seq<Id>, u: nat)
    requires Valid(db) && |ids| == |db.users| && Distinct(ids) && Upgraded(db, ids).Ok? && u < |db.users|
    ensures var n, user := Upgraded(db, ids).value, db.users[u];
            var name := if user.displayName == "" then user.email else user.displayName;
            && |n.workspaces| == |n.members| == |db.users|
            && n.workspaces[u].id == ids[u] && n.workspaces[u].owner == user.id && n.members[u] == Member(ids[u], user.id)
            && n.workspaces[u].name <= name && |n.workspaces[u].name| <= 200
            && forall i | |n.workspaces[u].name| <= i < |name| :: name[i] == ' ' && i >= 200
  {
    UpgradeSucceeds(db, ids);
    assert db.users[u] in db.users;
  }

  /** Each user owns exactly one workspace, and is the only member of it. */
  lemma OneWorkspaceEach(users: seq<User>, ids: seq<Id>, u: nat)
    requires |ids| == |users| && UniqueUsers(users) && Distinct(ids) && u < |users|
    ensures var ws, ms := Workspaces(users, ids), Members(users, ids);
            && (forall i | 0 <= i < |ws| :: ws[i].owner == users[u].id <==> i == u)
            && (forall i | 0 <= i < |ms| :: ms[i].user == users[u].id <==> i == u)
            && (forall i | 0 <= i < |ms| :: ms[i].workspace == ws[u].id <==> i == u)
  {
  }

  /** Main result: whenever the upgrade succeeds, downgrading at once restores every user, website
      and usage row; of the original data only the connections, which the upgrade deletes, do
      not come back. */
  lemma RoundTrip(db: OldDb, ids: seq<Id>)
    requires Valid(db) && |ids| == |db.users| && Distinct(ids)
    ensures Upgraded(db, ids).Ok? <==> NamesFit(db.users)
    ensures Upgraded(db, ids).Ok? ==>
              && Downgraded(Upgraded(db, ids).value) == Ok(db.(connections := []))
              && (Downgraded(Upgraded(db, ids).value) == Ok(db) <==> db.connections == [])
  {
    UpgradeSucceeds(db, ids);
    if NamesFit(db.users) {
      SuccessIsUndone(db, ids, Upgraded(db, ids).value);
    }
  }

  lemma SuccessIsUndone(db: OldDb, ids: seq<Id>, n: NewDb)
    requires Valid(db) && |ids| == |db.users| && Distinct(ids)
    requires Upgraded(db, ids) == Ok(n)
    ensures Downgraded(n) == Ok(db.(connections := []))
  {
    var there := u => WorkspaceOf(Members(db.users, ids), u);
    var back := w => OwnerOf(n.workspaces, w);
    assert NamesFit(db.users) && n.workspaces == Workspaces(db.users, ids);
    TableIsUndone(db.users, ids, db.websites, n.websites, there, back);
    TableIsUndone(db.users, ids, db.usage, n.usage, there, back);
  }

  lemma TableIsUndone(users: seq<User>, ids: seq<Id>, rows: seq<Row>, rows': seq<Row>,
                      there: Id -> Option<Id>, back: Id -> Option<Id>)
    requires UniqueUsers(users) && |ids| == |users| && Distinct(ids) && Owned(rows, users) && UniqueRows(rows)
    requires forall u :: there(u) == WorkspaceOf(Members(users, ids), u)
    requires forall w :: back(w) == OwnerOf(Workspaces(users, ids), w)
    requires Converted(rows, there) == Ok(rows')
    ensures Converted(rows', back) == Ok(rows)
  {
    UpgradeLookup(users, ids, rows, there);
    ConvertedSound(rows, there);
    ConvertedBack(rows, rows', there, back);
  }

  /** A row of a user that does not exist stops the upgrade, at the latest at the NOT NULL constraint. */
  lemma OrphanStopsUpgrade(db: OldDb, ids: seq<Id>, row: Row)
    requires |ids| == |db.users| && row in db.websites && forall i | 0 <= i < |db.users| :: db.users[i].id != row.holder
    ensures Upgraded(db, ids) == Err(if NamesFit(db.users) then NullColumn else NameTooLong)
  {
    var lookup := u => WorkspaceOf(Members(db.users, ids), u);
    NoWorkspace(Members(db.users, ids), row.holder);
    ReholdSound(db.websites, lookup);
  }

  lemma {:induction false} NoWorkspace(members: seq<Member>, user: Id)
    requires forall i | 0 <= i < |members| :: members[i].user != user
    ensures WorkspaceOf(members, user) == None
  {
    if members != [] {
      NoWorkspace(members[1..], user);
    }
  }

  // ---------------------------------------------------------------- the migration script

  /** Stops at the first user whose name the new table refuses. */
  method Backfill(users: seq<User>, ids: seq<Id>)
    returns (error: Option<Error>, workspaces: seq<Workspace>, members: seq<Member>)
    requires |ids| == |users|
    ensures error == if NamesFit(users) then None else Some(NameTooLong)
    ensures error.None? ==> workspaces == Workspaces(users, ids) && members == Members(users, ids)
  {
    error, workspaces, members := None, [], [];
    for i := 0 to |users|
      invariant NamesFit(users[..i])
      invariant workspaces == Workspaces(users[..i], ids[..i]) && members == Members(users[..i], ids[..i])
    {
      var user := users[i];
      var name := if user.displayName != "" then user.displayName else user.email;
      if !Fits(name) {
        assert user in users && NameFor(user) == name;
        error := Some(NameTooLong);
        return;
      }
      workspaces := workspaces + [Workspace(ids[i], Clipped(name), user.id)];
      members := members + [Member(ids[i], user.id)];
      assert users[..i + 1] == users[..i] + [user];
    }
    assert users[..|users|] == users && ids[..|users|] == ids;
  }

  class Database {
    var users: seq<User>
    var websites: seq<Row>
    var usage: seq<Row>
    var connections: seq<Row>
    var workspaces: seq<Workspace>
    var members: seq<Member>

    constructor (db: OldDb)
      ensures Old() == db && workspaces == [] && members == []
    {
      users, websites, usage, connections := db.users, db.websites, db.usage, db.connections;
      workspaces, members := [], [];
    }

    ghost function Old(): OldDb
      reads this
    {
      OldDb(users, websites, usage, connections)
    }

    ghost function New(): NewDb
      reads this
    {
      NewDb(users, workspaces, members, websites, usage, connections)
    }

    method ConvertTable(rows: seq<Row>, lookup: Id -> Option<Id>) returns (r: Result<seq<Row>, Error>)
      ensures r == Converted(rows, lookup)
    {
      var updated: seq<Row> := [];
      var nulls := false;
      for i := 0 to |rows|
        invariant nulls <==> Rehold(rows[..i], lookup).Err?
        invariant !nulls ==> Rehold(rows[..i], lookup) == Ok(updated)
      {
        assert Init(rows[..i + 1]) == rows[..i];
        match lookup(rows[i].holder)
        case None => nulls := true;
        case Some(h) => updated := updated + [rows[i].(holder := h)];
      }
      assert rows[..|rows|] == rows;
      ReholdSound(rows, lookup);
      if nulls {
        return Err(NullColumn);
      }
      r := if UniqueRows(updated) then Ok(updated) else Err(NotUnique);
    }

    /** Runs in one transaction: an error leaves the database as it was. */
    method Upgrade(ids: seq<Id>) returns (error: Option<Error>)
      requires |ids| == |users|
      modifies this
      ensures match Upgraded(old(Old()), ids)
              case Ok(n) => error == None && New() == n
              case Err(e) => error == Some(e) && Old() == old(Old()) && New() == old(New())
    {
      var refused, newWorkspaces, newMembers := Backfill(users, ids);
      if refused.Some? {
        return refused;
      }
      var lookup := u => WorkspaceOf(newMembers, u);
      var newWebsites := ConvertTable(websites, lookup);
      if newWebsites.Err? {
        return Some(newWebsites.error);
      }
      var newUsage := ConvertTable(usage, lookup);
      if newUsage.Err? {
        return Some(newUsage.error);
      }
      workspaces, members := newWorkspaces, newMembers;
      websites, usage, connections := newWebsites.value, newUsage.value, [];
      error := None;
    }

    /** The way back; the workspace tables are dropped at the end. */
    method Downgrade() returns (error: Option<Error>)
      modifies this
      ensures match Downgraded(old(New()))
              case Ok(o) => error == None && Old() == o && workspaces == [] && members == []
              case Err(e) => error == Some(e) && Old() == old(Old()) && New() == old(New())
    {
      var held := workspaces;
      var lookup := w => OwnerOf(held, w);
      var oldUsage := ConvertTable(usage, lookup);
      if oldUsage.Err? {
        return Some(oldUsage.error);
      }
      var oldConnections := ConvertTable(connections, lookup);
      if oldConnections.Err? {
        return Some(oldConnections.error);
      }
      var oldWebsites := ConvertTable(websites, lookup);
      if oldWebsites.Err? {
        return Some(oldWebsites.error);
      }
      usage, connections, websites := oldUsage.value, oldConnections.value, oldWebsites.value;
      workspaces, members := [], [];
      error := None;
    }
  }
}
