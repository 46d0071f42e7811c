/** Key-versioned token encryption (backend/app/security/token_crypto.py). AES-GCM and UTF-8 are
    arbitrary functions; the laws assumed of them are `Lawful` and, for one result, `Binding`. */
module TokenCrypto {
  import opened Common
  import opened Bytes

  const VERSION_BYTES := 2
  const NONCE_BYTES := 12
  const KEY_BYTES := 32
  const MAX_VERSION := 65536

  datatype Error = ShortBlob | BadTag | NotText | UnknownKeyVersion(version: int)
    | NoActiveKey | VersionOutOfRange(version: int) | BadKeyLength(version: int)

  datatype EncryptedToken = EncryptedToken(ciphertext: seq<byte>, nonce: seq<byte>, keyVersion: int)

  /** seal and open take key, nonce, text and associated data in this order. */
  datatype Primitives = Primitives(
    seal: (seq<byte>, seq<byte>, seq<byte>, seq<byte>) -> seq<byte>,
    open: (seq<byte>, seq<byte>, seq<byte>, seq<byte>) -> Option<seq<byte>>,
    toUtf8: string -> seq<byte>,
    ofUtf8: seq<byte> -> Option<string>)

  ghost predicate Lawful(p: Primitives) {
    && (forall k, n, x, a :: p.open(k, n, p.seal(k, n, x, a), a) == Some(x))
    && (forall s :: p.ofUtf8(p.toUtf8(s)) == Some(s))
  }

  /** A sealed text opens under no other associated data. */
  ghost predicate Binding(p: Primitives) {
    forall k, n, x, a, a' | a != a' :: p.open(k, n, p.seal(k, n, x, a), a') == None
  }

  // ---------------------------------------------------------------- packing

  /** Two big-endian bytes; `None` is the OverflowError of `int.to_bytes`. */
  function VersionBytes(v: int): Option<seq<byte>> {
    if 0 <= v < MAX_VERSION then Some([v / 256, v % 256]) else None
  }

  function Pack(t: EncryptedToken): Option<seq<byte>> {
    match VersionBytes(t.keyVersion)
    case None => None
    case Some(v) => Some(v + t.nonce + t.ciphertext)
  }

  function Unpack(blob: seq<byte>): Result<EncryptedToken, Error> {
    if |blob| < VERSION_BYTES + NONCE_BYTES then Err(ShortBlob)
    else Ok(EncryptedToken(blob[VERSION_BYTES + NONCE_BYTES..], blob[VERSION_BYTES..VERSION_BYTES + NONCE_BYTES],
                           blob[0] as int * 256 + blob[1] as int))
  }

  /** The layout of a blob: two bytes of version, most significant first, the nonce, the rest. */
  lemma PackLayout(t: EncryptedToken)
    requires 0 <= t.keyVersion < 65536
    ensures Pack(t).Some?
    ensures var blob, n := Pack(t).value, |t.nonce|;
            && |blob| == 2 + n + |t.ciphertext| && blob[0] as int * 256 + blob[1] as int == t.keyVersion
            && blob[2..2 + n] == t.nonce && blob[2 + n..] == t.ciphertext
  {
    var v := VersionBytes(t.keyVersion).value;
    assert Pack(t).value == v + t.nonce + t.ciphertext;
  }

  /** Unpacking inverts packing exactly for nonces of twelve bytes. */
  lemma UnpackInvertsPack(t: EncryptedToken)
    ensures Pack(t).Some? <==> 0 <= t.keyVersion < MAX_VERSION
    ensures Pack(t).Some? ==> (Unpack(Pack(t).value) == Ok(t) <==> |t.nonce| == NONCE_BYTES)
  {
    if Pack(t).Some? {
      var v := VersionBytes(t.keyVersion).value;
      var blob := Pack(t).value;
      assert blob[0] == v[0] && blob[1] == v[1];
      if |t.nonce| == NONCE_BYTES {
        assert blob[2..14] == t.nonce && blob[14..] == t.ciphertext;
      }
    }
  }

  /** Packing inverts unpacking on every blob that is long enough to be one. */
  lemma PackInvertsUnpack(blob: seq<byte>)
    ensures Unpack(blob).Ok? <==> |blob| >= 14
    ensures Unpack(blob).Ok? ==> Pack(Unpack(blob).value) == Some(blob)
  {
    if |blob| >= 14 {
      var v := blob[0] as int * 256 + blob[1] as int;
      assert v / 256 == blob[0] && v % 256 == blob[1];
      assert blob == [blob[0], blob[1]] + blob[2..14] + blob[14..];
    }
  }

  // ---------------------------------------------------------------- the cipher

  datatype Cipher = Cipher(keys: map<int, seq<byte>>, active: int)

  predicate ValidKey(v: int, key: seq<byte>) {
    0 <= v < MAX_VERSION && |key| == KEY_BYTES
  }

  /** What a successfully constructed cipher guarantees. */
  predicate Valid(c: Cipher) {
    c.active in c.keys && forall v <- c.keys :: ValidKey(v, c.keys[v])
  }

  /** Construction checks the active version, then every key in the registry's own order. */
  method MakeCipher(keys: map<int, seq<byte>>, order: seq<int>, active: int) returns (r: Result<Cipher, Error>)
    requires forall v :: v in keys <==> v in order
    ensures r.Ok? <==> Valid(Cipher(keys, active))
    ensures r.Ok? ==> r.value == Cipher(keys, active)
    ensures r == Err(NoActiveKey) <==> active !in keys
    ensures r.Err? && active in keys ==>
              exists i ::
                && 0 <= i < |order| && !ValidKey(order[i], keys[order[i]])
                && (forall j | 0 <= j < i :: ValidKey(order[j], keys[order[j]]))
                && r.error == if 0 <= order[i] < MAX_VERSION then BadKeyLength(order[i]) else VersionOutOfRange(order[i])
  {
    if active !in keys {
      return Err(NoActiveKey);
    }
    for i := 0 to |order|
      invariant forall j | 0 <= j < i :: ValidKey(order[j], keys[order[j]])
    {
      var version := order[i];
      if !(0 <= version < MAX_VERSION) {
        assert !ValidKey(version, keys[version]);
        return Err(VersionOutOfRange(version));
      }
      if |keys[version]| != KEY_BYTES {
        return Err(BadKeyLength(version));
      }
    }
    r := Ok(Cipher(keys, active));
  }

  function Encrypt(p: Primitives, c: Cipher, text: string, aad: seq<byte>, nonce: seq<byte>): EncryptedToken
    requires Valid(c)
  {
    EncryptedToken(p.seal(c.keys[c.active], nonce, p.toUtf8(text), aad), nonce, c.active)
  }

  function Decrypt(p: Primitives, c: Cipher, t: EncryptedToken, aad: seq<byte>): Result<string, Error> {
    if t.keyVersion !in c.keys then Err(UnknownKeyVersion(t.keyVersion))
    else match p.open(c.keys[t.keyVersion], t.nonce, t.ciphertext, aad)
      case None => Err(BadTag)
      case Some(raw) => match p.ofUtf8(raw)
        case None => Err(NotText)
        case Some(text) => Ok(text)
  }

  function Rotate(p: Primitives, c: Cipher, t: EncryptedToken, aad: seq<byte>, nonce: seq<byte>): Result<EncryptedToken, Error>
    requires Valid(c)
  {
    match Decrypt(p, c, t, aad)
    case Err(e) => Err(e)
    case Ok(text) => Ok(Encrypt(p, c, text, aad, nonce))
  }

  /** The two registries give every version they share the same key. */
  predicate Agree(c: Cipher, d: Cipher) {
    forall v <- c.keys :: v in d.keys ==> c.keys[v] == d.keys[v]
  }

  /** A token can be read under another registry exactly while its version is still in it. */
  lemma ReadableWhileKeyKept(p: Primitives, c: Cipher, d: Cipher, text: string, aad: seq<byte>, nonce: seq<byte>)
    requires Lawful(p) && Valid(c) && Agree(c, d)
    ensures Decrypt(p, d, Encrypt(p, c, text, aad, nonce), aad) == Ok(text) <==> c.active in d.keys
    ensures c.active !in d.keys ==>
              Decrypt(p, d, Encrypt(p, c, text, aad, nonce), aad) == Err(UnknownKeyVersion(c.active))
  {
  }

  /** Rotation keeps the text, moves it to the active key, and fails exactly when reading does. */
  lemma RotationKeepsText(p: Primitives, c: Cipher, t: EncryptedToken, aad: seq<byte>, nonce: seq<byte>)
    requires Lawful(p) && Valid(c)
    ensures Rotate(p, c, t, aad, nonce).Ok? <==> Decrypt(p, c, t, aad).Ok?
    ensures Rotate(p, c, t, aad, nonce).Ok? ==>
              var t' := Rotate(p, c, t, aad, nonce).value;
              t'.keyVersion == c.active && t'.nonce == nonce && Decrypt(p, c, t', aad) == Decrypt(p, c, t, aad)
  {
  }
}

/** Stored Google connections (backend/app/services/connections.py): one row per workspace and
    Google identity, holding the packed token and, beside it, the key version in clear. */
module Connections {
  import opened Common
  import opened Bytes
  import opened Uuids
  import opened TokenCrypto

  datatype Status = Active | NeedsReauth | Revoked

  datatype Connection = Connection(workspace: Uuid, sub: string, email: string, scopes: seq<string>,
                                   blob: seq<byte>, keyVersion: int, status: Status, refreshedAt: int)

  function AadText(workspace: Uuid, sub: string): string {
    "gconn|user:" + Uuids.Print(workspace) + "|sub:" + sub
  }

  function ConnectionAad(p: Primitives, workspace: Uuid, sub: string): seq<byte> {
    p.toUtf8(AadText(workspace, sub))
  }

  function DecryptRefreshToken(p: Primitives, row: Connection, c: Cipher): Result<string, Error> {
    match Unpack(row.blob)
    case Err(e) => Err(e)
    case Ok(t) => Decrypt(p, c, t, ConnectionAad(p, row.workspace, row.sub))
  }

  /** The associated data names one workspace and one identity. */
  lemma AadInjective(p: Primitives, w: Uuid, s: string, w': Uuid, s': string)
    requires Lawful(p)
    ensures ConnectionAad(p, w, s) == ConnectionAad(p, w', s') <==> w == w' && s == s'
  {
    if ConnectionAad(p, w, s) == ConnectionAad(p, w', s') {
      var text, text' := AadText(w, s), AadText(w', s');
      assert p.ofUtf8(p.toUtf8(text)) == p.ofUtf8(p.toUtf8(text'));
      assert text == text';
      Uuids.PrintWritten(w);
      Uuids.PrintWritten(w');
      assert text[11..47] == Uuids.Print(w) && text'[11..47] == Uuids.Print(w');
      assert text[52..] == s && text'[52..] == s';
      Uuids.PrintInjective(w, w');
    }
  }

  // ---------------------------------------------------------------- the table

  predicate Names(row: Connection, w: Uuid, s: string) {
    row.workspace == w && row.sub == s
  }

  /** Index of the row of a workspace and identity, or the number of rows. */
  function RowOf(rows: seq<Connection>, w: Uuid, s: string): (i: nat)
    ensures i <= |rows|
    ensures i < |rows| ==> Names(rows[i], w, s)
    ensures forall j | 0 <= j < i :: !Names(rows[j], w, s)
  {
    if rows == [] || Names(rows[0], w, s) then 0 else 1 + RowOf(rows[1..], w, s)
  }

  /** The token data of one authorisation; a refresh token is not always granted. */
  datatype Grant = Grant(email: string, scopes: seq<string>, refreshToken: Option<string>)

  function Stored(rows: seq<Connection>, row: Connection): seq<Connection> {
    var i := RowOf(rows, row.workspace, row.sub);
    if i == |rows| then rows + [row] else rows[i := row]
  }

  function FreshRow(p: Primitives, c: Cipher, w: Uuid, s: string, g: Grant, nonce: seq<byte>, now: int): Connection
    requires Valid(c) && g.refreshToken.Some?
  {
    var t := Encrypt(p, c, g.refreshToken.value, ConnectionAad(p, w, s), nonce);
    Connection(w, s, g.email, g.scopes, Pack(t).value, t.keyVersion, Active, now)
  }

  class ConnectionStore {
    var rows: seq<Connection>

    constructor ()
      ensures rows == []
    {
      rows := [];
    }

    /** `ok` is false for the ValueError of a grant without refresh token. */
    method Upsert(p: Primitives, c: Cipher, w: Uuid, s: string, g: Grant, nonce: seq<byte>, now: int) returns (ok: bool)
      requires Valid(c)
      modifies this
      ensures ok == g.refreshToken.Some?
      ensures rows == if ok then Stored(old(rows), FreshRow(p, c, w, s, g, nonce, now)) else old(rows)
    {
      if g.refreshToken.None? {
        return false;
      }
      var encrypted := Encrypt(p, c, g.refreshToken.value, ConnectionAad(p, w, s), nonce);
      var blob := Pack(encrypted).value;
      var i := RowOf(rows, w, s);
      if i == |rows| {
        rows := rows + [Connection(w, s, g.email, g.scopes, blob, encrypted.keyVersion, Active, now)];
      } else {
        var existing := rows[i];
        existing := existing.(email := g.email, scopes := g.scopes);
        existing := existing.(blob := blob, keyVersion := encrypted.keyVersion);
        existing := existing.(status := Active, refreshedAt := now);
        rows := rows[i := existing];
      }
      ok := true;
    }
  }

  // ---------------------------------------------------------------- whole runs

  /** Authorisations, rotations of a stored row, and deployments of an extended registry. */
  datatype Event =
    | Upsert(workspace: Uuid, sub: string, grant: Grant, nonce: seq<byte>, now: int)
    | RotateRow(workspace: Uuid, sub: string, nonce: seq<byte>)
    | Deploy(cipher: Cipher)

  datatype World = World(cipher: Cipher, rows: seq<Connection>)

  predicate Extends(c: Cipher, d: Cipher) {
    Valid(d) && forall v <- c.keys :: v in d.keys && c.keys[v] == d.keys[v]
  }

  predicate Admissible(w: World, e: Event) {
    match e
    case Upsert(_, _, _, nonce, _) => |nonce| == NONCE_BYTES
    case RotateRow(_, _, nonce) => |nonce| == NONCE_BYTES
    case Deploy(c) => Extends(w.cipher, c)
  }

  function Rotated(p: Primitives, c: Cipher, row: Connection, nonce: seq<byte>): Connection
    requires Valid(c)
  {
    match Unpack(row.blob)
    case Err(_) => row
    case Ok(t) =>
      match Rotate(p, c, t, ConnectionAad(p, row.workspace, row.sub), nonce)
      case Err(_) => row
      case Ok(t') => row.(blob := Pack(t').value, keyVersion := t'.keyVersion)
  }

  function Step(p: Primitives, w: World, e: Event): World
    requires Valid(w.cipher)
  {
    match e
    case Upsert(ws, s, g, nonce, now) =>
      if g.refreshToken.None? then w else w.(rows := Stored(w.rows, FreshRow(p, w.cipher, ws, s, g, nonce, now)))
    case RotateRow(ws, s, nonce) =>
      var i := RowOf(w.rows, ws, s);
      if i == |w.rows| then w else w.(rows := w.rows[i := Rotated(p, w.cipher, w.rows[i], nonce)])
    case Deploy(c) => w.(cipher := c)
  }

  type Tokens = map<(Uuid, string), string>

  /** The rule: the last refresh token granted to each workspace and identity. */
  function LastGranted(granted: Tokens, e: Event): Tokens {
    if e.Upsert? && e.grant.refreshToken.Some? then granted[(e.workspace, e.sub) := e.grant.refreshToken.value] else granted
  }

  /** A row reads back as `text`, and its version column is the packed one. */
  ghost predicate Reads(p: Primitives, c: Cipher, row: Connection, text: string) {
    && DecryptRefreshToken(p, row, c) == Ok(text)
    && Unpack(row.blob).value.keyVersion == row.keyVersion
  }

  ghost predicate OneRowEach(rows: seq<Connection>) {
    forall i, j | 0 <= i < j < |rows| :: !Names(rows[j], rows[i].workspace, rows[i].sub)
  }

  ghost predicate AllRead(p: Primitives, c: Cipher, rows: seq<Connection>, granted: Tokens) {
    forall row <- rows :: (row.workspace, row.sub) in granted && Reads(p, c, row, granted[(row.workspace, row.sub)])
  }

  ghost predicate AllStored(rows: seq<Connection>, granted: Tokens) {
    forall key <- granted :: RowOf(rows, key.0, key.1) < |rows|
  }

  ghost predicate Consistent(p: Primitives, w: World, granted: Tokens) {
    Valid(w.cipher) && OneRowEach(w.rows) && AllRead(p, w.cipher, w.rows, granted) && AllStored(w.rows, granted)
  }

  /** What an upsert leaves: one row of that workspace and identity, field by field, where it was or at
      the end, and every other row untouched. */
  lemma UpsertFields(p: Primitives, c: Cipher, rows: seq<Connection>, w: Uuid, s: string, g: Grant, nonce: seq<byte>, now: int)
      returns (i: nat)
    requires Valid(c) && g.refreshToken.Some? && OneRowEach(rows)
    ensures var rows' := Stored(rows, FreshRow(p, c, w, s, g, nonce, now));
            && i < |rows'|
            && rows'[i] == Connection(w, s, g.email, g.scopes, rows'[i].blob, c.active, Active, now)
            && (forall j | 0 <= j < |rows| && j != i :: rows'[j] == rows[j] && !Names(rows[j], w, s))
            && |rows'| == (if exists j :: 0 <= j < |rows| && Names(rows[j], w, s) then |rows| else |rows| + 1)
  {
    i := RowOf(rows, w, s);
  }

  lemma FreshRowReads(p: Primitives, c: Cipher, w: Uuid, s: string, g: Grant, nonce: seq<byte>, now: int)
    requires Lawful(p) && Valid(c) && g.refreshToken.Some? && |nonce| == NONCE_BYTES
    ensures Reads(p, c, FreshRow(p, c, w, s, g, nonce, now), g.refreshToken.value)
  {
    UnpackInvertsPack(Encrypt(p, c, g.refreshToken.value, ConnectionAad(p, w, s), nonce));
  }

  lemma RotatedReads(p: Primitives, c: Cipher, row: Connection, nonce: seq<byte>, text: string)
    requires Lawful(p) && Valid(c) && Reads(p, c, row, text) && |nonce| == NONCE_BYTES
    ensures Reads(p, c, Rotated(p, c, row, nonce), text)
    ensures Rotated(p, c, row, nonce).keyVersion == c.active
  {
    var aad := ConnectionAad(p, row.workspace, row.sub);
    var t := Unpack(row.blob).value;
    RotationKeepsText(p, c, t, aad, nonce);
    UnpackInvertsPack(Rotate(p, c, t, aad, nonce).value);
  }

  lemma RowFound(rows: seq<Connection>, w: Uuid, s: string, j: nat)
    requires j < |rows| && Names(rows[j], w, s)
    ensures RowOf(rows, w, s) <= j
  {
  }

  lemma StoredKeepsRows(rows: seq<Connection>, granted: Tokens, row: Connection, text: string)
    requires OneRowEach(rows) && AllStored(rows, granted)
    ensures OneRowEach(Stored(rows, row)) && AllStored(Stored(rows, row), granted[(row.workspace, row.sub) := text])
  {
    var rows' := Stored(rows, row);
    var at := RowOf(rows, row.workspace, row.sub);
    assert rows'[at] == row;
    forall key <- granted[(row.workspace, row.sub) := text] ensures RowOf(rows', key.0, key.1) < |rows'| {
      if key == (row.workspace, row.sub) {
        RowFound(rows', key.0, key.1, at);
      } else {
        var i := RowOf(rows, key.0, key.1);
        assert rows'[i] == rows[i];
        RowFound(rows', key.0, key.1, i);
      }
    }
  }

  lemma StoredReads(p: Primitives, c: Cipher, rows: seq<Connection>, granted: Tokens, row: Connection, text: string)
    requires OneRowEach(rows) && AllRead(p, c, rows, granted) && Reads(p, c, row, text)
    ensures AllRead(p, c, Stored(rows, row), granted[(row.workspace, row.sub) := text])
  {
    var at := RowOf(rows, row.workspace, row.sub);
    forall other <- Stored(rows, row) | other != row
      ensures other in rows && !Names(other, row.workspace, row.sub)
    {
      var i :| 0 <= i < |Stored(rows, row)| && Stored(rows, row)[i] == other;
      assert i != at && rows[i] == other;
      assert i > at ==> !Names(rows[i], rows[at].workspace, rows[at].sub);
    }
  }

  lemma StoredConsistent(p: Primitives, w: World, granted: Tokens, row: Connection, text: string)
    requires Consistent(p, w, granted) && Reads(p, w.cipher, row, text)
    ensures Consistent(p, w.(rows := Stored(w.rows, row)), granted[(row.workspace, row.sub) := text])
  {
    StoredKeepsRows(w.rows, granted, row, text);
    StoredReads(p, w.cipher, w.rows, granted, row, text);
  }

  lemma DeployConsistent(p: Primitives, w: World, granted: Tokens, c: Cipher)
    requires Consistent(p, w, granted) && Extends(w.cipher, c)
    ensures Consistent(p, w.(cipher := c), granted)
  {
    forall row <- w.rows
      ensures (row.workspace, row.sub) in granted && Reads(p, c, row, granted[(row.workspace, row.sub)])
    {
      assert Reads(p, w.cipher, row, granted[(row.workspace, row.sub)]);
    }
  }

  lemma RotateConsistent(p: Primitives, w: World, granted: Tokens, i: nat, nonce: seq<byte>)
    requires Lawful(p) && Consistent(p, w, granted) && i < |w.rows| && |nonce| == NONCE_BYTES
    requires i == RowOf(w.rows, w.rows[i].workspace, w.rows[i].sub)
    ensures Consistent(p, w.(rows := w.rows[i := Rotated(p, w.cipher, w.rows[i], nonce)]), granted)
  {
    var row := w.rows[i];
    var key := (row.workspace, row.sub);
    assert row in w.rows;
    var row' := Rotated(p, w.cipher, row, nonce);
    RotatedReads(p, w.cipher, row, nonce, granted[key]);
    assert row'.workspace == row.workspace && row'.sub == row.sub;
    StoredConsistent(p, w, granted, row', granted[key]);
    assert granted[key := granted[key]] == granted;
  }

  lemma UpsertConsistent(p: Primitives, w: World, granted: Tokens, ws: Uuid, s: string, g: Grant, nonce: seq<byte>, now: int)
    requires Lawful(p) && Consistent(p, w, granted) && g.refreshToken.Some? && |nonce| == NONCE_BYTES
    ensures Consistent(p, w.(rows := Stored(w.rows, FreshRow(p, w.cipher, ws, s, g, nonce, now))),
                       granted[(ws, s) := g.refreshToken.value])
  {
    FreshRowReads(p, w.cipher, ws, s, g, nonce, now);
    StoredConsistent(p, w, granted, FreshRow(p, w.cipher, ws, s, g, nonce, now), g.refreshToken.value);
  }

  lemma StepConsistent(p: Primitives, w: World, granted: Tokens, e: Event)
    requires Lawful(p) && Consistent(p, w, granted) && Admissible(w, e)
    ensures Consistent(p, Step(p, w, e), LastGranted(granted, e))
  {
    match e
    case Upsert(ws, s, g, nonce, now) =>
      if g.refreshToken.Some? {
        UpsertConsistent(p, w, granted, ws, s, g, nonce, now);
      }
    case RotateRow(ws, s, nonce) =>
      var i := RowOf(w.rows, ws, s);
      if i < |w.rows| {
        RotateConsistent(p, w, granted, i, nonce);
      }
    case Deploy(c) => DeployConsistent(p, w, granted, c);
  }

  ghost predicate AdmissibleRun(p: Primitives, w: World, events: seq<Event>)
    requires Valid(w.cipher)
    decreases |events|
  {
    events != [] ==>
      Admissible(w, events[0]) && AdmissibleRun(p, Step(p, w, events[0]), events[1..])
  }

  ghost function Run(p: Primitives, w: World, events: seq<Event>): World
    requires Valid(w.cipher) && AdmissibleRun(p, w, events)
    decreases |events|
  {
    if events == [] then w else Run(p, Step(p, w, events[0]), events[1..])
  }

  function Granted(granted: Tokens, events: seq<Event>): Tokens
    decreases |events|
  {
    if events == [] then granted else Granted(LastGranted(granted, events[0]), events[1..])
  }

  lemma {:induction false} RunConsistent(p: Primitives, w: World, granted: Tokens, events: seq<Event>)
    requires Lawful(p) && Consistent(p, w, granted) && AdmissibleRun(p, w, events)
    ensures Consistent(p, Run(p, w, events), Granted(granted, events))
    decreases |events|
  {
    if events != [] {
      StepConsistent(p, w, granted, events[0]);
      RunConsistent(p, Step(p, w, events[0]), LastGranted(granted, events[0]), events[1..]);
    }
  }

  /** Main result: after any run of authorisations, rotations and registry extensions that
      starts empty, a workspace and identity have a row exactly if a refresh token was granted;
      it is their only one, it decrypts to the last one granted, and its key-version column is
      the packed prefix. */
  lemma TokensSurvive(p: Primitives, c: Cipher, events: seq<Event>, ws: Uuid, s: string)
    requires Lawful(p) && Valid(c) && AdmissibleRun(p, World(c, []), events)
    ensures var w, granted := Run(p, World(c, []), events), Granted(map[], events);
            var i := RowOf(w.rows, ws, s);
            && ((ws, s) in granted <==> i < |w.rows|)
            && (i < |w.rows| ==>
                  && DecryptRefreshToken(p, w.rows[i], w.cipher) == Ok(granted[(ws, s)])
                  && w.rows[i].keyVersion == Unpack(w.rows[i].blob).value.keyVersion
                  && forall j | 0 <= j < |w.rows| && Names(w.rows[j], ws, s) :: j == i)
  {
    RunConsistent(p, World(c, []), map[], events);
    var w := Run(p, World(c, []), events);
    var i := RowOf(w.rows, ws, s);
    if i < |w.rows| {
      forall j | 0 <= j < |w.rows| && Names(w.rows[j], ws, s) ensures j == i {
        RowFound(w.rows, ws, s, j);
      }
    }
  }

  /** A blob moved to another workspace or identity no longer decrypts, and only then. */
  lemma MovedRowIsUnreadable(p: Primitives, c: Cipher, w: Uuid, s: string, g: Grant, nonce: seq<byte>, now: int, w': Uuid, s': string)
    requires Lawful(p) && Binding(p) && Valid(c) && g.refreshToken.Some? && |nonce| == NONCE_BYTES
    ensures var moved := FreshRow(p, c, w, s, g, nonce, now).(workspace := w', sub := s');
            && (DecryptRefreshToken(p, moved, c).Ok? <==> w == w' && s == s')
            && (DecryptRefreshToken(p, moved, c).Err? ==> DecryptRefreshToken(p, moved, c) == Err(BadTag))
  {
    UnpackInvertsPack(Encrypt(p, c, g.refreshToken.value, ConnectionAad(p, w, s), nonce));
    AadInjective(p, w, s, w', s');
  }
}
