/** Signed session cookies (backend/app/security/session.py): base64url of "user:issued-at",
    a dot, and the base64url of its HMAC. The HMAC is an arbitrary function of the secret and
    the encoded payload. */
module Session {
  import opened Common
  import opened Bytes
  import opened Base64Url
  import opened Uuids
  import Decimal

  type Mac = (string, string) -> seq<byte>

  function Sign(payload: string, secret: string, mac: Mac): string {
    B64e(mac(secret, payload))
  }

  function PayloadText(user: Uuid, issuedAt: nat): string {
    Uuids.Print(user) + ":" + Decimal.Print(issuedAt)
  }

  lemma PayloadTextIsAscii(user: Uuid, issuedAt: nat)
    ensures IsAscii(PayloadText(user, issuedAt))
  {
    Uuids.PrintWritten(user);
    var name, time, text := Uuids.Print(user), Decimal.Print(issuedAt), PayloadText(user, issuedAt);
    forall i | 0 <= i < |text| ensures text[i] as int < 128 {
      if i < |name| {
        assert text[i] == name[i] && name[i] in name;
      } else if i > |name| {
        assert text[i] == time[i - |name| - 1] && text[i] in time;
      }
    }
  }

  function EncodedPayload(user: Uuid, issuedAt: nat): string {
    PayloadTextIsAscii(user, issuedAt);
    B64e(Bytes.Encode(PayloadText(user, issuedAt)))
  }

  function IssueSession(user: Uuid, now: nat, secret: string, mac: Mac): string {
    EncodedPayload(user, now) + "." + Sign(EncodedPayload(user, now), secret, mac)
  }

  function Find(s: string, c: char): nat {
    if s == "" || s[0] == c then 0 else 1 + Find(s[1..], c)
  }

  lemma FindBounds(s: string, c: char)
    ensures Find(s, c) <= |s| && c !in s[..Find(s, c)]
    ensures Find(s, c) < |s| <==> c in s
    ensures Find(s, c) < |s| ==> s[Find(s, c)] == c
  {
  }

  function Count(s: string, c: char): nat {
    if s == "" then 0 else (if s[0] == c then 1 else 0) + Count(s[1..], c)
  }

  /** The first separator of a text; `None` when there is none. */
  function Cut(s: string, c: char): Option<(string, string)> {
    FindBounds(s, c);
    var i := Find(s, c);
    if i == |s| then None else Some((s[..i], s[i + 1..]))
  }

  /** The identity and the issue time a payload carries, when it is well formed. */
  function ReadPayload(payload: string): Option<(Uuid, nat)> {
    match B64d(payload)
    case None => None
    case Some(raw) =>
      match Bytes.Decode(raw)
      case None => None
      case Some(text) =>
        match Cut(text, ':')
        case None => None
        case Some((user, issued)) =>
          match (Decimal.Parse(issued), Uuids.Parse(user))
          case (Some(t), Some(u)) => Some((u, t))
          case _ => None
  }

  /** The comparison of signatures raises an error, which nobody catches, on text that is not ASCII. */
  datatype Error = SignatureNotAscii

  function ReadSession(cookie: Option<string>, secret: string, maxAge: int, now: int, mac: Mac): Result<Option<Uuid>, Error> {
    if cookie == None || cookie.value == "" || Count(cookie.value, '.') != 1 then Ok(None)
    else
      var halves := Cut(cookie.value, '.');
      if halves == None then Ok(None)
      else
        var (payload, sig) := halves.value;
        if !IsAscii(sig) then Err(SignatureNotAscii)
        else if sig != Sign(payload, secret, mac) then Ok(None)
        else match ReadPayload(payload)
          case None => Ok(None)
          case Some((user, issuedAt)) => if issuedAt + maxAge < now then Ok(None) else Ok(Some(user))
  }

  predicate Accepted(r: Result<Option<Uuid>, Error>) {
    r.Ok? && r.value.Some?
  }

  // ---------------------------------------------------------------- cutting

  lemma {:induction false} CountOfAppend(a: string, b: string, c: char)
    ensures Count(a + b, c) == Count(a, c) + Count(b, c)
  {
    if a == "" {
      assert a + b == b;
    } else {
      CountOfAppend(a[1..], b, c);
      assert (a + b)[1..] == a[1..] + b;
    }
  }

  lemma {:induction false} CountZero(s: string, c: char)
    ensures Count(s, c) == 0 <==> c !in s
  {
    if s != "" {
      CountZero(s[1..], c);
      assert s == [s[0]] + s[1..];
    }
  }

  lemma {:induction false} FindAfter(a: string, b: string, c: char)
    requires c !in a
    ensures Find(a + [c] + b, c) == |a|
  {
    if a != "" {
      FindAfter(a[1..], b, c);
      assert (a + [c] + b)[0] == a[0] && (a + [c] + b)[1..] == a[1..] + [c] + b;
    }
  }

  lemma CutAtFirst(a: string, b: string, c: char)
    requires c !in a
    ensures Cut(a + [c] + b, c) == Some((a, b))
    ensures Count(a + [c] + b, c) == 1 <==> c !in b
  {
    var s := a + [c] + b;
    FindAfter(a, b, c);
    assert s[..|a|] == a && s[|a| + 1..] == b;
    CountOfAppend(a + [c], b, c);
    CountOfAppend(a, [c], c);
    CountZero(a, c);
    CountZero(b, c);
    assert Count([c], c) == 1 by { assert [c][1..] == ""; }
  }

  lemma CutJoins(s: string, c: char)
    requires Cut(s, c).Some?
    ensures var (a, b) := Cut(s, c).value; s == a + [c] + b && c !in a
  {
    FindBounds(s, c);
  }

  // ---------------------------------------------------------------- results

  lemma SignatureHasNoDot(payload: string, secret: string, mac: Mac)
    ensures '.' !in Sign(payload, secret, mac) && IsAscii(Sign(payload, secret, mac))
  {
    PaddingRestored(mac(secret, payload));
    AlphabetIsAscii(Sign(payload, secret, mac));
  }

  lemma PayloadRoundTrip(user: Uuid, issuedAt: nat)
    ensures ReadPayload(EncodedPayload(user, issuedAt)) == Some((user, issuedAt))
    ensures '.' !in EncodedPayload(user, issuedAt)
  {
    var text := PayloadText(user, issuedAt);
    PayloadTextIsAscii(user, issuedAt);
    PaddingRestored(Bytes.Encode(text));
    RoundTrip(Bytes.Encode(text));
    Bytes.DecodeInvertsEncode(text);
    Uuids.ParseInvertsPrint(user);
    Uuids.PrintWritten(user);
    CutAtFirst(Uuids.Print(user), Decimal.Print(issuedAt), ':');
    Decimal.ParseInvertsPrint(issuedAt);
  }

  /** Main result, both directions: a cookie names a user exactly when it is a dot-free payload
      followed by the signature of that very payload, the payload is well formed, and it has
      not expired. */
  lemma AcceptedCookies(cookie: string, secret: string, maxAge: int, now: int, mac: Mac, user: Uuid)
    ensures ReadSession(Some(cookie), secret, maxAge, now, mac) == Ok(Some(user))
       <==> exists payload, issuedAt ::
              && '.' !in payload
              && cookie == payload + "." + Sign(payload, secret, mac)
              && ReadPayload(payload) == Some((user, issuedAt))
              && now <= issuedAt + maxAge
  {
    if ReadSession(Some(cookie), secret, maxAge, now, mac) == Ok(Some(user)) {
      CutJoins(cookie, '.');
      var payload := Cut(cookie, '.').value.0;
      var issuedAt := ReadPayload(payload).value.1;
      assert cookie == payload + "." + Sign(payload, secret, mac);
      assert ReadPayload(payload) == Some((user, issuedAt));
    }
    if payload, issuedAt :|
      && '.' !in payload
      && cookie == payload + "." + Sign(payload, secret, mac)
      && ReadPayload(payload) == Some((user, issuedAt))
      && now <= issuedAt + maxAge
    {
      SignatureHasNoDot(payload, secret, mac);
      CutAtFirst(payload, Sign(payload, secret, mac), '.');
    }
  }

  /** Reading raises exactly on two parts of which the second is not ASCII. */
  lemma RaisingCookies(cookie: string, secret: string, maxAge: int, now: int, mac: Mac)
    ensures ReadSession(Some(cookie), secret, maxAge, now, mac).Err?
       <==> exists payload, sig :: '.' !in payload && '.' !in sig && cookie == payload + "." + sig && !IsAscii(sig)
  {
    if ReadSession(Some(cookie), secret, maxAge, now, mac).Err? {
      CutJoins(cookie, '.');
      var (payload, sig) := Cut(cookie, '.').value;
      CutAtFirst(payload, sig, '.');
      assert payload + "." + sig == payload + ['.'] + sig;
    }
    if payload, sig :| '.' !in payload && '.' !in sig && cookie == payload + "." + sig && !IsAscii(sig) {
      CutAtFirst(payload, sig, '.');
    }
  }

  /** Main result: a cookie issued to a user names that user until it is `maxAge` old and
      nobody afterwards. */
  lemma SessionRoundTrip(user: Uuid, issuedAt: nat, secret: string, maxAge: int, now: int, mac: Mac)
    ensures ReadSession(Some(IssueSession(user, issuedAt, secret, mac)), secret, maxAge, now, mac)
         == Ok(if now <= issuedAt + maxAge then Some(user) else None)
  {
    var payload := EncodedPayload(user, issuedAt);
    PayloadRoundTrip(user, issuedAt);
    SignatureHasNoDot(payload, secret, mac);
    CutAtFirst(payload, Sign(payload, secret, mac), '.');
  }

  /** Reusing a signature for another payload is accepted only if the HMAC itself collides. */
  lemma AlteredPayloadNeedsCollision(p1: string, p2: string, sig: string, secret: string, maxAge: int, now: int, mac: Mac)
    requires '.' !in p1 && '.' !in p2 && p1 != p2
    requires Accepted(ReadSession(Some(p1 + "." + sig), secret, maxAge, now, mac))
    requires Accepted(ReadSession(Some(p2 + "." + sig), secret, maxAge, now, mac))
    ensures mac(secret, p1) == mac(secret, p2)
  {
    CutAtFirst(p1, sig, '.');
    CutAtFirst(p2, sig, '.');
    Base64Url.Injective(mac(secret, p1), mac(secret, p2));
  }

  /** Two issues share a cookie only if they are the same user at the same second. */
  lemma IssuedCookiesDiffer(u1: Uuid, t1: nat, u2: Uuid, t2: nat, secret: string, mac: Mac)
    requires IssueSession(u1, t1, secret, mac) == IssueSession(u2, t2, secret, mac)
    ensures u1 == u2 && t1 == t2
  {
    PayloadRoundTrip(u1, t1);
    PayloadRoundTrip(u2, t2);
    CutAtFirst(EncodedPayload(u1, t1), Sign(EncodedPayload(u1, t1), secret, mac), '.');
    CutAtFirst(EncodedPayload(u2, t2), Sign(EncodedPayload(u2, t2), secret, mac), '.');
  }
}
