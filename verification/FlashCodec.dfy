/** The flash cookie that delivers a new token, and the CSRF token of the forms. */
module FlashCodecs {
  import opened Clock
  import opened Text
  import opened Base64
  import opened IdealCrypto
  import opened SessionCodecs

  datatype Payload = Payload(
    version: int, email: string, token: string, expires: int, tokenCreated: int, tokenExpires: int, partial: bool)

  datatype PayloadJson = PayloadJson(marshal: Payload -> seq<Byte>, unmarshal: seq<Byte> -> Option<Payload>) {
    ghost predicate RoundTrips() {
      forall x :: unmarshal(marshal(x)) == Some(x)
    }
  }

  /** What `prepare` settles before anything is issued: the nonce and the cookie's expiry. */
  datatype Prepared = Prepared(nonce: seq<Byte>, expires: int)

  datatype Opened = Opened(token: string, partial: bool, tokenCreated: int, tokenExpires: Option<int>)

  function OpenFlash(l: Ledger, aad: string, json: PayloadJson, value: string, email: string, now: int): Option<Opened> {
    var sealed := Decode(value);
    if sealed.None? || |sealed.value| < NONCE_SIZE then None
    else
      var plain := Open(l, sealed.value[..NONCE_SIZE], sealed.value[NONCE_SIZE..], aad);
      var payload := if plain.None? then None else json.unmarshal(plain.value);
      if payload.None? || payload.value.version != 1 || payload.value.token == "" || payload.value.email != email
         || Unix(now) >= payload.value.expires
      then None
      else
        var p := payload.value;
        Some(Opened(p.token, p.partial, p.tokenCreated * SECOND, UnixTime(p.tokenExpires)))
  }

  /** A token's expiry is shown to the second; before 1970 it is not shown. */
  predicate ShowsExpiry(shown: Option<int>, expires: Option<int>) {
    if expires.Some? && expires.value >= SECOND then shown == Some(WholeSecond(expires.value)) else shown.None?
  }

  /** While the ledger grows, a flash cookie that was sealed opens for its own email until its expiry. */
  lemma SealedOpens(l: Ledger, aad: string, json: PayloadJson, d: Draw, p: Payload, email: string, now: int)
    requires json.RoundTrips() && |d.nonce| == NONCE_SIZE
    requires d.nonce in l && l[d.nonce] == Sealed(aad, json.marshal(p), d.body)
    ensures OpenFlash(l, aad, json, Frame(d), email, now) ==
      if p.version == 1 && p.token != "" && p.email == email && Unix(now) < p.expires
      then Some(Opened(p.token, p.partial, p.tokenCreated * SECOND, UnixTime(p.tokenExpires))) else None
  {
    DecodeEncode(d.nonce + d.body);
    assert (d.nonce + d.body)[..NONCE_SIZE] == d.nonce;
    assert (d.nonce + d.body)[NONCE_SIZE..] == d.body;
  }

  // ----- CSRF

  /** A CSRF token that was handed out. */
  datatype Printed = Printed(email: string, expires: int, nonce: seq<Byte>)

  function CsrfPayload(expires: int, nonce: seq<Byte>): string {
    FormatInt(expires, 10) + "." + Encode(nonce)
  }

  function CsrfMessage(email: string, payload: string): string {
    email + ['\0'] + payload
  }

  function CsrfToken(p: Printed, tag: seq<Byte>): string {
    CsrfPayload(p.expires, p.nonce) + "." + Encode(tag)
  }

  function AcceptsCsrf(macs: Macs, value: string, email: string, now: int): bool {
    var parts := Split(value, '.');
    if |parts| != 3 then false
    else
      var exp := ParseInt(parts[0]);
      if exp.None? || Unix(now) >= exp.value then false
      else
        var message := CsrfMessage(email, parts[0] + "." + parts[1]);
        var got := Decode(parts[2]);
        got.Some? && message in macs && macs[message] == got.value
  }

  /** Every message that was authenticated is that of a printed token. */
  ghost predicate MacsPrinted(macs: Macs, printed: set<Printed>) {
    forall m :: m in macs ==> exists p :: p in printed && m == CsrfMessage(p.email, CsrfPayload(p.expires, p.nonce))
  }

  lemma NoDots(expires: int, bytes: seq<Byte>)
    ensures '.' !in FormatInt(expires, 10) && '.' !in Encode(bytes)
  {
    FormatPlain(expires, 10);
    assert SymbolValue('.').None? && DigitValue('.').None?;
  }

  lemma ThreeParts(a: string, b: string, c: string, sep: char)
    requires sep !in a && sep !in b && sep !in c
    ensures Split(a + [sep] + b + [sep] + c, sep) == [a, b, c]
  {
    Reassociate(a, b, c, sep);
    SplitFirst(a, b + [sep] + c, sep);
    SplitFirst(b, c, sep);
    Three(a, b, c);
  }

  lemma Three(a: string, b: string, c: string)
    ensures [a] + ([b] + [c]) == [a, b, c]
  {
  }

  lemma Reassociate(a: string, b: string, c: string, sep: char)
    ensures a + [sep] + b + [sep] + c == a + [sep] + (b + [sep] + c)
  {
  }

  /** A printed token splits into its expiry, its nonce and its code. */
  lemma CsrfSplits(p: Printed, tag: seq<Byte>)
    ensures Split(CsrfToken(p, tag), '.') == [FormatInt(p.expires, 10), Encode(p.nonce), Encode(tag)]
  {
    NoDots(p.expires, p.nonce);
    NoDots(p.expires, tag);
    ThreeParts(FormatInt(p.expires, 10), Encode(p.nonce), Encode(tag), '.');
  }

  /** It is accepted for its own email exactly until its expiry. */
  lemma CsrfAccepted(macs: Macs, p: Printed, tag: seq<Byte>, now: int)
    requires MIN_INT64 <= p.expires <= MAX_INT64
    requires var m := CsrfMessage(p.email, CsrfPayload(p.expires, p.nonce)); m in macs && macs[m] == tag
    ensures AcceptsCsrf(macs, CsrfToken(p, tag), p.email, now) <==> Unix(now) < p.expires
  {
    CsrfSplits(p, tag);
    ParseFormat(p.expires);
    DecodeEncode(tag);
  }

  /**
   Whatever is accepted for an email without NUL carries the expiry and nonce of a token printed for that
   very email, so a token is accepted for no email but its own.
   */
  lemma CsrfOnlyPrinted(macs: Macs, printed: set<Printed>, value: string, email: string, now: int) returns (p: Printed)
    requires MacsPrinted(macs, printed) && '\0' !in email && (forall q :: q in printed ==> '\0' !in q.email)
    requires AcceptsCsrf(macs, value, email, now)
    ensures p in printed && p.email == email
    ensures var parts := Split(value, '.');
      |parts| == 3 && parts[0] + "." + parts[1] == CsrfPayload(p.expires, p.nonce)
  {
    var parts := Split(value, '.');
    var message := CsrfMessage(email, parts[0] + "." + parts[1]);
    p :| p in printed && message == CsrfMessage(p.email, CsrfPayload(p.expires, p.nonce));
    FirstSplit(email, parts[0] + "." + parts[1], p.email, CsrfPayload(p.expires, p.nonce), '\0');
  }

  /** With distinct nonces, a printed token is accepted for no email but the one it was printed for. */
  lemma CsrfForNoOther(macs: Macs, printed: set<Printed>, p: Printed, tag: seq<Byte>, email: string, now: int)
    requires MacsPrinted(macs, printed) && '\0' !in email && (forall q :: q in printed ==> '\0' !in q.email)
    requires p in printed && forall q :: q in printed && q.nonce == p.nonce ==> q == p
    requires AcceptsCsrf(macs, CsrfToken(p, tag), email, now)
    ensures email == p.email
  {
    var q := CsrfOnlyPrinted(macs, printed, CsrfToken(p, tag), email, now);
    CsrfSplits(p, tag);
    NoDots(p.expires, []);
    NoDots(q.expires, []);
    FirstSplit(FormatInt(p.expires, 10), Encode(p.nonce), FormatInt(q.expires, 10), Encode(q.nonce), '.');
    DecodeEncode(p.nonce);
    DecodeEncode(q.nonce);
  }

  class FlashCodec {
    const aad: string
    const json: PayloadJson
    const ttl: int
    var ledger: Ledger
    var macs: Macs
    ghost var printed: set<Printed>

    constructor (basePath: string, json: PayloadJson, ttl: int)
      ensures aad == "grafana-mcp-flash-v1" + ['\0'] + basePath && this.json == json && this.ttl == ttl
      ensures ledger == map[] && macs == map[] && printed == {}
    {
      aad := "grafana-mcp-flash-v1" + ['\0'] + basePath;
      this.json := json;
      this.ttl := ttl;
      ledger := map[];
      macs := map[];
      printed := {};
    }

    /** `nonce` is None when the random source fails. */
    function Prepare(nonce: Option<seq<Byte>>, now: int): Option<Prepared> {
      if nonce.None? then None else Some(Prepared(nonce.value, Unix(now + ttl)))
    }

    function PayloadOf(prepared: Prepared, email: string, token: string, partial: bool,
                       created: int, tokenExpires: Option<int>): Payload {
      Payload(1, email, token, prepared.expires, Unix(created),
              if tokenExpires.None? then 0 else Unix(tokenExpires.value), partial)
    }

    /** Sealing cannot fail once prepared; from then on the cookie opens for this email alone, until the prepared expiry. */
    method SealPrepared(prepared: Prepared, email: string, token: string, partial: bool,
                        created: int, tokenExpires: Option<int>, body: seq<Byte>) returns (cookie: string)
      requires json.RoundTrips()
      requires Usable(ledger, Draw(prepared.nonce, body),
                      json.marshal(PayloadOf(prepared, email, token, partial, created, tokenExpires)))
      modifies this`ledger
      ensures ledger == old(ledger)[prepared.nonce :=
        Sealed(aad, json.marshal(PayloadOf(prepared, email, token, partial, created, tokenExpires)), body)]
      ensures cookie == Frame(Draw(prepared.nonce, body))
      ensures forall l, who, now :: Extends(ledger, l) ==> var shown := OpenFlash(l, aad, json, cookie, who, now);
        && (shown.Some? <==> token != "" && who == email && Unix(now) < prepared.expires)
        && (shown.Some? ==>
              && shown.value.token == token && shown.value.partial == partial
              && shown.value.tokenCreated == WholeSecond(created)
              && ShowsExpiry(shown.value.tokenExpires, tokenExpires))
    {
      var payload := PayloadOf(prepared, email, token, partial, created, tokenExpires);
      ledger := ledger[prepared.nonce := Sealed(aad, json.marshal(payload), body)];
      cookie := Encode(prepared.nonce + body);
      forall l, who, now | Extends(ledger, l) {
        SealedOpens(l, aad, json, Draw(prepared.nonce, body), payload, who, now);
      }
    }

    /** `nonce` is None when the random source fails; `code` is what the MAC answers for a new message. */
    method Csrf(email: string, nonce: Option<seq<Byte>>, now: int, code: seq<Byte>) returns (token: Option<string>)
      requires MIN_INT64 <= Unix(now + ttl) <= MAX_INT64
      requires MacsPrinted(macs, printed)
      modifies this`macs, this`printed
      ensures MacsPrinted(macs, printed) && (forall m :: m in old(macs) ==> m in macs && macs[m] == old(macs)[m])
      ensures token.Some? <==> nonce.Some?
      ensures nonce.Some? ==> printed == old(printed) + {Printed(email, Unix(now + ttl), nonce.value)}
      ensures token.Some? ==> forall later :: AcceptsCsrf(macs, token.value, email, later) <==> Unix(later) < Unix(now + ttl)
    {
      if nonce.None? {
        return None;
      }
      var payload := CsrfPayload(Unix(now + ttl), nonce.value);
      var message := CsrfMessage(email, payload);
      if message !in macs {
        macs := macs[message := code];
      }
      ghost var p := Printed(email, Unix(now + ttl), nonce.value);
      printed := printed + {p};
      forall m | m in macs
        ensures exists q :: q in printed && m == CsrfMessage(q.email, CsrfPayload(q.expires, q.nonce))
      {
        if m in old(macs) {
          var q :| q in old(printed) && m == CsrfMessage(q.email, CsrfPayload(q.expires, q.nonce));
          assert q in printed;
        } else {
          assert p in printed && m == CsrfMessage(p.email, CsrfPayload(p.expires, p.nonce));
        }
      }
      forall later {
        CsrfAccepted(macs, p, macs[message], later);
      }
      return Some(payload + "." + Encode(macs[message]));
    }
  }

  /** The flash cookie and the session cookies of one deployment can share a key: their associated data differ. */
  lemma FlashIsNoSession(flash: FlashCodec, session: SessionCodec, flashBase: string, sessionBase: string, kind: string)
    requires flash.aad == "grafana-mcp-flash-v1" + ['\0'] + flashBase
    requires session.base == "grafana-mcp-native-oidc-v1" + ['\0'] + sessionBase
    ensures flash.aad != AssociatedData(session.base, kind)
  {
    assert flash.aad[12] == 'f' && AssociatedData(session.base, kind)[12] == 'n';
  }
}
