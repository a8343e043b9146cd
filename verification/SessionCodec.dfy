/** Sealed cookies of native sign-in: the session, and the state of a login under way. */
module SessionCodecs {
  import opened Clock
  import opened Text
  import opened Base64
  import opened IdealCrypto

  const STATE_TTL: int := 600 * SECOND
  const MAX_COOKIE := 3800

  /** The largest payload whose cookie keeps to that limit. */
  const MAX_PAYLOAD := 2822

  const ZERO_TIME: int := -62_135_596_800 * SECOND

  /** Nanoseconds since 1970; `Unix` is the whole second. */
  function Unix(t: int): int {
    t / SECOND
  }

  datatype Session = Session(version: int, idToken: string, expires: int)

  datatype LoginState = LoginState(version: int, state: string, nonce: string, codeVerifier: string, expires: int)

  /** JSON text of the two payloads. */
  datatype Json = Json(
    printSession: Session -> seq<Byte>,
    parseSession: seq<Byte> -> Option<Session>,
    printState: LoginState -> seq<Byte>,
    parseState: seq<Byte> -> Option<LoginState>)
  {
    ghost predicate RoundTrips() {
      && (forall x :: parseSession(printSession(x)) == Some(x))
      && (forall x :: parseState(printState(x)) == Some(x))
    }
  }

  function AssociatedData(base: string, kind: string): string {
    base + ['\0'] + kind
  }

  function Frame(d: Draw): string {
    Encode(d.nonce + d.body)
  }

  function OpenValue(l: Ledger, base: string, value: string, kind: string): Option<seq<Byte>> {
    if value == "" || |value| > MAX_COOKIE then None
    else
      var sealed := Decode(value);
      if sealed.None? || |sealed.value| < NONCE_SIZE then None
      else Open(l, sealed.value[..NONCE_SIZE], sealed.value[NONCE_SIZE..], AssociatedData(base, kind))
  }

  /** A cookie of at most 3800 characters opens under its own kind alone, now and however the ledger grows. */
  lemma FrameOpens(l: Ledger, base: string, d: Draw, plain: seq<Byte>, kind: string, other: string)
    requires |d.nonce| == NONCE_SIZE && |d.body| == |plain| + TAG_SIZE
    requires d.nonce in l && l[d.nonce] == Sealed(AssociatedData(base, kind), plain, d.body)
    requires |Frame(d)| <= MAX_COOKIE
    ensures OpenValue(l, base, Frame(d), other) == if other == kind then Some(plain) else None
  {
    DecodeEncode(d.nonce + d.body);
    assert (d.nonce + d.body)[..NONCE_SIZE] == d.nonce;
    assert (d.nonce + d.body)[NONCE_SIZE..] == d.body;
    if AssociatedData(base, kind) == AssociatedData(base, other) {
      assert kind == AssociatedData(base, kind)[|base| + 1..];
      assert other == AssociatedData(base, other)[|base| + 1..];
    }
  }

  /** Whatever opens was sealed under the same kind. */
  lemma OpensOnlySealed(l: Ledger, base: string, value: string, kind: string)
    requires OpenValue(l, base, value, kind).Some?
    ensures exists n :: n in l && l[n].aad == AssociatedData(base, kind)
                        && OpenValue(l, base, value, kind) == Some(l[n].plain)
  {
  }

  /** And it was small enough for a cookie. */
  lemma OpensOnlyFitting(l: Ledger, base: string, value: string, kind: string)
    requires WellSized(l) && OpenValue(l, base, value, kind).Some?
    ensures |OpenValue(l, base, value, kind).value| <= MAX_PAYLOAD
  {
    DecodedLength(value);
  }

  /** No value opens under two kinds. */
  lemma KindsApart(l: Ledger, base: string, value: string, kind: string, other: string)
    requires OpenValue(l, base, value, kind).Some? && OpenValue(l, base, value, other).Some?
    ensures kind == other
  {
    assert AssociatedData(base, kind) == AssociatedData(base, other);
    assert kind == AssociatedData(base, kind)[|base| + 1..];
    assert other == AssociatedData(base, other)[|base| + 1..];
  }

  function OpenSessionIn(l: Ledger, base: string, json: Json, value: string, now: int): Option<Session> {
    var plain := OpenValue(l, base, value, "session");
    var payload := if plain.None? then None else json.parseSession(plain.value);
    if payload.None? || payload.value.version != 1 || payload.value.idToken == "" || payload.value.expires <= Unix(now)
    then None else payload
  }

  function OpenStateIn(l: Ledger, base: string, json: Json, value: string, now: int): Option<LoginState> {
    var plain := OpenValue(l, base, value, "oauth-state");
    var payload := if plain.None? then None else json.parseState(plain.value);
    if payload.None? || payload.value.version != 1 || payload.value.state == "" || payload.value.nonce == ""
       || payload.value.codeVerifier == "" || payload.value.expires <= Unix(now)
    then None else payload
  }

  /** However the ledger grows, a sealed session opens to itself until its expiry, and never as a login state. */
  lemma SessionOpens(l: Ledger, base: string, json: Json, d: Draw, payload: Session)
    requires json.RoundTrips() && |d.nonce| == NONCE_SIZE && |d.body| == |json.printSession(payload)| + TAG_SIZE
    requires d.nonce in l && l[d.nonce] == Sealed(AssociatedData(base, "session"), json.printSession(payload), d.body)
    requires |Frame(d)| <= MAX_COOKIE && payload.version == 1 && payload.idToken != ""
    ensures forall l', now :: Extends(l, l') ==>
      OpenSessionIn(l', base, json, Frame(d), now) == if Unix(now) < payload.expires then Some(payload) else None
    ensures forall l', now :: Extends(l, l') ==> OpenStateIn(l', base, json, Frame(d), now) == None
  {
    forall l' | Extends(l, l')
      ensures OpenValue(l', base, Frame(d), "session") == Some(json.printSession(payload))
      ensures OpenValue(l', base, Frame(d), "oauth-state") == None
    {
      FrameOpens(l', base, d, json.printSession(payload), "session", "session");
      FrameOpens(l', base, d, json.printSession(payload), "session", "oauth-state");
    }
  }

  /** The same for a sealed login state. */
  lemma StateOpens(l: Ledger, base: string, json: Json, d: Draw, payload: LoginState)
    requires json.RoundTrips() && |d.nonce| == NONCE_SIZE && |d.body| == |json.printState(payload)| + TAG_SIZE
    requires d.nonce in l && l[d.nonce] == Sealed(AssociatedData(base, "oauth-state"), json.printState(payload), d.body)
    requires |Frame(d)| <= MAX_COOKIE
    requires payload.version == 1 && payload.state != "" && payload.nonce != "" && payload.codeVerifier != ""
    ensures forall l', now :: Extends(l, l') ==>
      OpenStateIn(l', base, json, Frame(d), now) == if Unix(now) < payload.expires then Some(payload) else None
    ensures forall l', now :: Extends(l, l') ==> OpenSessionIn(l', base, json, Frame(d), now) == None
  {
    forall l' | Extends(l, l')
      ensures OpenValue(l', base, Frame(d), "oauth-state") == Some(json.printState(payload))
      ensures OpenValue(l', base, Frame(d), "session") == None
    {
      FrameOpens(l', base, d, json.printState(payload), "oauth-state", "oauth-state");
      FrameOpens(l', base, d, json.printState(payload), "oauth-state", "session");
    }
  }

  lemma WholeSeconds(now: int, later: int)
    ensures Unix(later) < Unix(now + STATE_TTL) <==> later < now - now % SECOND + STATE_TTL
  {
    assert Unix(now + STATE_TTL) == Unix(now) + 600;
  }

  class SessionCodec {
    const base: string
    const json: Json
    var ledger: Ledger

    constructor (basePath: string, json: Json)
      ensures base == "grafana-mcp-native-oidc-v1" + ['\0'] + basePath && this.json == json && ledger == map[]
    {
      this.base := "grafana-mcp-native-oidc-v1" + ['\0'] + basePath;
      this.json := json;
      ledger := map[];
    }

    /** `draw` is None when the random source fails. The size is checked after sealing. */
    method Seal(payload: seq<Byte>, kind: string, draw: Option<Draw>) returns (r: Option<string>)
      requires draw.Some? ==> Usable(ledger, draw.value, payload)
      modifies this`ledger
      ensures ledger == if draw.None? then old(ledger)
                        else old(ledger)[draw.value.nonce := Sealed(AssociatedData(base, kind), payload, draw.value.body)]
      ensures r.Some? <==> draw.Some? && |payload| <= MAX_PAYLOAD
      ensures r.Some? ==> r.value == Frame(draw.value) && |r.value| <= MAX_COOKIE
    {
      if draw.None? {
        return None;
      }
      ledger := ledger[draw.value.nonce := Sealed(AssociatedData(base, kind), payload, draw.value.body)];
      var encoded := Encode(draw.value.nonce + draw.value.body);
      if |encoded| > MAX_COOKIE {
        return None;
      }
      return Some(encoded);
    }

    function OpenState(value: string, now: int): Option<LoginState>
      reads this`ledger
    {
      OpenStateIn(ledger, base, json, value, now)
    }

    /** A sealed session opens to itself until its expiry, and never as a login state. */
    method SealSession(idToken: string, expires: int, draw: Option<Draw>) returns (r: Option<string>)
      requires json.RoundTrips()
      requires draw.Some? ==> Usable(ledger, draw.value, json.printSession(Session(1, idToken, Unix(expires))))
      modifies this`ledger
      ensures Extends(old(ledger), ledger) && (WellSized(old(ledger)) ==> WellSized(ledger))
      ensures r.Some? <==> idToken != "" && expires != ZERO_TIME && draw.Some?
                           && |json.printSession(Session(1, idToken, Unix(expires)))| <= MAX_PAYLOAD
      ensures r.Some? ==> forall l, now :: Extends(ledger, l) ==>
        OpenSessionIn(l, base, json, r.value, now)
        == if Unix(now) < Unix(expires) then Some(Session(1, idToken, Unix(expires))) else None
      ensures r.Some? ==> forall l, now :: Extends(ledger, l) ==> OpenStateIn(l, base, json, r.value, now) == None
      ensures forall n :: n in ledger && n !in old(ledger) ==> ledger[n].aad == AssociatedData(base, "session")
    {
      if idToken == "" || expires == ZERO_TIME {
        return None;
      }
      var payload := Session(1, idToken, Unix(expires));
      r := Seal(json.printSession(payload), "session", draw);
      if r.Some? {
        SessionOpens(ledger, base, json, draw.value, payload);
      }
    }

    /** A sealed login state opens to itself for ten minutes, and never as a session. */
    method SealState(state: string, nonce: string, codeVerifier: string, now: int, draw: Option<Draw>)
      returns (r: Option<string>)
      requires json.RoundTrips()
      requires draw.Some? ==> Usable(ledger, draw.value,
                                json.printState(LoginState(1, state, nonce, codeVerifier, Unix(now + STATE_TTL))))
      modifies this`ledger
      ensures Extends(old(ledger), ledger) && (WellSized(old(ledger)) ==> WellSized(ledger))
      ensures var payload := LoginState(1, state, nonce, codeVerifier, Unix(now + STATE_TTL));
        && (r.Some? <==> state != "" && nonce != "" && codeVerifier != "" && draw.Some?
                         && |json.printState(payload)| <= MAX_PAYLOAD)
        && (r.Some? ==> forall l, later :: Extends(ledger, l) ==>
              OpenStateIn(l, base, json, r.value, later)
              == if later < now - now % SECOND + STATE_TTL then Some(payload) else None)
        && (r.Some? ==> forall l, later :: Extends(ledger, l) ==> OpenSessionIn(l, base, json, r.value, later) == None)
        && (forall n :: n in ledger && n !in old(ledger) ==>
              ledger[n].aad == AssociatedData(base, "oauth-state") && ledger[n].plain == json.printState(payload)
              && (r.None? ==> |ledger[n].plain| > MAX_PAYLOAD))
    {
      if state == "" || nonce == "" || codeVerifier == "" {
        return None;
      }
      var payload := LoginState(1, state, nonce, codeVerifier, Unix(now + STATE_TTL));
      r := Seal(json.printState(payload), "oauth-state", draw);
      if r.Some? {
        StateOpens(ledger, base, json, draw.value, payload);
        forall later {
          WholeSeconds(now, later);
        }
      }
    }
  }
}
