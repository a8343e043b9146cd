/** Native sign-in as a server that handles logins and callbacks in any order. */
module Logins {
  import opened Text
  import opened IdealCrypto
  import opened SessionCodecs

  /** A login that was started: what its cookie carries, and when. */
  datatype Login = Login(state: string, nonce: string, codeVerifier: string, at: int)

  /** A session cookie that was set, and everything the callback based it on. */
  datatype Signed = Signed(state: string, claimedNonce: string, codeVerifier: string, email: string, groups: seq<string>,
                           openedAt: int, at: int, tokenExpiry: int, expires: int, ttl: int)

  /** An ID token whose signature, issuer and audience verified. */
  datatype IdToken = IdToken(nonce: string, email: string, groups: seq<string>, expiry: int)

  datatype CallbackRequest = CallbackRequest(error: string, state: string, code: string, cookie: Option<string>)

  datatype Reply = Redirected | Forbidden | Failed

  /**
   What comes in: a login with the values drawn for it, or a callback with any cookie and any ID token that verified;
   `after` and `wait` are how long after the previous request, and how long until its session is sealed.
   */
  datatype Request =
    | Begin(after: nat, state: Option<string>, nonce: Option<string>, codeVerifier: Option<string>, draw: Option<Draw>)
    | Answer(after: nat, wait: nat, request: CallbackRequest, rawToken: string, verified: Option<IdToken>, draw: Option<Draw>)

  /** One of the first requests was answered with a cookie for this login. */
  ghost predicate WasServed(requests: seq<Request>, replies: seq<Reply>, l: Login)
    requires |replies| <= |requests|
  {
    exists i {:trigger replies[i]} :: 0 <= i < |replies| && IsFor(requests[i], replies[i], l)
  }

  /** This request was answered with a cookie for this login. */
  predicate IsFor(r: Request, reply: Reply, l: Login) {
    r.Begin? && reply == Redirected && (r.state, r.nonce, r.codeVerifier) == (Some(l.state), Some(l.nonce), Some(l.codeVerifier))
  }

  /** Random states do not repeat. */
  ghost predicate DistinctStates(requests: seq<Request>) {
    forall i, j :: 0 <= i < j < |requests| && requests[i].Begin? && requests[j].Begin? && requests[i].state.Some? ==>
      requests[i].state != requests[j].state
  }

  /** A login request that is answered with a cookie adds its login; nothing else does. */
  ghost predicate AddsLogin(before: set<Login>, after: set<Login>, r: Request, reply: Reply) {
    if r.Begin? && reply == Redirected then exists l :: IsFor(r, reply, l) && after == before + {l} else after == before
  }

  ghost predicate OneLoginPerState(logins: set<Login>) {
    forall l, l' :: l in logins && l' in logins && l.state == l'.state ==> l == l'
  }

  /** Draws are those of the ideal cipher; any other counts as a failed one. */
  function Fitting(ledger: Ledger, draw: Option<Draw>, payload: seq<Byte>): Option<Draw> {
    if draw.Some? && Usable(ledger, draw.value, payload) then draw else None
  }

  function Count(s: string, c: char): nat {
    if s == "" then 0 else (if s[0] == c then 1 else 0) + Count(s[1..], c)
  }

  /** `validEmail`: some name, one at sign, some host, and no blanks; at most 254 bytes. */
  predicate ValidEmail(email: string) {
    && 0 < |Utf8(email)| <= 254 && Count(email, '@') == 1
    && '@' in email && 0 < IndexOf(email, '@') < |email| - 1
    && ' ' !in email && '\t' !in email && '\r' !in email && '\n' !in email && '\0' !in email
  }

  lemma {:induction false} CountNone(s: string, c: char)
    ensures Count(s, c) == 0 <==> c !in s
  {
    if s != "" {
      CountNone(s[1..], c);
      assert s == [s[0]] + s[1..];
    }
  }

  lemma {:induction false} CountConcat(a: string, b: string, c: char)
    ensures Count(a + b, c) == Count(a, c) + Count(b, c)
  {
    if a == "" {
      assert a + b == b;
    } else {
      assert (a + b)[1..] == a[1..] + b;
      CountConcat(a[1..], b, c);
    }
  }

  /** Counting and cutting at the first at sign say that there is one place where the address divides. */
  lemma EmailDivides(email: string)
    ensures ValidEmail(email) <==>
      && 0 < |Utf8(email)| <= 254
      && (exists i :: 0 < i < |email| - 1 && email[i] == '@' && '@' !in email[..i] && '@' !in email[i + 1..])
      && forall c :: c in email ==> c !in [' ', '\t', '\r', '\n', '\0']
  {
    forall i | 0 <= i < |email| && email[i] == '@' && '@' !in email[..i]
      ensures i == IndexOf(email, '@')
      ensures Count(email, '@') == 1 <==> '@' !in email[i + 1..]
    {
      var (a, b) := (email[..i], email[i + 1..]);
      assert email == a + ['@'] + b;
      CountConcat(a + ['@'], b, '@');
      CountConcat(a, ['@'], '@');
      CountNone(a, '@');
      CountNone(b, '@');
      assert Count(['@'], '@') == 1 + Count("", '@');
      assert email == email[..IndexOf(email, '@')] + ['@'] + email[IndexOf(email, '@') + 1..];
      FirstSplit(a, b, email[..IndexOf(email, '@')], email[IndexOf(email, '@') + 1..], '@');
    }
  }

  predicate AnyIn(wanted: seq<string>, groups: seq<string>): (b: bool)
    ensures b <==> exists g :: g in wanted && g in groups
  {
    if wanted == [] then false
    else
      assert wanted == [wanted[0]] + wanted[1..];
      wanted[0] in groups || AnyIn(wanted[1..], groups)
  }

  /** At least one required group, when any is required. */
  predicate HasGroup(required: seq<string>, groups: seq<string>): (b: bool)
    ensures b <==> required == [] || exists g :: g in required && g in groups
  {
    |required| == 0 || AnyIn(required, groups)
  }

  /**
   What a session rests on: a login less than ten minutes before its state was opened again, with the same
   state, nonce and code verifier, and the earlier of both expiries.
   */
  predicate Justified(l: Login, s: Signed) {
    && l.state == s.state && l.nonce == s.claimedNonce && l.codeVerifier == s.codeVerifier
    && l.at <= s.openedAt < l.at + STATE_TTL && s.openedAt <= s.at
    && s.expires <= Unix(s.at + s.ttl) && s.expires <= Unix(s.tokenExpiry)
    && s.expires in [Unix(s.at + s.ttl), Unix(s.tokenExpiry)]
  }

  function StateOf(l: Login): LoginState {
    LoginState(1, l.state, l.nonce, l.codeVerifier, Unix(l.at + STATE_TTL))
  }

  /** Every sealed login state that fits a cookie is that of some login. */
  ghost predicate StatesFrom(ledger: Ledger, aad: string, json: Json, logins: set<Login>) {
    forall n :: n in ledger && ledger[n].aad == aad && |ledger[n].plain| <= MAX_PAYLOAD ==>
      exists l :: l in logins && ledger[n].plain == json.printState(StateOf(l))
  }

  lemma StatesGrow(ledger: Ledger, ledger': Ledger, aad: string, json: Json, logins: set<Login>, added: set<Login>)
    requires StatesFrom(ledger, aad, json, logins) && Extends(ledger, ledger')
    requires forall n :: n in ledger' && n !in ledger && ledger'[n].aad == aad && |ledger'[n].plain| <= MAX_PAYLOAD ==>
      exists l :: l in added && ledger'[n].plain == json.printState(StateOf(l))
    ensures StatesFrom(ledger', aad, json, logins + added)
  {
    forall n | n in ledger' && ledger'[n].aad == aad && |ledger'[n].plain| <= MAX_PAYLOAD
      ensures exists l :: l in logins + added && ledger'[n].plain == json.printState(StateOf(l))
    {
      var from := if n in ledger then logins else added;
      var l :| l in from && ledger'[n].plain == json.printState(StateOf(l));
      assert l in logins + added;
    }
  }

  /** However the ledger grows, the cookie opens to this session until its expiry. */
  ghost predicate OpensTo(ledger: Ledger, base: string, json: Json, cookie: string, session: Session) {
    forall l, t :: Extends(ledger, l) ==>
      OpenSessionIn(l, base, json, cookie, t) == if Unix(t) < session.expires then Some(session) else None
  }

  /** Every session rests on one of these logins, and is that of a member of a required group. */
  ghost predicate AllRest(sessions: seq<Signed>, logins: set<Login>, ttl: int, required: seq<string>) {
    forall s :: s in sessions ==>
      s.ttl == ttl && ValidEmail(s.email) && HasGroup(required, s.groups) && exists l :: l in logins && Justified(l, s)
  }

  /** The session of this login, for the identity of this token. */
  function SignedBy(l: Login, token: IdToken, openedAt: int, at: int, expires: int, ttl: int): Signed {
    Signed(l.state, token.nonce, l.codeVerifier, token.email, token.groups, openedAt, at, token.expiry, Unix(expires), ttl)
  }

  lemma OneMoreSession(sessions: seq<Signed>, logins: set<Login>, ttl: int, required: seq<string>, l: Login, token: IdToken,
                       openedAt: int, at: int, expires: int)
    requires AllRest(sessions, logins, ttl, required) && l in logins && ValidEmail(token.email) && token.nonce == l.nonce
    requires HasGroup(required, token.groups)
    requires l.at <= openedAt < l.at + STATE_TTL && openedAt <= at
    requires expires <= at + ttl && expires <= token.expiry && expires in [at + ttl, token.expiry]
    ensures AllRest(sessions + [SignedBy(l, token, openedAt, at, expires, ttl)], logins, ttl, required)
  {
    assert Justified(l, SignedBy(l, token, openedAt, at, expires, ttl));
  }

  class SignIn {
    const codec: SessionCodec
    const ttl: int
    const requiredGroups: seq<string>
    var clock: int
    ghost var logins: set<Login>
    ghost var sessions: seq<Signed>

    constructor (codec: SessionCodec, ttl: int, requiredGroups: seq<string>)
      requires codec.json.RoundTrips() && codec.ledger == map[] && 0 < ttl
      ensures Valid() && this.codec == codec && this.ttl == ttl && this.requiredGroups == requiredGroups
      ensures logins == {} && sessions == []
    {
      this.codec := codec;
      this.ttl := ttl;
      this.requiredGroups := requiredGroups;
      clock := 0;
      logins := {};
      sessions := [];
    }

    ghost predicate Valid()
      reads this, codec
    {
      && codec.json.RoundTrips() && WellSized(codec.ledger)
      && 0 < ttl
      && StatesFrom(codec.ledger, AssociatedData(codec.base, "oauth-state"), codec.json, logins)
      && (forall l :: l in logins ==> l.at <= clock)
      && AllRest(sessions, logins, ttl, requiredGroups)
    }

    /** The state that a cookie opens to was sealed by a login of the last ten minutes. */
    lemma OpenedState(cookie: string, now: int) returns (l: Login)
      requires Valid() && codec.OpenState(cookie, now).Some?
      ensures l in logins && now < l.at + STATE_TTL
      ensures codec.OpenState(cookie, now) == Some(StateOf(l))
    {
      OpensOnlySealed(codec.ledger, codec.base, cookie, "oauth-state");
      OpensOnlyFitting(codec.ledger, codec.base, cookie, "oauth-state");
      var n :| n in codec.ledger && codec.ledger[n].aad == AssociatedData(codec.base, "oauth-state")
               && OpenValue(codec.ledger, codec.base, cookie, "oauth-state") == Some(codec.ledger[n].plain);
      l :| l in logins && codec.ledger[n].plain == codec.json.printState(StateOf(l));
      assert codec.json.parseState(codec.ledger[n].plain) == Some(StateOf(l));
    }

    /** The three values are there, and their state fits a cookie. */
    predicate CanSeal(login: Login) {
      && login.state != "" && login.nonce != "" && login.codeVerifier != ""
      && |codec.json.printState(StateOf(login))| <= MAX_PAYLOAD
    }

    /** Seals a login state; when it gets a cookie, the login counts. */
    method SealLogin(login: Login, draw: Option<Draw>) returns (cookie: Option<string>)
      requires codec.json.RoundTrips() && WellSized(codec.ledger)
      requires StatesFrom(codec.ledger, AssociatedData(codec.base, "oauth-state"), codec.json, logins)
      requires draw.Some? ==> Usable(codec.ledger, draw.value, codec.json.printState(StateOf(login)))
      modifies this`logins, codec`ledger
      ensures WellSized(codec.ledger)
      ensures StatesFrom(codec.ledger, AssociatedData(codec.base, "oauth-state"), codec.json, logins)
      ensures logins == old(logins) + if cookie.Some? then {login} else {}
      ensures cookie.Some? <==> CanSeal(login) && draw.Some?
      ensures cookie.Some? ==> codec.OpenState(cookie.value, login.at) == Some(StateOf(login))
    {
      cookie := codec.SealState(login.state, login.nonce, login.codeVerifier, login.at, draw);
      assert Extends(codec.ledger, codec.ledger);
      ghost var sealed := if cookie.Some? then {login} else {};
      StatesGrow(old(codec.ledger), codec.ledger, AssociatedData(codec.base, "oauth-state"), codec.json, logins, sealed);
      logins := logins + sealed;
    }

    /** Sealing a session leaves the login states alone. */
    method SealSession(rawToken: string, expires: int, draw: Option<Draw>) returns (cookie: Option<string>)
      requires codec.json.RoundTrips() && WellSized(codec.ledger)
      requires StatesFrom(codec.ledger, AssociatedData(codec.base, "oauth-state"), codec.json, logins)
      requires draw.Some? ==> Usable(codec.ledger, draw.value, codec.json.printSession(Session(1, rawToken, Unix(expires))))
      modifies codec`ledger
      ensures WellSized(codec.ledger)
      ensures StatesFrom(codec.ledger, AssociatedData(codec.base, "oauth-state"), codec.json, logins)
      ensures cookie.Some? <==> rawToken != "" && expires != ZERO_TIME && draw.Some?
                                && |codec.json.printSession(Session(1, rawToken, Unix(expires)))| <= MAX_PAYLOAD
      ensures cookie.Some? ==>
        OpensTo(codec.ledger, codec.base, codec.json, cookie.value, Session(1, rawToken, Unix(expires)))
    {
      cookie := codec.SealSession(rawToken, expires, draw);
      assert AssociatedData(codec.base, "session")[|codec.base| + 1..] == "session";
      assert AssociatedData(codec.base, "oauth-state")[|codec.base| + 1..] == "oauth-state";
      StatesGrow(old(codec.ledger), codec.ledger, AssociatedData(codec.base, "oauth-state"), codec.json, logins, {});
      assert logins + {} == logins;
    }

    /** The three random values, and whether drawing each succeeded. */
    method HandleLogin(now: int, state: Option<string>, nonce: Option<string>, codeVerifier: Option<string>, draw: Option<Draw>)
      returns (reply: Reply, cookie: Option<string>)
      requires Valid() && clock <= now
      requires draw.Some? && state.Some? && nonce.Some? && codeVerifier.Some? ==> Usable(codec.ledger, draw.value,
        codec.json.printState(LoginState(1, state.value, nonce.value, codeVerifier.value, Unix(now + STATE_TTL))))
      modifies this, codec`ledger
      ensures Valid() && clock == now && sessions == old(sessions)
      ensures cookie.None? ==> logins == old(logins)
      ensures reply == if cookie.Some? then Redirected else Failed
      ensures cookie.Some? <==>
        && state.Some? && nonce.Some? && codeVerifier.Some? && draw.Some?
        && CanSeal(Login(state.value, nonce.value, codeVerifier.value, now))
      ensures cookie.Some? ==>
        && state.Some? && nonce.Some? && codeVerifier.Some?
        && logins == old(logins) + {Login(state.value, nonce.value, codeVerifier.value, now)}
        && codec.OpenState(cookie.value, now)
           == Some(StateOf(Login(state.value, nonce.value, codeVerifier.value, now)))
    {
      clock := now;
      cookie := None;
      if state.None? || nonce.None? || codeVerifier.None? {
        return Failed, None;
      }
      cookie := SealLogin(Login(state.value, nonce.value, codeVerifier.value, now), draw);
      reply := if cookie.Some? then Redirected else Failed;
    }

    /** What a callback must bring to establish an identity. */
    predicate Identifies(now: int, request: CallbackRequest, rawToken: string, verified: Option<IdToken>)
      reads codec
    {
      && request.error == "" && request.state != "" && request.code != "" && request.cookie.Some?
      && codec.OpenState(request.cookie.value, now).Some?
      && codec.OpenState(request.cookie.value, now).value.state == request.state
      && rawToken != "" && verified.Some?
      && verified.value.nonce == codec.OpenState(request.cookie.value, now).value.nonce
      && ValidEmail(verified.value.email)
    }

    /** The identity is established and has a required group. */
    predicate Accepts(now: int, request: CallbackRequest, rawToken: string, verified: Option<IdToken>)
      reads codec
    {
      Identifies(now, request, rawToken, verified) && HasGroup(requiredGroups, verified.value.groups)
    }

    /** The checks of a callback, up to the decision to set a session; the login is the one that is answered. */
    method CheckCallback(now: int, request: CallbackRequest, rawToken: string, verified: Option<IdToken>)
      returns (reply: Reply, opened': LoginState, ghost login: Login)
      requires Valid()
      ensures reply == Redirected <==> Accepts(now, request, rawToken, verified)
      ensures reply == Redirected ==>
        && codec.OpenState(request.cookie.value, now) == Some(opened')
        && login in logins && opened' == StateOf(login) && now < login.at + STATE_TTL
      ensures reply == Forbidden <==>
        Identifies(now, request, rawToken, verified) && !HasGroup(requiredGroups, verified.value.groups)
    {
      opened' := LoginState(0, "", "", "", 0);
      login := Login("", "", "", 0);
      if request.error != "" || request.state == "" || request.code == "" || request.cookie.None? {
        return Failed, opened', login;
      }
      var state := codec.OpenState(request.cookie.value, now);
      if state.None? || request.state != state.value.state {
        return Failed, opened', login;
      }
      opened' := state.value;
      login := OpenedState(request.cookie.value, now);
      if rawToken == "" || verified.None? {
        return Failed, opened', login;
      }
      if opened'.nonce != "" && verified.value.nonce != opened'.nonce {
        return Failed, opened', login;
      }
      if !ValidEmail(verified.value.email) {
        return Failed, opened', login;
      }
      if !HasGroup(requiredGroups, verified.value.groups) {
        return Forbidden, opened', login;
      }
      return Redirected, opened', login;
    }

    function Expires(later: int, token: IdToken): (expires: int)
      ensures expires <= later + ttl && expires <= token.expiry && expires in [later + ttl, token.expiry]
    {
      if token.expiry < later + ttl then token.expiry else later + ttl
    }

    /** An accepted callback: the session is sealed to the earlier of the two expiries. */
    method SetSession(now: int, later: int, state: string, rawToken: string, token: IdToken, draw: Option<Draw>,
                      ghost login: Login)
      returns (cookie: Option<string>)
      requires Valid() && clock <= now <= later && ValidEmail(token.email) && HasGroup(requiredGroups, token.groups)
      requires login in logins && (login.state, login.nonce) == (state, token.nonce) && now < login.at + STATE_TTL
      requires draw.Some? ==>
        Usable(codec.ledger, draw.value, codec.json.printSession(Session(1, rawToken, Unix(Expires(later, token)))))
      modifies this`clock, this`sessions, codec`ledger
      ensures Valid() && clock == later
      ensures cookie.Some? <==>
        && rawToken != "" && draw.Some? && Expires(later, token) != ZERO_TIME
        && |codec.json.printSession(Session(1, rawToken, Unix(Expires(later, token))))| <= MAX_PAYLOAD
      ensures cookie.None? ==> sessions == old(sessions)
      ensures cookie.Some? ==>
        && sessions == old(sessions) + [SignedBy(login, token, now, later, Expires(later, token), ttl)]
        && OpensTo(codec.ledger, codec.base, codec.json, cookie.value, Session(1, rawToken, Unix(Expires(later, token))))
    {
      clock := later;
      var expires := later + ttl;
      if token.expiry < expires {
        expires := token.expiry;
      }
      assert expires == Expires(later, token);
      cookie := SealSession(rawToken, expires, draw);
      if cookie.Some? {
        ghost var s := SignedBy(login, token, now, later, expires, ttl);
        OneMoreSession(sessions, logins, ttl, requiredGroups, login, token, now, later, expires);
        sessions := sessions + [s];
      }
    }

    /**
     `verified` is the ID token that the exchange for `code` returned, if it returned one and it verified; the
     exchange is made with the code verifier of the opened state. The clock is read again for the session.
     */
    method HandleCallback(now: int, later: int, request: CallbackRequest, rawToken: string, verified: Option<IdToken>,
                          draw: Option<Draw>)
      returns (reply: Reply, cookie: Option<string>, ghost login: Login)
      requires Valid() && clock <= now <= later
      requires verified.Some? && draw.Some? ==>
        Usable(codec.ledger, draw.value, codec.json.printSession(Session(1, rawToken, Unix(Expires(later, verified.value)))))
      modifies this`clock, this`sessions, codec`ledger
      ensures Valid() && clock == later
      ensures reply == Redirected <==> cookie.Some?
      ensures reply == Forbidden <==>
        old(Identifies(now, request, rawToken, verified)) && !HasGroup(requiredGroups, verified.value.groups)
      ensures cookie.None? ==> sessions == old(sessions)
      ensures cookie.Some? <==>
        && old(Accepts(now, request, rawToken, verified)) && draw.Some?
        && Expires(later, verified.value) != ZERO_TIME
        && |codec.json.printSession(Session(1, rawToken, Unix(Expires(later, verified.value))))| <= MAX_PAYLOAD
      ensures cookie.Some? ==>
        && verified.Some? && request.cookie.Some? && HasGroup(requiredGroups, verified.value.groups)
        && login in logins && old(codec.OpenState(request.cookie.value, now)) == Some(StateOf(login))
        && var token := verified.value;
          && login.state == request.state && login.nonce == token.nonce
          && sessions == old(sessions) + [SignedBy(login, token, now, later, Expires(later, token), ttl)]
          && OpensTo(codec.ledger, codec.base, codec.json, cookie.value, Session(1, rawToken, Unix(Expires(later, token))))
    {
      cookie := None;
      var opened';
      reply, opened', login := CheckCallback(now, request, rawToken, verified);
      if reply != Redirected {
        clock := later;
        return;
      }
      cookie := SetSession(now, later, request.state, rawToken, verified.value, draw, login);
      if cookie.None? {
        reply := Failed;
      }
    }

    method ServeOne(r: Request) returns (reply: Reply)
      requires Valid()
      modifies this, codec`ledger
      ensures Valid() && old(sessions) <= sessions
      ensures |sessions| == |old(sessions)| + if r.Answer? && reply == Redirected then 1 else 0
      ensures AddsLogin(old(logins), logins, r, reply)
    {
      match r {
        case Begin(after, state, nonce, codeVerifier, draw) =>
          var now := clock + after;
          var fitting := None;
          if state.Some? && nonce.Some? && codeVerifier.Some? {
            fitting := Fitting(codec.ledger, draw,
              codec.json.printState(LoginState(1, state.value, nonce.value, codeVerifier.value, Unix(now + STATE_TTL))));
          }
          var cookie;
          reply, cookie := HandleLogin(now, state, nonce, codeVerifier, fitting);
        case Answer(after, wait, request, rawToken, verified, draw) =>
          var now, later := clock + after, clock + after + wait;
          var fitting := None;
          if verified.Some? {
            fitting := Fitting(codec.ledger, draw,
              codec.json.printSession(Session(1, rawToken, Unix(Expires(later, verified.value)))));
          }
          var cookie;
          ghost var login;
          reply, cookie, login := HandleCallback(now, later, request, rawToken, verified, fitting);
      }
    }

    /** Logins and callbacks in any order; every redirecting callback sets a session. */
    method Serve(requests: seq<Request>) returns (replies: seq<Reply>)
      requires Valid()
      modifies this, codec`ledger
      ensures Valid() && AllRest(sessions, logins, ttl, requiredGroups) && old(sessions) <= sessions
      ensures |replies| == |requests| && |sessions| == |old(sessions)| + Admitted(requests, replies)
      ensures forall l :: l in logins ==> l in old(logins) || WasServed(requests, replies, l)
      ensures old(logins) == {} && DistinctStates(requests) ==> OneLoginPerState(logins)
    {
      replies := [];
      for i := 0 to |requests|
        invariant Valid() && old(sessions) <= sessions
        invariant |replies| == i && |sessions| == |old(sessions)| + Admitted(requests[..i], replies)
        invariant forall l :: l in logins ==> l in old(logins) || WasServed(requests, replies, l)
        invariant old(logins) == {} && DistinctStates(requests) ==> OneLoginPerState(logins)
      {
        ghost var before := logins;
        var reply := ServeOne(requests[i]);
        replies := replies + [reply];
        AdmittedNext(requests, i, replies);
        OneMoreLogin(old(logins), before, logins, requests, replies);
      }
      assert requests[..|requests|] == requests;
    }
  }

  /** The callbacks that were answered with a redirect. */
  function Admitted(requests: seq<Request>, replies: seq<Reply>): nat
    requires |requests| == |replies|
  {
    if requests == [] then 0
    else
      var last := |requests| - 1;
      Admitted(requests[..last], replies[..last]) + if requests[last].Answer? && replies[last] == Redirected then 1 else 0
  }

  lemma AdmittedNext(requests: seq<Request>, i: nat, replies: seq<Reply>)
    requires i < |requests| && |replies| == i + 1
    ensures Admitted(requests[..i + 1], replies) ==
      Admitted(requests[..i], replies[..i]) + if requests[i].Answer? && replies[i] == Redirected then 1 else 0
  {
    assert requests[..i + 1][..i] == requests[..i];
  }

  lemma OneMoreLogin(start: set<Login>, before: set<Login>, logins: set<Login>, requests: seq<Request>, replies: seq<Reply>)
    requires 0 < |replies| <= |requests|
    requires forall l :: l in before ==> l in start || WasServed(requests, replies[..|replies| - 1], l)
    requires AddsLogin(before, logins, requests[|replies| - 1], replies[|replies| - 1])
    ensures forall l :: l in logins ==> l in start || WasServed(requests, replies, l)
    ensures start == {} && DistinctStates(requests) && OneLoginPerState(before) ==> OneLoginPerState(logins)
  {
    var earlier := replies[..|replies| - 1];
    forall l | l in logins && l !in start
      ensures WasServed(requests, replies, l)
    {
      if l in before {
        var j :| 0 <= j < |earlier| && IsFor(requests[j], earlier[j], l);
        assert replies[j] == earlier[j];
      }
    }
  }

  /**
   In every run of a server from its start, each session rests on a login of less than ten minutes before that was
   answered with a cookie; and when the random states differ, on the only such login with that state.
   */
  method SignInRun(basePath: string, json: Json, ttl: int, requiredGroups: seq<string>, requests: seq<Request>)
    returns (server: SignIn, replies: seq<Reply>)
    requires json.RoundTrips() && 0 < ttl
    ensures |replies| == |requests| && |server.sessions| == Admitted(requests, replies)
    ensures AllRest(server.sessions, server.logins, ttl, requiredGroups)
    ensures forall l :: l in server.logins ==> WasServed(requests, replies, l)
    ensures DistinctStates(requests) ==> forall s, l, l' ::
      s in server.sessions && l in server.logins && l' in server.logins && Justified(l, s) && l'.state == s.state ==> l' == l
  {
    var codec := new SessionCodec(basePath, json);
    server := new SignIn(codec, ttl, requiredGroups);
    replies := server.Serve(requests);
  }
}
