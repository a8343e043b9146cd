/** Delivering a new token: both cookies are sealed before any old token is deleted. */
module Delivery {
  import opened Clock
  import opened Text
  import opened IdealCrypto
  import opened SessionCodecs
  import opened FlashCodecs
  import opened Remotes

  const MAX_FLASH := 3800

  /** However the ledger grows, the cookie shows this token and flag to `email` until `expires`, and nothing to anyone else. */
  ghost predicate Delivers(l: Ledger, aad: string, json: PayloadJson, cookie: string,
                           email: string, d: Delivered, partial: bool, expires: int) {
    forall l', who, now :: Extends(l, l') ==> var shown := OpenFlash(l', aad, json, cookie, who, now);
      && (shown.Some? <==> who == email && Unix(now) < expires)
      && (shown.Some? ==>
            && shown.value.token == d.secret && shown.value.partial == partial
            && shown.value.tokenCreated == WholeSecond(d.created) && ShowsExpiry(shown.value.tokenExpires, d.expires))
  }

  /** A token is dated when its answer arrives; with the legacy API its expiry is counted from there. */
  predicate Dated(d: Delivered, now: int, ttl: int, legacy: bool) {
    d.created == now && (legacy ==> d.expires == Some(now + ttl))
  }

  /** The nonces drawn before anything was issued. */
  predicate PreparedFor(flash: FlashCodec, success: Prepared, partial: Prepared)
    reads flash`ledger
  {
    && |success.nonce| == NONCE_SIZE && |partial.nonce| == NONCE_SIZE && success.nonce != partial.nonce
    && success.nonce !in flash.ledger && partial.nonce !in flash.ledger
  }

  method SealBoth(flash: FlashCodec, email: string, success: Prepared, partial: Prepared, d: Delivered)
    returns (successCookie: string, partialCookie: string)
    requires flash.json.RoundTrips() && PreparedFor(flash, success, partial) && d.secret != ""
    modifies flash`ledger
    ensures Extends(old(flash.ledger), flash.ledger)
    ensures Delivers(flash.ledger, flash.aad, flash.json, successCookie, email, d, false, success.expires)
    ensures Delivers(flash.ledger, flash.aad, flash.json, partialCookie, email, d, true, partial.expires)
  {
    successCookie := SealOne(flash, success, email, d, false);
    ghost var l := flash.ledger;
    partialCookie := SealOne(flash, partial, email, d, true);
    DeliversLater(l, flash.ledger, flash.aad, flash.json, successCookie, email, d, false, success.expires);
  }

  /** The cipher answers with some ciphertext of the right length. */
  method SealOne(flash: FlashCodec, prepared: Prepared, email: string, d: Delivered, partial: bool) returns (cookie: string)
    requires flash.json.RoundTrips() && d.secret != ""
    requires |prepared.nonce| == NONCE_SIZE && prepared.nonce !in flash.ledger
    modifies flash`ledger
    ensures Extends(old(flash.ledger), flash.ledger) && flash.ledger.Keys == old(flash.ledger).Keys + {prepared.nonce}
    ensures Delivers(flash.ledger, flash.aad, flash.json, cookie, email, d, partial, prepared.expires)
  {
    var size := |flash.json.marshal(flash.PayloadOf(prepared, email, d.secret, partial, d.created, d.expires))| + TAG_SIZE;
    var body: seq<Byte> :| |body| == size by { assert |seq(size, _ => 0 as Byte)| == size; }
    cookie := flash.SealPrepared(prepared, email, d.secret, partial, d.created, d.expires, body);
  }

  /** What is sealed later takes nothing away. */
  lemma DeliversLater(l: Ledger, l': Ledger, aad: string, json: PayloadJson, cookie: string,
                      email: string, d: Delivered, partial: bool, expires: int)
    requires Delivers(l, aad, json, cookie, email, d, partial, expires) && Extends(l, l')
    ensures Delivers(l', aad, json, cookie, email, d, partial, expires)
  {
    forall l'' | Extends(l', l'')
      ensures Extends(l, l'')
    {
    }
  }
}
