/**
 AES-GCM and HMAC as ideal functions: a ledger remembers everything that was ever sealed or authenticated
 under one key, and only what stands in it opens or verifies. Nonces are random and taken to be distinct.
 */
module IdealCrypto {
  import opened Text

  const NONCE_SIZE := 12
  const TAG_SIZE := 16

  datatype Sealed = Sealed(aad: string, plain: seq<Byte>, body: seq<Byte>)

  type Ledger = map<seq<Byte>, Sealed>

  /** A random nonce, and the ciphertext with its tag that the cipher answers with. */
  datatype Draw = Draw(nonce: seq<Byte>, body: seq<Byte>)

  predicate Usable(l: Ledger, d: Draw, plain: seq<Byte>) {
    |d.nonce| == NONCE_SIZE && d.nonce !in l && |d.body| == |plain| + TAG_SIZE
  }

  function Open(l: Ledger, nonce: seq<Byte>, body: seq<Byte>, aad: string): Option<seq<Byte>> {
    if nonce in l && l[nonce].body == body && l[nonce].aad == aad then Some(l[nonce].plain) else None
  }

  /** Only usable draws were sealed with. */
  predicate WellSized(l: Ledger) {
    forall n :: n in l ==> |n| == NONCE_SIZE && |l[n].body| == |l[n].plain| + TAG_SIZE
  }

  /** The ledger only grows. */
  predicate Extends(l: Ledger, l': Ledger) {
    forall n :: n in l ==> n in l' && l'[n] == l[n]
  }

  /** What a message authentication code was computed for, and the code. */
  type Macs = map<string, seq<Byte>>
}
