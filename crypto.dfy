/** The foreign primitives behind the handlers, as parameters: the password
    hasher (bcrypt) and the session-token signer (jsonwebtoken). Each is a pair
    of functions the model does not interpret, tied together by the one law the
    handlers rely on. */
module Crypto {
  import opened Base

  type Digest = string

  /** `bcrypt.hash` (salt generation folded in) and `bcrypt.compare`. */
  datatype Hasher = Hasher(hash: string -> Digest, compare: (string, Digest) -> bool) {
    /** A password always matches its own hash, and a hash is never the empty
        string (bcrypt digests are 60 characters), so a stored hash is truthy. */
    ghost predicate Sound() {
      forall p :: hash(p) != "" && compare(p, hash(p))
    }
  }

  /** The claims of a session token: the user id and the issue and expiry
      times, in whole seconds. */
  datatype Claims = Claims(id: int, iat: int, exp: int)

  /** `jwt.sign` with the process secret, and the signature check of
      `jwt.verify` (which yields the claims of a well-signed token). */
  datatype Signer = Signer(sign: Claims -> string, decode: string -> Option<Claims>) {
    /** Signed claims decode to themselves; the empty string decodes to nothing;
        a token in compact form holds no space. */
    ghost predicate Sound() {
      && decode("") == None
      && forall c :: decode(sign(c)) == Some(c) && ' ' !in sign(c)
    }
  }

  /** `expiresIn: '30d'` */
  const TokenLifetimeSeconds: nat := 30 * 24 * 60 * 60

  /** jsonwebtoken reads the clock as whole seconds, rounding down. */
  function Seconds(nowMs: nat): nat {
    nowMs / 1000
  }

  /** `jwt.sign({ id }, secret, { expiresIn: '30d' })` at time `nowMs`. */
  function Issue(signer: Signer, id: int, nowMs: nat): (token: string)
    ensures signer.Sound() ==>
      && signer.decode(token) == Some(Claims(id, Seconds(nowMs), Seconds(nowMs) + TokenLifetimeSeconds))
      && token != "" && ' ' !in token
  {
    var iat := Seconds(nowMs);
    signer.sign(Claims(id, iat, iat + TokenLifetimeSeconds))
  }

  /** `jwt.verify(token, secret)`: `None` stands for a thrown error. A missing
      or empty token, a token that does not decode, and a token whose expiry is
      at or before the current second are all rejected. */
  function Verify(signer: Signer, token: Option<string>, nowMs: nat): (r: Option<Claims>)
    ensures r.Some? ==> token.Some? && token.value != "" && Seconds(nowMs) < r.value.exp
    ensures r.Some? ==> signer.decode(token.value) == r
  {
    if token.None? || token.value == "" then None
    else match signer.decode(token.value)
      case None => None
      case Some(c) => if Seconds(nowMs) >= c.exp then None else Some(c)
  }

  /** A token issued at `issuedMs` verifies, with the id it was issued for,
      exactly until thirty days have passed. */
  lemma IssueThenVerify(signer: Signer, id: int, issuedMs: nat, nowMs: nat)
    requires signer.Sound()
    ensures Verify(signer, Some(Issue(signer, id, issuedMs)), nowMs).Some?
      <==> Seconds(nowMs) < Seconds(issuedMs) + TokenLifetimeSeconds
    ensures Verify(signer, Some(Issue(signer, id, issuedMs)), nowMs).Some? ==>
      Verify(signer, Some(Issue(signer, id, issuedMs)), nowMs).value.id == id
  {
    var c := Claims(id, Seconds(issuedMs), Seconds(issuedMs) + TokenLifetimeSeconds);
    assert signer.decode(signer.sign(c)) == Some(c);
    assert signer.decode("") == None;
  }
}
