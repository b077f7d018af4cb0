/** The `protect` middleware: reads the `Authorization` header, verifies the
    bearer token, and either passes the caller's id on to the handler (its one
    write, `req.user = { id }`, followed by `next()`) or answers 401 itself. */
module AuthMiddleware {
  import opened Base
  import opened JsText
  import opened Crypto

  datatype Outcome = Next(userId: int) | Reject(response: Response<()>)

  /** `authorization.split(' ')[1]`, where a header with no space has no
      second element (`undefined`). */
  function SecondWord(header: string): Option<string> {
    var parts := Split(header, ' ');
    if |parts| > 1 then Some(parts[1]) else None
  }

  /** `protect(req, res, next)` */
  function Protect(header: Option<string>, signer: Signer, nowMs: nat): (r: Outcome)
    ensures r.Reject? ==> r.response.status == 401
    ensures r.Next? <==>
      Truthy(header) && StartsWith(header.value, "Bearer")
      && Verify(signer, SecondWord(header.value), nowMs).Some?
    ensures r.Next? ==> r.userId == Verify(signer, SecondWord(header.value), nowMs).value.id
  {
    if Truthy(header) && StartsWith(header.value, "Bearer") then
      match Verify(signer, SecondWord(header.value), nowMs)
      case None => Reject(Reply(401, "Token verification failed"))
      case Some(c) => Next(c.id)
    else
      Reject(Reply(401, "No token provided"))
  }

  /** Without a header, or with one that does not start with "Bearer", the
      reply is "No token provided" and the handler never runs. */
  lemma NoTokenProvided(header: Option<string>, signer: Signer, nowMs: nat)
    requires !Truthy(header) || !StartsWith(header.value, "Bearer")
    ensures Protect(header, signer, nowMs) == Reject(Reply(401, "No token provided"))
  {
  }

  /** A bare "Bearer" passes the prefix test but has no second word, so the
      verification fails rather than the header test. */
  lemma BareBearer(signer: Signer, nowMs: nat)
    ensures Protect(Some("Bearer"), signer, nowMs) == Reject(Reply(401, "Token verification failed"))
  {
    SplitNoSep("Bearer", ' ');
  }

  /** Any header that starts with "Bearer" and is rejected is rejected with
      "Token verification failed". */
  lemma BearerRejected(header: string, signer: Signer, nowMs: nat)
    requires header != "" && StartsWith(header, "Bearer")
    requires Verify(signer, SecondWord(header), nowMs).None?
    ensures Protect(Some(header), signer, nowMs) == Reject(Reply(401, "Token verification failed"))
  {
  }

  /** A header built the way the client builds it, from a token the server
      issued, lets the handler run as the user the token was issued for,
      until the token expires. */
  lemma ProtectAcceptsIssuedToken(signer: Signer, id: int, issuedMs: nat, nowMs: nat)
    requires signer.Sound()
    requires Seconds(nowMs) < Seconds(issuedMs) + TokenLifetimeSeconds
    ensures Protect(Some("Bearer " + Issue(signer, id, issuedMs)), signer, nowMs) == Next(id)
  {
    var token := Issue(signer, id, issuedMs);
    var c := Claims(id, Seconds(issuedMs), Seconds(issuedMs) + TokenLifetimeSeconds);
    assert ' ' !in signer.sign(c);
    SplitTwo("Bearer " + token, "Bearer", token);
    IssueThenVerify(signer, id, issuedMs, nowMs);
    assert StartsWith("Bearer " + token, "Bearer");
  }
}
