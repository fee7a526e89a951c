/** Claims, the bearer-token identity policy and the claim checks of the `auth` crate.
    The JSON Web Token codec itself is an external collaborator, given as a pair of functions. */
module Auth {
  import opened Errors
  import opened Text

  datatype Role = Player | Owner

  /** The claim carried by a token: subject id, display name, game id, role and absolute expiry (seconds). */
  datatype PrivateClaim = PrivateClaim(id: int, userName: string, gameId: int, role: Role, exp: int)

  /** How long a freshly issued claim stays valid, in seconds: three hours. */
  const TokenLifetime := 3 * 60 * 60

  /** `PrivateClaim::new`, with the wall clock `now` (seconds) as a parameter. */
  function NewClaim(id: int, userName: string, gameId: int, role: Role, now: int): (c: PrivateClaim)
    ensures c.id == id && c.userName == userName && c.gameId == gameId && c.role == role
    ensures c.exp - now == 10800
  {
    PrivateClaim(id, userName, gameId, role, now + TokenLifetime)
  }

  /** The outcome of a call into the codec library: a value, or the library's error text. */
  datatype Outcome<T> = Done(value: T) | Failed(reason: string)

  /** Signing and verifying tokens (key lookup and expiry check included), as the library does them. */
  datatype Jwt = Jwt(encode: PrivateClaim -> Outcome<string>, decode: string -> Outcome<PrivateClaim>)

  /** What the codec promises: a token it issued decodes to the claim it was issued for. */
  ghost predicate RoundTrips(jwt: Jwt) {
    forall c :: jwt.encode(c).Done? ==> jwt.decode(jwt.encode(c).value) == Done(c)
  }

  /** `create_jwt`. */
  function CreateJwt(jwt: Jwt, claim: PrivateClaim): (r: Result<string>)
    ensures r.Ok? <==> jwt.encode(claim).Done?
    ensures r.Ok? ==> jwt.encode(claim) == Done(r.value)
    ensures r.Err? ==> r.error == CannotEncodeJwtToken(jwt.encode(claim).reason)
  {
    match jwt.encode(claim)
    case Done(token) => Ok(token)
    case Failed(reason) => Err(CannotEncodeJwtToken(reason))
  }

  /** `decode_jwt`. */
  function DecodeJwt(jwt: Jwt, token: string): (r: Result<PrivateClaim>)
    ensures r.Ok? <==> jwt.decode(token).Done?
    ensures r.Ok? ==> jwt.decode(token) == Done(r.value)
    ensures r.Err? ==> r.error == CannotDecodeJwtToken(jwt.decode(token).reason)
  {
    match jwt.decode(token)
    case Done(claim) => Ok(claim)
    case Failed(reason) => Err(CannotDecodeJwtToken(reason))
  }

  /** Decoding a token that was just created yields the claim it was created from. */
  lemma DecodeCreated(jwt: Jwt, claim: PrivateClaim)
    requires RoundTrips(jwt)
    requires CreateJwt(jwt, claim).Ok?
    ensures DecodeJwt(jwt, CreateJwt(jwt, claim).value) == Ok(claim)
  {
  }

  /** What `HeaderValue::to_str` accepts: visible ASCII and tab. */
  predicate IsHeaderChar(c: char) {
    c == '\t' || (' ' <= c <= '~')
  }

  predicate IsReadableHeader(h: string) {
    forall i :: 0 <= i < |h| ==> IsHeaderChar(h[i])
  }

  const BearerPrefix := "Bearer "

  /** `AuthHeaderIdentityPolicy::from_request`: the Authorization header, if present and readable,
      with every occurrence of "Bearer " removed. */
  function FromRequest(authorization: Option<string>): (token: Option<string>)
    ensures authorization.None? ==> token.None?
    ensures authorization.Some? ==> (token.Some? <==> IsReadableHeader(authorization.value))
    ensures token.Some? ==> |token.value| <= |authorization.value|
  {
    match authorization
    case None => None
    case Some(header) =>
      if IsReadableHeader(header) then Some(RemoveAll(header, BearerPrefix)) else None
  }

  /** A readable token that does not itself contain "Bearer " is recovered whether or not the client
      prefixed it with "Bearer ". */
  lemma FromRequestYieldsToken(token: string)
    requires IsReadableHeader(token) && !Contains(token, BearerPrefix)
    ensures FromRequest(Some(BearerPrefix + token)) == Some(token)
    ensures FromRequest(Some(token)) == Some(token)
  {
    RemoveAllLeading(BearerPrefix, token);
    RemoveAllAbsent(token, BearerPrefix);
    var h := BearerPrefix + token;
    assert forall i :: 0 <= i < |h| ==> IsHeaderChar(h[i]) by {
      forall i | 0 <= i < |h| ensures IsHeaderChar(h[i]) {
        if i >= |BearerPrefix| {
          assert h[i] == token[i - |BearerPrefix|];
        }
      }
    }
  }

  /** `get_claim_from_identity`: the decoded claim together with the raw token. */
  function GetClaimFromIdentity(jwt: Jwt, identity: Option<string>): (r: Result<(PrivateClaim, string)>)
    ensures identity.None? ==> r == Err(Unauthorized)
    ensures identity.Some? ==> (r.Ok? <==> jwt.decode(identity.value).Done?)
    ensures r.Ok? ==> jwt.decode(identity.value) == Done(r.value.0) && r.value.1 == identity.value
    ensures identity.Some? && r.Err? ==> r.error == CannotDecodeJwtToken(jwt.decode(identity.value).reason)
  {
    match identity
    case None => Err(Unauthorized)
    case Some(token) =>
      var claim :- DecodeJwt(jwt, token);
      Ok((claim, token))
  }

  /** `identity_matches_game_id`. */
  function IdentityMatchesGameId(jwt: Jwt, identity: Option<string>, gameId: int): (r: Result<()>)
    ensures r.Ok? <==> GetClaimFromIdentity(jwt, identity).Ok? && GetClaimFromIdentity(jwt, identity).value.0.gameId == gameId
    ensures GetClaimFromIdentity(jwt, identity).Err? ==> r == Err(GetClaimFromIdentity(jwt, identity).error)
    ensures GetClaimFromIdentity(jwt, identity).Ok? && r.Err? ==> r.error == Forbidden
  {
    var (claim, _) :- GetClaimFromIdentity(jwt, identity);
    if gameId != claim.gameId then Err(Forbidden) else Ok(())
  }

  /** A token issued for a claim identifies that claim: the HTTP identity check sees exactly it. */
  lemma IssuedTokenIdentifies(jwt: Jwt, claim: PrivateClaim)
    requires RoundTrips(jwt)
    requires CreateJwt(jwt, claim).Ok?
    ensures var token := CreateJwt(jwt, claim).value;
      GetClaimFromIdentity(jwt, Some(token)) == Ok((claim, token))
      && IdentityMatchesGameId(jwt, Some(token), claim.gameId) == Ok(())
  {
  }
}
