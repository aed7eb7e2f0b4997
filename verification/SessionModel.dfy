// Session and PKCE records (pkg/session/session.go, pkg/session/pkce.go).
module SessionModel {
  import opened Wrappers
  import opened Json

  datatype TenantContext = TenantContext(tenantId: string, tenantSlug: string, status: string, locale: string, timezone: string)

  // An empty refresh token or ID token means there is none. A nil claims map is the empty map.
  datatype Session = Session(
    id: string,
    accessToken: string,
    refreshToken: string,
    idToken: string,
    expiresAt: int,
    claims: Claims,
    tenantContext: Option<TenantContext>)

  datatype PkceState = PkceState(state: string, codeVerifier: string, codeChallenge: string, nonce: string, redirectTo: string)

  // What a record reads back as once it has been stored as JSON.
  function AsStored(session: Session): Session {
    session.(claims := HopClaims(session.claims))
  }

  lemma StoredTwice(session: Session)
    ensures AsStored(AsStored(session)) == AsStored(session)
  {
    HopIsIdempotent(session.claims);
  }

  // The access token expires within refreshEarly seconds of `now`.
  predicate NeedsRefresh(session: Session, now: int, refreshEarly: int) {
    session.expiresAt - refreshEarly <= now
  }
}
