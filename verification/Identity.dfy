// How the identity in an ID token travels: validation (pkg/token/validate_idtoken.go), the
// claims stored at login, the user shown by the agent (sessionToUser), normalisation
// (pkg/token/claims.go) and the principal of the proxy (internal/proxy/resolver.go).
module Identity {
  import opened Wrappers
  import opened Json
  import opened SessionModel

  // ExpiresAt is None for the zero time; Roles is nil exactly when it is empty.
  datatype Principal = Principal(
    subject: string,
    roles: seq<string>,
    claims: Claims,
    expiresAt: Option<int>,
    accessToken: string,
    tenantContext: Option<Claims>)

  datatype TokenError = NotVerified | AudienceMismatch | NonceMismatch

  datatype User = User(
    sub: string,
    email: string,
    preferredUsername: string,
    name: string,
    roles: seq<string>,
    groups: seq<string>,
    isAdmin: bool,
    tenantContext: Option<TenantContext>,
    claims: Claims)

  // The agent's answer to the proxy; a missing or null claims object is None.
  datatype ResolveResponse = ResolveResponse(accessToken: string, claims: Option<Claims>, tenantContext: Option<Claims>)

  // ------------------------------------------------------------------------------------
  // Specification
  // ------------------------------------------------------------------------------------

  function TextClaim(claims: Claims, key: string): string {
    if key in claims && claims[key].Text? then claims[key].s else ""
  }

  function NumberClaim(claims: Claims, key: string): Option<int> {
    if key in claims && claims[key].Number? then Some(claims[key].n) else None
  }

  // The string items of a generic list, in order.
  function StringsOf(items: seq<Json>): seq<string> {
    if items == [] then []
    else
      var last := items[|items| - 1];
      StringsOf(items[..|items| - 1]) + (if last.Text? then [last.s] else [])
  }

  function ListClaim(claims: Claims, key: string): seq<string> {
    if key in claims && claims[key].Array? then StringsOf(claims[key].items) else []
  }

  function RealmRoles(claims: Claims): seq<string> {
    if "realm_access" in claims && claims["realm_access"].Object?
    then ListClaim(claims["realm_access"].fields, "roles")
    else []
  }

  // Realm roles win; the flat "roles" claim counts only when there are none.
  function RolesOf(claims: Claims): seq<string> {
    if RealmRoles(claims) != [] then RealmRoles(claims) else ListClaim(claims, "roles")
  }

  predicate AudienceAccepted(claims: Claims, audience: string) {
    || audience == ""
    || ("aud" in claims && claims["aud"] == Text(audience))
    || ("aud" in claims && claims["aud"].Array? && Text(audience) in claims["aud"].items)
  }

  // `verified` holds the claims of a token whose signature, issuer and expiry were accepted.
  predicate Accepted(verified: Option<Claims>, audience: string, nonce: string) {
    && verified.Some?
    && AudienceAccepted(verified.value, audience)
    && (nonce != "" ==> TextClaim(verified.value, "nonce") == nonce)
  }

  function PrincipalOf(claims: Claims): Principal {
    Principal(TextClaim(claims, "sub"), RolesOf(claims), claims, NumberClaim(claims, "exp"), "", None)
  }

  // LoginEnd rewrites the subject and, if there are any, the roles before storing the claims.
  function LoginClaims(p: Principal): Claims {
    var claims := p.claims["sub" := Text(p.subject)];
    if p.roles != [] then claims["roles" := StringList(p.roles)] else claims
  }

  predicate Administers(roles: seq<string>) {
    "admin" in roles || "administrator" in roles
  }

  function UserOf(session: Session): User {
    var c := session.claims;
    User(TextClaim(c, "sub"), TextClaim(c, "email"), TextClaim(c, "preferred_username"), TextClaim(c, "name"),
         RolesOf(c), ListClaim(c, "groups"), Administers(RolesOf(c)), session.tenantContext, c)
  }

  function Normalized(claims: Claims): Claims {
    if RolesOf(claims) != [] then claims["roles" := StringList(RolesOf(claims))] else claims
  }

  function RolesOfNormalized(claims: Claims): seq<string> {
    if "roles" in claims && claims["roles"].StringList? then claims["roles"].list else ListClaim(claims, "roles")
  }

  function ProxyPrincipal(r: ResolveResponse): Principal {
    var claims := if r.claims.Some? then Normalized(r.claims.value) else map[];
    Principal(TextClaim(claims, "sub"), RolesOfNormalized(claims), claims, NumberClaim(claims, "exp"),
              r.accessToken, r.tenantContext)
  }

  // ------------------------------------------------------------------------------------
  // What the roles are, in terms of the claims
  // ------------------------------------------------------------------------------------

  // `strings` are the texts among the items, in their order: `at` says where each one is.
  ghost predicate TextsAt(items: seq<Json>, strings: seq<string>, at: seq<int>) {
    && |at| == |strings|
    && (forall k :: 0 <= k < |at| ==> 0 <= at[k] < |items| && items[at[k]] == Text(strings[k]))
    && (forall k, l :: 0 <= k < l < |at| ==> at[k] < at[l])
    && (forall i :: 0 <= i < |items| && items[i].Text? ==> i in at)
  }

  ghost predicate TextsOf(items: seq<Json>, strings: seq<string>) {
    exists at :: TextsAt(items, strings, at)
  }

  ghost predicate HasText(items: seq<Json>) {
    exists i :: 0 <= i < |items| && items[i].Text?
  }

  lemma OneMoreText(items: seq<Json>, strings: seq<string>, at: seq<int>)
    requires items != [] && TextsAt(items[..|items| - 1], strings, at)
    ensures var last := items[|items| - 1];
            if last.Text? then TextsAt(items, strings + [last.s], at + [|items| - 1]) else TextsAt(items, strings, at)
  {
    var n := |items| - 1;
    var longer := if items[n].Text? then at + [n] else at;
    forall i | 0 <= i < |items| && items[i].Text? ensures i in longer {
      if i < n {
        assert items[..n][i].Text?;
        var k :| 0 <= k < |at| && at[k] == i;
        assert longer[k] == i;
      } else {
        assert longer[|at|] == n;
      }
    }
  }

  lemma {:induction false} StringsOfAt(items: seq<Json>) returns (at: seq<int>)
    ensures TextsAt(items, StringsOf(items), at)
  {
    at := [];
    if items != [] {
      var n := |items| - 1;
      at := StringsOfAt(items[..n]);
      OneMoreText(items, StringsOf(items[..n]), at);
      if items[n].Text? {
        at := at + [n];
      }
    }
  }

  lemma StringsOfExactly(items: seq<Json>)
    ensures TextsOf(items, StringsOf(items))
    ensures StringsOf(items) != [] <==> HasText(items)
  {
    var at := StringsOfAt(items);
    if i :| 0 <= i < |items| && items[i].Text? {
      assert i in at;
    }
    if StringsOf(items) != [] {
      assert items[at[0]].Text?;
    }
  }

  // A realm list with any text in it gives the roles, in order.
  lemma RealmRolesWin(claims: Claims, items: seq<Json>)
    requires "realm_access" in claims && claims["realm_access"].Object?
    requires "roles" in claims["realm_access"].fields && claims["realm_access"].fields["roles"] == Array(items)
    requires HasText(items)
    ensures TextsOf(items, RolesOf(claims))
  {
    StringsOfExactly(items);
  }

  // Without one the flat list gives them, if there is any.
  lemma FlatRolesFollow(claims: Claims)
    requires ("realm_access" in claims && claims["realm_access"].Object? && "roles" in claims["realm_access"].fields
              && claims["realm_access"].fields["roles"].Array?) ==> !HasText(claims["realm_access"].fields["roles"].items)
    ensures if "roles" in claims && claims["roles"].Array? then TextsOf(claims["roles"].items, RolesOf(claims)) else RolesOf(claims) == []
  {
    if RealmRoles(claims) != [] {
      StringsOfExactly(claims["realm_access"].fields["roles"].items);
    }
    if "roles" in claims && claims["roles"].Array? {
      StringsOfExactly(claims["roles"].items);
    }
  }

  // ------------------------------------------------------------------------------------
  // Identity is carried unchanged
  // ------------------------------------------------------------------------------------

  // What the agent stores for an accepted token: rewritten at login, as they are at refresh.
  // Storing the session and reading it back is the first JSON hop.
  ghost predicate StoredFor(verified: Claims, stored: Claims) {
    || stored == HopClaims(LoginClaims(PrincipalOf(verified)))
    || stored == HopClaims(verified)
  }

  lemma {:induction false} StringsOfTexts(list: seq<string>)
    ensures StringsOf(seq(|list|, i requires 0 <= i < |list| => Text(list[i]))) == list
  {
    if list != [] {
      var n := |list| - 1;
      var items := seq(|list|, i requires 0 <= i < |list| => Text(list[i]));
      StringsOfTexts(list[..n]);
      assert items[..n] == seq(n, i requires 0 <= i < n => Text(list[..n][i]));
      assert list == list[..n] + [list[n]];
    }
  }

  // Login and storage leave every claim but the subject and the roles as it was.
  lemma StoredEntry(verified: Claims, key: string)
    requires DecodedClaims(verified) && key != "sub" && key != "roles"
    ensures var stored := HopClaims(LoginClaims(PrincipalOf(verified)));
            && (key in stored <==> key in verified)
            && (key in stored ==> stored[key] == verified[key])
  {
    if key in verified {
      HopKeepsDecoded(verified[key]);
    }
  }

  // The flat "roles" claim after login lists the principal's roles.
  lemma StoredRoles(verified: Claims)
    requires DecodedClaims(verified)
    ensures var stored := HopClaims(LoginClaims(PrincipalOf(verified)));
            var roles := RolesOf(verified);
            ListClaim(stored, "roles") == if roles != [] then roles else ListClaim(verified, "roles")
  {
    var roles := RolesOf(verified);
    if roles != [] {
      StringsOfTexts(roles);
    } else if "roles" in verified {
      HopKeepsDecoded(verified["roles"]);
    }
  }

  lemma LoginKeepsIdentity(verified: Claims)
    requires DecodedClaims(verified)
    ensures var stored := HopClaims(LoginClaims(PrincipalOf(verified)));
            && TextClaim(stored, "sub") == TextClaim(verified, "sub")
            && RolesOf(stored) == RolesOf(verified)
            && NumberClaim(stored, "exp") == NumberClaim(verified, "exp")
  {
    StoredEntry(verified, "realm_access");
    StoredEntry(verified, "exp");
    StoredRoles(verified);
  }

  // Storage keeps subject, roles and expiry of a decoded token, with or without the rewrite.
  lemma StorageKeepsIdentity(verified: Claims, stored: Claims)
    requires DecodedClaims(verified) && StoredFor(verified, stored)
    ensures DecodedClaims(stored)
    ensures TextClaim(stored, "sub") == TextClaim(verified, "sub")
    ensures RolesOf(stored) == RolesOf(verified)
    ensures NumberClaim(stored, "exp") == NumberClaim(verified, "exp")
  {
    HopIsIdempotent(verified);
    HopIsIdempotent(LoginClaims(PrincipalOf(verified)));
    LoginKeepsIdentity(verified);
  }

  // The roles, subject and expiry that validation found are those of the user the agent
  // shows and of the principal the proxy builds after a second JSON hop.
  lemma IdentityIsCarried(verified: Claims, stored: Claims, session: Session, accessToken: string, tenant: Option<Claims>)
    requires DecodedClaims(verified) && StoredFor(verified, stored) && session.claims == stored
    ensures var found := PrincipalOf(verified);
            var shown := UserOf(session);
            var proxied := ProxyPrincipal(ResolveResponse(accessToken, Some(HopClaims(stored)), tenant));
            && found.roles == shown.roles == proxied.roles
            && found.subject == shown.sub == proxied.subject
            && found.expiresAt == proxied.expiresAt
            && (shown.isAdmin <==> Administers(found.roles))
  {
    StorageKeepsIdentity(verified, stored);
    HopIsIdempotent(stored);
    ProxyKeepsIdentity(stored, accessToken, tenant);
  }

  // The proxy's principal has the identity in the claims it is given.
  lemma ProxyKeepsIdentity(claims: Claims, accessToken: string, tenant: Option<Claims>)
    requires DecodedClaims(claims)
    ensures var proxied := ProxyPrincipal(ResolveResponse(accessToken, Some(claims), tenant));
            && proxied.roles == RolesOf(claims)
            && proxied.subject == TextClaim(claims, "sub")
            && proxied.expiresAt == NumberClaim(claims, "exp")
  {
  }

  // Every claim but the subject and the roles reaches the proxy's principal as it was in the
  // token.
  lemma ClaimsAreCarried(verified: Claims, stored: Claims, accessToken: string, tenant: Option<Claims>, key: string)
    requires DecodedClaims(verified) && StoredFor(verified, stored) && key != "sub" && key != "roles"
    ensures var proxied := ProxyPrincipal(ResolveResponse(accessToken, Some(HopClaims(stored)), tenant)).claims;
            && (key in stored <==> key in verified) && (key in proxied <==> key in verified)
            && (key in verified ==> stored[key] == verified[key] == proxied[key])
  {
    StorageKeepsIdentity(verified, stored);
    StoredEntry(verified, key);
    HopIsIdempotent(verified);
    HopIsIdempotent(stored);
  }

  // ------------------------------------------------------------------------------------
  // The code, with its loops
  // ------------------------------------------------------------------------------------

  method CollectStrings(items: seq<Json>) returns (strings: seq<string>)
    ensures strings == StringsOf(items)
  {
    strings := [];
    for i := 0 to |items|
      invariant strings == StringsOf(items[..i])
    {
      assert items[..i + 1][..i] == items[..i];
      if items[i].Text? {
        strings := strings + [items[i].s];
      }
    }
    assert items[..|items|] == items;
  }

  // Copies a map entry by entry, in any order.
  method CopyClaims(claims: Claims) returns (copy: Claims)
    ensures copy == claims
  {
    copy := map[];
    var rest := claims.Keys;
    while rest != {}
      invariant rest <= claims.Keys && copy.Keys == claims.Keys - rest
      invariant forall k :: k in copy ==> copy[k] == claims[k]
      decreases rest
    {
      var k :| k in rest;
      copy := copy[k := claims[k]];
      rest := rest - {k};
    }
  }

  method CollectRoles(claims: Claims) returns (roles: seq<string>)
    ensures roles == RolesOf(claims)
  {
    roles := [];
    if "realm_access" in claims && claims["realm_access"].Object? {
      var realm := claims["realm_access"].fields;
      if "roles" in realm && realm["roles"].Array? {
        roles := CollectStrings(realm["roles"].items);
      }
    }
    if |roles| == 0 {
      if "roles" in claims && claims["roles"].Array? {
        roles := CollectStrings(claims["roles"].items);
      }
    }
  }

  method CheckAudience(claims: Claims, audience: string) returns (valid: bool)
    ensures valid <==> AudienceAccepted(claims, audience)
    ensures audience != "" ==>
              (valid <==> "aud" in claims
                          && (claims["aud"] == Text(audience)
                              || (claims["aud"].Array? && exists i :: 0 <= i < |claims["aud"].items| && claims["aud"].items[i] == Text(audience))))
  {
    if audience == "" {
      return true;
    }
    valid := false;
    if "aud" in claims {
      match claims["aud"]
      case Text(s) => valid := s == audience;
      case Array(items) =>
        var i := 0;
        while i < |items| && !valid
          invariant 0 <= i <= |items|
          invariant valid <==> Text(audience) in items[..i]
        {
          valid := items[i] == Text(audience);
          i := i + 1;
        }
        assert !valid ==> items[..i] == items;
      case _ =>
    }
  }

  method ValidateIdToken(verified: Option<Claims>, audience: string, expectedNonce: string) returns (r: Result<Principal, TokenError>)
    ensures r.Ok? <==> Accepted(verified, audience, expectedNonce)
    ensures r.Ok? ==> r.value == PrincipalOf(verified.value)
    ensures r == Err(NotVerified) <==> verified.None?
    ensures r == Err(AudienceMismatch) <==> verified.Some? && !AudienceAccepted(verified.value, audience)
    ensures r.Ok? <==>
              && verified.Some?
              && (audience != "" ==>
                    && "aud" in verified.value
                    && (verified.value["aud"] == Text(audience)
                        || (verified.value["aud"].Array? && exists i :: 0 <= i < |verified.value["aud"].items| && verified.value["aud"].items[i] == Text(audience))))
              && (expectedNonce != "" ==> "nonce" in verified.value && verified.value["nonce"] == Text(expectedNonce))
    ensures r.Ok? ==>
              && r.value.claims == verified.value
              && r.value.subject == (if "sub" in verified.value && verified.value["sub"].Text? then verified.value["sub"].s else "")
              && r.value.expiresAt == (if "exp" in verified.value && verified.value["exp"].Number? then Some(verified.value["exp"].n) else None)
  {
    if verified.None? {
      return Err(NotVerified);
    }
    var claims := verified.value;
    var audienceValid := CheckAudience(claims, audience);
    if !audienceValid {
      return Err(AudienceMismatch);
    }
    if expectedNonce != "" && TextClaim(claims, "nonce") != expectedNonce {
      return Err(NonceMismatch);
    }
    var copied := CopyClaims(claims);
    var roles := CollectRoles(claims);
    return Ok(Principal(TextClaim(claims, "sub"), roles, copied, NumberClaim(claims, "exp"), "", None));
  }

  method SessionToUser(session: Session) returns (user: User)
    ensures user == UserOf(session)
    ensures user.sub == if "sub" in session.claims && session.claims["sub"].Text? then session.claims["sub"].s else ""
    ensures user.email == if "email" in session.claims && session.claims["email"].Text? then session.claims["email"].s else ""
    ensures user.preferredUsername == if "preferred_username" in session.claims && session.claims["preferred_username"].Text?
                                      then session.claims["preferred_username"].s else ""
    ensures user.name == if "name" in session.claims && session.claims["name"].Text? then session.claims["name"].s else ""
    ensures if "groups" in session.claims && session.claims["groups"].Array? then TextsOf(session.claims["groups"].items, user.groups)
            else user.groups == []
    ensures user.isAdmin <==> "admin" in user.roles || "administrator" in user.roles
    ensures user.tenantContext == session.tenantContext && user.claims == session.claims
  {
    var claims := session.claims;
    var roles := CollectRoles(claims);
    var groups := [];
    if "groups" in claims && claims["groups"].Array? {
      groups := CollectStrings(claims["groups"].items);
      StringsOfExactly(claims["groups"].items);
    }
    var isAdmin := false;
    var i := 0;
    while i < |roles| && !isAdmin
      invariant 0 <= i <= |roles|
      invariant isAdmin <==> Administers(roles[..i])
    {
      isAdmin := roles[i] == "admin" || roles[i] == "administrator";
      i := i + 1;
    }
    assert !isAdmin ==> roles[..i] == roles;
    user := User(TextClaim(claims, "sub"), TextClaim(claims, "email"), TextClaim(claims, "preferred_username"),
                 TextClaim(claims, "name"), roles, groups, isAdmin, session.tenantContext, claims);
  }

  method NormalizeClaims(claims: Option<Claims>) returns (normalized: Option<Claims>)
    ensures claims.None? <==> normalized.None?
    ensures claims.Some? ==> normalized == Some(Normalized(claims.value))
    ensures claims.Some? ==> forall k :: k != "roles" ==>
              (k in normalized.value <==> k in claims.value) && (k in claims.value ==> normalized.value[k] == claims.value[k])
  {
    if claims.None? {
      return None;
    }
    var copy := CopyClaims(claims.value);
    var roles := CollectRoles(claims.value);
    if |roles| > 0 {
      copy := copy["roles" := StringList(roles)];
    }
    return Some(copy);
  }

  method ResolveResponseToPrincipal(r: ResolveResponse) returns (p: Principal)
    ensures p == ProxyPrincipal(r)
    ensures p.accessToken == r.accessToken && p.tenantContext == r.tenantContext
    ensures r.claims.None? ==> p.claims == map[]
    ensures r.claims.Some? ==> forall k :: k != "roles" ==>
              (k in p.claims <==> k in r.claims.value) && (k in p.claims ==> p.claims[k] == r.claims.value[k])
    ensures r.claims.Some? ==>
              p.subject == if "sub" in r.claims.value && r.claims.value["sub"].Text? then r.claims.value["sub"].s else ""
  {
    var normalized := NormalizeClaims(r.claims);
    var claims := if normalized.Some? then normalized.value else map[];
    var roles := [];
    if "roles" in claims && claims["roles"].StringList? {
      roles := claims["roles"].list;
    } else if "roles" in claims && claims["roles"].Array? {
      roles := CollectStrings(claims["roles"].items);
    }
    p := Principal(TextClaim(claims, "sub"), roles, claims, NumberClaim(claims, "exp"), r.accessToken, r.tenantContext);
  }
}
