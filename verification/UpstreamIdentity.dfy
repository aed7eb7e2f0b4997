// What the upstream service is told about the user: from the ID token that the agent accepted
// to the headers that the proxy sets.
module UpstreamIdentity {
  import opened Wrappers
  import opened Json
  import opened SessionModel
  import opened Identity
  import opened AgentMachine
  import opened AgentHistory
  import opened SessionProvenance
  import opened ProxyEngine

  // The proxy's principal for a session that Resolve has answered with.
  function ProxiedFrom(session: Session, tenant: Option<Claims>): Principal {
    ProxyPrincipal(ResolveResponse(session.accessToken, Some(HopClaims(session.claims)), tenant))
  }

  // The headers carry the claims of the token.
  predicate TellsOfToken(verified: Claims, accessToken: string, h: Headers) {
    && Carries(h, "Authorization", if accessToken == "" then "" else "Bearer " + accessToken)
    && Carries(h, "X-User-Id", if "sub" in verified && verified["sub"].Text? then verified["sub"].s else "")
    && Carries(h, "X-User-Email", if "email" in verified && verified["email"].Text? then verified["email"].s else "")
    && Carries(h, "X-User-Full-Name", if "name" in verified && verified["name"].Text? then verified["name"].s else "")
    && Carries(h, "X-User-Preferred-Username",
               if "preferred_username" in verified && verified["preferred_username"].Text? then verified["preferred_username"].s else "")
    && ("X-Roles" in h <==> RolesOf(verified) != [])
    && ("X-Roles" in h && (forall i :: 0 <= i < |RolesOf(verified)| ==> ',' !in RolesOf(verified)[i]) ==>
          Fields(h["X-Roles"]) == RolesOf(verified))
  }

  lemma StoredClaimsReachUpstream(verified: Claims, session: Session, tenant: Option<Claims>, h: Headers)
    requires DecodedClaims(verified) && StoredFor(verified, session.claims)
    requires TellsOf(ProxiedFrom(session, tenant), h)
    ensures TellsOfToken(verified, session.accessToken, h)
  {
    IdentityIsCarried(verified, session.claims, session, session.accessToken, tenant);
    ClaimsAreCarried(verified, session.claims, session.accessToken, tenant, "email");
    ClaimsAreCarried(verified, session.claims, session.accessToken, tenant, "name");
    ClaimsAreCarried(verified, session.claims, session.accessToken, tenant, "preferred_username");
  }

  // In every run, for every read that finds a session: whatever headers tell of the proxy's
  // principal for it name the user of the ID token that was accepted at the login or refresh
  // of that session from which its claims come.
  lemma UpstreamIsToldOfTheToken(c: Config, now: int, actions: seq<Action>, sid: string, n: nat, tenant: Option<Claims>, h: Headers)
    requires DecodedTokens(c, Run(c, Start(now), actions).log)
    requires n < |Run(c, Start(now), actions).log| && Shows(Run(c, Start(now), actions).log[n], sid)
    requires TellsOf(ProxiedFrom(Run(c, Start(now), actions).log[n].record.value, tenant), h)
    ensures var log := Run(c, Start(now), actions).log;
            var last := LastSet(log, n, OfSession(sid));
            && last.Some? && IdentityAt(c, log, last.value).Some?
            && TellsOfToken(IdentityAt(c, log, last.value).value, log[n].record.value.accessToken, h)
  {
    HistoryHolds(c, now, actions);
    var log := Run(c, Start(now), actions).log;
    var i := ReadFindsWrite(c, log, n, sid);
    WrittenClaims(c, log, i, sid);
    StoredClaimsReachUpstream(IdentityAt(c, log, i).value, log[n].record.value, tenant, h);
  }

  // An engine without a header builder of its own, asked for a request of that principal,
  // tells the upstream service so whenever it lets the request through.
  method AllowedRequestNamesTheUser(engine: DefaultEngine, verified: Claims, session: Session, tenant: Option<Claims>,
                                    plugins: seq<PluginOutcome>, policy: PolicyOutcome) returns (resp: Response)
    requires DecodedClaims(verified) && StoredFor(verified, session.claims) && engine.headerBuilder.None?
    ensures resp.allow ==>
              && resp.upstreamHeaders.Some?
              && exists told :: TellsOfToken(verified, session.accessToken, told) && told.Items <= resp.upstreamHeaders.value.Items
  {
    var policyCalls;
    var p := ProxiedFrom(session, tenant);
    resp, policyCalls := engine.Handle(Known(p), plugins, policy);
    if resp.allow {
      ghost var told :| TellsOf(p, told) && told.Items <= resp.upstreamHeaders.value.Items;
      StoredClaimsReachUpstream(verified, session, tenant, told);
    }
  }
}
