// The decision pipeline of pkg/proxy/engine.go and what it inherits from the limiter.
module ProxyEngine {
  import opened Wrappers
  import opened Policy
  import opened Identity
  import opened JsonString
  import RL = RateLimit

  // What a collaborator answers for one request. A nil entry of the plugin list is Absent.
  datatype Resolution = ResolveFailed | Anonymous | Known(principal: Principal)
  datatype PluginOutcome = Absent | Failed | Passed | Decided(decision: Decision)
  datatype PolicyOutcome = PolicyFailed | Undecided | Judged(decision: Decision)

  type Headers = map<string, string>
  type HeaderBuilder = (Principal, Option<map<string, Obligation>>) -> Headers

  datatype Response = Response(allow: bool, statusCode: int, body: string, upstreamHeaders: Option<Headers>)

  // The response when there is no decision to answer with.
  function Refusal(statusCode: int, message: string): (r: Response)
    ensures !r.allow && r.statusCode == statusCode && r.upstreamHeaders.None?
    ensures r.body == "{\"errors\":[{\"message\":\"" + message + "\"}]}"
  {
    Response(false, statusCode, TEMPLATE_HEAD + message + TEMPLATE_TAIL, None)
  }

  // ------------------------------------------------------------------------------------
  // Specification of the decision
  // ------------------------------------------------------------------------------------

  predicate Quiet(outcome: PluginOutcome) {
    outcome.Absent? || outcome.Passed?
  }

  predicate AllQuiet(plugins: seq<PluginOutcome>) {
    forall i :: 0 <= i < |plugins| ==> Quiet(plugins[i])
  }

  predicate PassesAuth(requireAuth: bool, resolution: Resolution) {
    !resolution.ResolveFailed? && (resolution.Anonymous? ==> !requireAuth)
  }

  // The policy is consulted only for requests that every plugin let through.
  predicate ReachesPolicy(requireAuth: bool, resolution: Resolution, plugins: seq<PluginOutcome>) {
    PassesAuth(requireAuth, resolution) && AllQuiet(plugins)
  }

  // Plugin i is the first that did not stay quiet.
  predicate FirstToSpeak(plugins: seq<PluginOutcome>, i: nat) {
    i < |plugins| && !Quiet(plugins[i]) && AllQuiet(plugins[..i])
  }

  // The request is let through: by the first plugin to speak, or by the policy if none did.
  ghost predicate LetThrough(requireAuth: bool, resolution: Resolution, plugins: seq<PluginOutcome>, policy: PolicyOutcome) {
    && PassesAuth(requireAuth, resolution)
    && ((exists i: nat :: FirstToSpeak(plugins, i) && plugins[i].Decided? && plugins[i].decision.allow)
        || (AllQuiet(plugins) && policy.Judged? && policy.decision.allow))
  }

  // The decision the response is built from: of the first plugin to speak, else of the
  // policy, else a refusal. None when the request fails before there is a decision.
  ghost predicate DecisiveIs(requireAuth: bool, resolution: Resolution, plugins: seq<PluginOutcome>, policy: PolicyOutcome, d: Decision) {
    && PassesAuth(requireAuth, resolution)
    && ((exists i: nat :: FirstToSpeak(plugins, i) && plugins[i] == Decided(d))
        || (AllQuiet(plugins) && policy == Judged(d))
        || (AllQuiet(plugins) && policy == Undecided && d == Decision(false, 503, None, "", None)))
  }

  // ---- Headers -------------------------------------------------------------------------

  const SET_HEADER := "set_header_"

  predicate SetsHeader(k: string, v: Obligation) {
    v.Text? && SET_HEADER <= k
  }

  function HeaderName(k: string): string
    requires SET_HEADER <= k
  {
    ReplaceAll(k[|SET_HEADER|..], '_', "-")
  }

  ghost predicate FromObligation(obligations: map<string, Obligation>, name: string, value: string) {
    exists k :: k in obligations && SetsHeader(k, obligations[k]) && HeaderName(k) == name && obligations[k].s == value
  }

  ghost predicate Obliged(obligations: map<string, Obligation>, name: string) {
    exists k :: k in obligations && SetsHeader(k, obligations[k]) && HeaderName(k) == name
  }

  // The headers of the decision, overridden by its obligations (in an order Go leaves open
  // when two of them name the same header), overridden by the headers built for the principal.
  ghost predicate Merged(base: Headers, obligations: map<string, Obligation>, built: Headers, merged: Headers) {
    && (forall h :: h in built ==> h in merged && merged[h] == built[h])
    && (forall h :: h !in built && Obliged(obligations, h) ==> h in merged && FromObligation(obligations, h, merged[h]))
    && (forall h :: h !in built && !Obliged(obligations, h) ==> (h in merged <==> h in base) && (h in merged ==> merged[h] == base[h]))
  }

  function Join(items: seq<string>): string {
    if items == [] then ""
    else if |items| == 1 then items[0]
    else items[0] + "," + Join(items[1..])
  }

  // One more header, unless its value is empty.
  function With(h: Headers, name: string, value: string): Headers {
    if value == "" then h else h[name := value]
  }

  function UserHeaders(p: Principal): Headers {
    var h := With(map[], "Authorization", if p.accessToken == "" then "" else "Bearer " + p.accessToken);
    var h := With(h, "X-User-Id", p.subject);
    if p.roles == [] then h else h["X-Roles" := Join(p.roles)]
  }

  // defaultHeaderBuilder. A nil map that a builder returns is the empty map.
  function DefaultHeaders(p: Principal): Headers {
    var h := With(UserHeaders(p), "X-User-Email", TextClaim(p.claims, "email"));
    var h := With(h, "X-User-Full-Name", TextClaim(p.claims, "name"));
    var h := With(h, "X-User-Preferred-Username", TextClaim(p.claims, "preferred_username"));
    With(h, "X-Tenant-Id", if p.tenantContext.Some? then TextClaim(p.tenantContext.value, "tenant_id") else "")
  }

  // ---- What the headers say, in terms of the principal ------------------------------------

  // A header is there exactly when there is something to put in it.
  predicate Carries(h: Headers, name: string, value: string) {
    if value == "" then name !in h else name in h && h[name] == value
  }

  // The fields of a text between its commas.
  function Fields(s: string): (fields: seq<string>)
    ensures |fields| > 0
  {
    if s == "" then [""]
    else if s[0] == ',' then [""] + Fields(s[1..])
    else
      var rest := Fields(s[1..]);
      [[s[0]] + rest[0]] + rest[1..]
  }

  // The headers name the principal: its token, its subject, its roles and its claims.
  predicate TellsOf(p: Principal, h: Headers) {
    && Carries(h, "Authorization", if p.accessToken == "" then "" else "Bearer " + p.accessToken)
    && Carries(h, "X-User-Id", p.subject)
    && Carries(h, "X-User-Email", if "email" in p.claims && p.claims["email"].Text? then p.claims["email"].s else "")
    && Carries(h, "X-User-Full-Name", if "name" in p.claims && p.claims["name"].Text? then p.claims["name"].s else "")
    && Carries(h, "X-User-Preferred-Username",
               if "preferred_username" in p.claims && p.claims["preferred_username"].Text? then p.claims["preferred_username"].s else "")
    && Carries(h, "X-Tenant-Id",
               if p.tenantContext.Some? && "tenant_id" in p.tenantContext.value && p.tenantContext.value["tenant_id"].Text?
               then p.tenantContext.value["tenant_id"].s else "")
    && ("X-Roles" in h <==> p.roles != [])
    && ("X-Roles" in h && (forall i :: 0 <= i < |p.roles| ==> ',' !in p.roles[i]) ==> Fields(h["X-Roles"]) == p.roles)
  }

  const USER_HEADERS := {"Authorization", "X-User-Id", "X-Roles", "X-User-Email", "X-User-Full-Name", "X-User-Preferred-Username", "X-Tenant-Id"}

  lemma {:induction false} FieldsOfOne(s: string)
    requires ',' !in s
    ensures Fields(s) == [s]
  {
    if s != "" {
      FieldsOfOne(s[1..]);
      assert [s[0]] + s[1..] == s;
    }
  }

  lemma {:induction false} FieldsOfFirst(s: string, rest: string)
    requires ',' !in s
    ensures Fields(s + "," + rest) == [s] + Fields(rest)
  {
    if s == "" {
      assert (s + "," + rest)[1..] == rest;
    } else {
      assert (s + "," + rest)[1..] == s[1..] + "," + rest;
      FieldsOfFirst(s[1..], rest);
      assert [s[0]] + s[1..] == s;
    }
  }

  // Splitting the joined roles at the commas gives them back.
  lemma {:induction false} FieldsOfJoin(items: seq<string>)
    requires items != [] && forall i :: 0 <= i < |items| ==> ',' !in items[i]
    ensures Fields(Join(items)) == items
  {
    if |items| == 1 {
      FieldsOfOne(items[0]);
    } else {
      FieldsOfJoin(items[1..]);
      FieldsOfFirst(items[0], Join(items[1..]));
    }
  }

  lemma NamesDiffer()
    ensures |"Authorization"| == 13 && |"X-User-Id"| == 9 && |"X-Roles"| == 7 && |"X-User-Email"| == 12
    ensures |"X-User-Full-Name"| == 16 && |"X-User-Preferred-Username"| == 25 && |"X-Tenant-Id"| == 11
  {
  }

  // Headers under seven different names do not interfere.
  lemma SevenHeaders(names: seq<string>, token: string, id: string, roles: Option<string>, email: string, full: string,
                     preferred: string, tenant: string, h: Headers)
    requires |names| == 7 && forall i, j :: 0 <= i < j < 7 ==> |names[i]| != |names[j]|
    requires var user := With(With(map[], names[0], token), names[1], id);
             var some := if roles.None? then user else user[names[2] := roles.value];
             h == With(With(With(With(some, names[3], email), names[4], full), names[5], preferred), names[6], tenant)
    ensures Carries(h, names[0], token) && Carries(h, names[1], id)
    ensures names[2] in h <==> roles.Some?
    ensures roles.Some? ==> h[names[2]] == roles.value
    ensures Carries(h, names[3], email) && Carries(h, names[4], full) && Carries(h, names[5], preferred) && Carries(h, names[6], tenant)
    ensures forall name :: name in h ==> name in names
  {
  }

  lemma DefaultHeadersTell(p: Principal)
    ensures TellsOf(p, DefaultHeaders(p)) && DefaultHeaders(p).Keys <= USER_HEADERS
  {
    NamesDiffer();
    var names := ["Authorization", "X-User-Id", "X-Roles", "X-User-Email", "X-User-Full-Name", "X-User-Preferred-Username", "X-Tenant-Id"];
    SevenHeaders(names, if p.accessToken == "" then "" else "Bearer " + p.accessToken, p.subject,
                 if p.roles == [] then None else Some(Join(p.roles)), TextClaim(p.claims, "email"), TextClaim(p.claims, "name"),
                 TextClaim(p.claims, "preferred_username"),
                 if p.tenantContext.Some? then TextClaim(p.tenantContext.value, "tenant_id") else "", DefaultHeaders(p));
    if p.roles != [] && forall i :: 0 <= i < |p.roles| ==> ',' !in p.roles[i] {
      FieldsOfJoin(p.roles);
    }
  }

  // ---- Which header an obligation sets ------------------------------------------------------

  // The name is the text with a dash for every underscore.
  predicate Dashed(text: string, name: string) {
    |name| == |text| && forall i :: 0 <= i < |text| ==> name[i] == if text[i] == '_' then '-' else text[i]
  }

  lemma {:induction false} DashesReplace(text: string)
    ensures Dashed(text, ReplaceAll(text, '_', "-"))
  {
    if text != "" {
      DashesReplace(text[1..]);
      assert text == [text[0]] + text[1..];
    }
  }

  // A header is set by an obligation exactly when there is a text under set_header_ and the
  // header's name, up to dashes for underscores.
  lemma ObligedExactly(obligations: map<string, Obligation>, name: string, value: string)
    ensures FromObligation(obligations, name, value) <==>
            exists k :: k in obligations && obligations[k] == Obligation.Text(value) && "set_header_" <= k && Dashed(k[11..], name)
  {
    forall k | "set_header_" <= k ensures HeaderName(k) == name <==> Dashed(k[11..], name) {
      DashesReplace(k[11..]);
    }
  }

  // ------------------------------------------------------------------------------------
  // The engine
  // ------------------------------------------------------------------------------------

  class DefaultEngine {
    const requireAuth: bool
    const headerBuilder: Option<HeaderBuilder>

    constructor (requireAuth: bool, headerBuilder: Option<HeaderBuilder>)
      ensures this.requireAuth == requireAuth && this.headerBuilder == headerBuilder
    {
      this.requireAuth := requireAuth;
      this.headerBuilder := headerBuilder;
    }

    // The answers the collaborators would give are inputs; policyCalls counts how often
    // the policy is asked.
    method Handle(resolution: Resolution, plugins: seq<PluginOutcome>, policy: PolicyOutcome)
      returns (resp: Response, policyCalls: nat)
      ensures resp.allow <==> LetThrough(requireAuth, resolution, plugins, policy)
      ensures policyCalls <= 1
      ensures policyCalls == 1 <==> ReachesPolicy(requireAuth, resolution, plugins)
      ensures resolution.ResolveFailed? ==> resp == Refusal(502, "auth resolution failed")
      ensures resolution.Anonymous? && requireAuth ==> resp == Refusal(401, "unauthorized")
      ensures PassesAuth(requireAuth, resolution) && (exists i: nat :: FirstToSpeak(plugins, i) && plugins[i].Failed?) ==>
                resp == Refusal(503, "pipeline plugin error")
      ensures ReachesPolicy(requireAuth, resolution, plugins) && policy.PolicyFailed? ==> resp == Refusal(500, "policy error")
      ensures forall d :: DecisiveIs(requireAuth, resolution, plugins, policy, d) ==>
                && resp.statusCode == d.statusCode
                && resp.body == (if d.reason != "" && !d.allow then DenyBody(d.reason) else "")
                && HeadersFor(d, resolution, resp.upstreamHeaders)
      ensures headerBuilder.None? && resp.allow && resolution.Known? ==>
                && resp.upstreamHeaders.Some?
                && exists built :: TellsOf(resolution.principal, built) && built.Items <= resp.upstreamHeaders.value.Items
      ensures headerBuilder.None? && resp.allow && resolution.Known? ==>
                forall d :: DecisiveIs(requireAuth, resolution, plugins, policy, d) && d.headers.None? && d.obligations.None? ==>
                  TellsOf(resolution.principal, resp.upstreamHeaders.value) && resp.upstreamHeaders.value.Keys <= USER_HEADERS
    {
      policyCalls := 0;
      if resolution.ResolveFailed? {
        return Refusal(502, "auth resolution failed"), policyCalls;
      }
      if resolution.Anonymous? && requireAuth {
        return Refusal(401, "unauthorized"), policyCalls;
      }
      var decision: Option<Decision> := None;
      var i := 0;
      while i < |plugins| && decision.None?
        invariant 0 <= i <= |plugins|
        invariant decision.None? ==> AllQuiet(plugins[..i])
        invariant decision.Some? ==> i > 0 && FirstToSpeak(plugins, i - 1) && plugins[i - 1] == Decided(decision.value)
        decreases |plugins| - i
      {
        match plugins[i] {
          case Absent =>
          case Passed =>
          case Failed =>
            assert FirstToSpeak(plugins, i);
            return Refusal(503, "pipeline plugin error"), policyCalls;
          case Decided(d) =>
            decision := Some(d);
        }
        i := i + 1;
      }
      assert decision.None? ==> plugins[..i] == plugins;
      if decision.None? {
        policyCalls := policyCalls + 1;
        match policy
        case PolicyFailed =>
          return Refusal(500, "policy error"), policyCalls;
        case Undecided =>
        case Judged(d) =>
          decision := Some(d);
      }
      var d := if decision.Some? then decision.value else Decision(false, 503, None, "", None);
      OneDecision(requireAuth, resolution, plugins, policy, d);
      var body := if d.reason != "" && !d.allow then DenyBody(d.reason) else "";
      var headers := BuildHeaders(d, resolution);
      resp := Response(d.allow, d.statusCode, body, headers);
    }

    // What the upstream headers are, given the decisive decision.
    ghost predicate HeadersFor(d: Decision, resolution: Resolution, headers: Option<Headers>) {
      var identified := d.allow && resolution.Known?;
      && (headers.None? <==> d.headers.None? && d.obligations.None? && !identified)
      && (headers.Some? ==>
            Merged(if d.headers.Some? then d.headers.value else map[],
                   if d.obligations.Some? then d.obligations.value else map[],
                   if identified then Built(resolution.principal, d.obligations) else map[],
                   headers.value))
    }

    function Built(p: Principal, obligations: Option<map<string, Obligation>>): Headers {
      if headerBuilder.Some? then headerBuilder.value(p, obligations) else DefaultHeaders(p)
    }

    method BuildHeaders(d: Decision, resolution: Resolution) returns (headers: Option<Headers>)
      ensures HeadersFor(d, resolution, headers)
      ensures headerBuilder.None? && d.allow && resolution.Known? ==>
                && headers.Some?
                && (exists built :: TellsOf(resolution.principal, built) && built.Items <= headers.value.Items)
                && (d.headers.None? && d.obligations.None? ==>
                      TellsOf(resolution.principal, headers.value) && headers.value.Keys <= USER_HEADERS)
    {
      var base := if d.headers.Some? then d.headers.value else map[];
      ghost var obligations := if d.obligations.Some? then d.obligations.value else map[];
      headers := d.headers;
      if d.obligations.Some? {
        var merged := MergeObligations(base, d.obligations.value);
        headers := Some(merged);
      }
      ghost var merged := if headers.Some? then headers.value else map[];
      assert Merged(base, obligations, map[], merged);
      if d.allow && resolution.Known? {
        var built := Built(resolution.principal, d.obligations);
        BuiltHeadersWin(base, obligations, merged, built);
        headers := Some(if headers.Some? then headers.value + built else built);
        assert headers.value == merged + built;
        DefaultHeadersTell(resolution.principal);
        assert built.Items <= headers.value.Items;
      }
    }
  }

  lemma BuiltHeadersWin(base: Headers, obligations: map<string, Obligation>, merged: Headers, built: Headers)
    requires Merged(base, obligations, map[], merged)
    ensures Merged(base, obligations, built, merged + built)
  {
  }

  method MergeObligations(base: Headers, obligations: map<string, Obligation>) returns (headers: Headers)
    ensures Merged(base, obligations, map[], headers)
  {
    headers := base;
    var rest := obligations.Keys;
    ghost var done: map<string, Obligation> := map[];
    while rest != {}
      invariant rest <= obligations.Keys && done.Keys == obligations.Keys - rest
      invariant forall k :: k in done ==> done[k] == obligations[k]
      invariant Merged(base, done, map[], headers)
      decreases rest
    {
      var k :| k in rest;
      var v := obligations[k];
      ghost var before, sofar := done, headers;
      if v.Text? && SET_HEADER <= k {
        headers := headers[HeaderName(k) := v.s];
      }
      done := done[k := v];
      rest := rest - {k};
      MergeOne(base, before, sofar, k, v, headers);
    }
    assert done == obligations;
  }

  lemma MergeOne(base: Headers, before: map<string, Obligation>, headers: Headers, k: string, v: Obligation, after: Headers)
    requires k !in before && Merged(base, before, map[], headers)
    requires after == if SetsHeader(k, v) then headers[HeaderName(k) := v.s] else headers
    ensures Merged(base, before[k := v], map[], after)
  {
    var now := before[k := v];
    forall h
      ensures Obliged(now, h) ==> h in after && FromObligation(now, h, after[h])
      ensures !Obliged(now, h) ==> (h in after <==> h in base) && (h in after ==> after[h] == base[h])
    {
      MergeOneAt(base, before, headers, k, v, after, h);
    }
  }

  lemma MergeOneAt(base: Headers, before: map<string, Obligation>, headers: Headers, k: string, v: Obligation, after: Headers, h: string)
    requires k !in before && Merged(base, before, map[], headers)
    requires after == if SetsHeader(k, v) then headers[HeaderName(k) := v.s] else headers
    ensures Obliged(before[k := v], h) ==> h in after && FromObligation(before[k := v], h, after[h])
    ensures !Obliged(before[k := v], h) ==> (h in after <==> h in base) && (h in after ==> after[h] == base[h])
  {
    var now := before[k := v];
    if SetsHeader(k, v) && HeaderName(k) == h {
      assert k in now && now[k] == v;
    } else {
      assert forall l :: l in before ==> l in now && now[l] == before[l];
      assert Obliged(now, h) <==> Obliged(before, h);
      assert h in headers <==> h in after;
      if Obliged(before, h) {
        var l :| l in before && SetsHeader(l, before[l]) && HeaderName(l) == h && before[l].s == headers[h];
        assert now[l] == before[l];
      }
    }
  }

  // At most one plugin is the first to speak, so at most one decision is decisive.
  lemma OneDecision(requireAuth: bool, resolution: Resolution, plugins: seq<PluginOutcome>, policy: PolicyOutcome, d: Decision)
    requires DecisiveIs(requireAuth, resolution, plugins, policy, d)
    ensures forall e :: DecisiveIs(requireAuth, resolution, plugins, policy, e) ==> e == d
    ensures LetThrough(requireAuth, resolution, plugins, policy) <==> d.allow
    ensures !exists i: nat :: FirstToSpeak(plugins, i) && plugins[i].Failed?
    ensures AllQuiet(plugins) ==> !policy.PolicyFailed?
  {
    forall i: nat, j: nat | FirstToSpeak(plugins, i) && FirstToSpeak(plugins, j) ensures i == j {
    }
  }

  // ------------------------------------------------------------------------------------
  // The limiter's bound holds for the whole proxy
  // ------------------------------------------------------------------------------------

  // One request to an engine with the limiter in its pipeline: what the plugins before and
  // after the limiter answer, and the key and time with which the limiter would see it.
  datatype Request = Request(
    resolution: Resolution,
    before: seq<PluginOutcome>,
    key: RL.Key,
    now: int,
    after: seq<PluginOutcome>,
    policy: PolicyOutcome)

  predicate ReachesLimiter(requireAuth: bool, r: Request) {
    PassesAuth(requireAuth, r.resolution) && AllQuiet(r.before)
  }

  // The limiter's own run: the requests that reach it.
  function LimiterRun(requireAuth: bool, requests: seq<Request>): (run: seq<RL.Arrival>)
    ensures |run| <= |requests|
  {
    if requests == [] then []
    else
      var n := |requests| - 1;
      LimiterRun(requireAuth, requests[..n]) +
      (if ReachesLimiter(requireAuth, requests[n]) then [RL.Arrival(requests[n].key, requests[n].now)] else [])
  }

  function LimiterOutcome(cfg: RL.Config, requireAuth: bool, requests: seq<Request>, n: nat): PluginOutcome
    requires n < |requests|
  {
    var levels := RL.After(cfg, LimiterRun(requireAuth, requests[..n]));
    if RL.Admits(cfg, levels, requests[n].key, requests[n].now) then Passed else Decided(RATE_LIMITED)
  }

  function Pipeline(cfg: RL.Config, requireAuth: bool, requests: seq<Request>, n: nat): seq<PluginOutcome>
    requires n < |requests|
  {
    requests[n].before + [LimiterOutcome(cfg, requireAuth, requests, n)] + requests[n].after
  }

  // The engine lets request n of the run through.
  ghost predicate Allowed(cfg: RL.Config, requireAuth: bool, requests: seq<Request>, n: nat)
    requires n < |requests|
  {
    LetThrough(requireAuth, requests[n].resolution, Pipeline(cfg, requireAuth, requests, n), requests[n].policy)
  }

  ghost predicate NoEarlyAllow(requests: seq<Request>) {
    forall n, i :: 0 <= n < |requests| && 0 <= i < |requests[n].before| && requests[n].before[i].Decided? ==>
      !requests[n].before[i].decision.allow
  }

  ghost function CountAllowed(cfg: RL.Config, requireAuth: bool, requests: seq<Request>, k: RL.Key, from: int, to: int, n: nat): nat
    requires n <= |requests|
  {
    if n == 0 then 0
    else
      CountAllowed(cfg, requireAuth, requests, k, from, to, n - 1) +
      (if requests[n - 1].key == k && from <= requests[n - 1].now <= to && Allowed(cfg, requireAuth, requests, n - 1) then 1 else 0)
  }

  // An allowed request went through the limiter and was admitted by it.
  lemma AllowedIsAdmitted(cfg: RL.Config, requireAuth: bool, requests: seq<Request>, n: nat)
    requires n < |requests| && NoEarlyAllow(requests) && Allowed(cfg, requireAuth, requests, n)
    ensures ReachesLimiter(requireAuth, requests[n])
    ensures LimiterOutcome(cfg, requireAuth, requests, n) == Passed
  {
    var r := requests[n];
    var plugins := Pipeline(cfg, requireAuth, requests, n);
    var position := |r.before|;
    assert plugins[position] == LimiterOutcome(cfg, requireAuth, requests, n);
    if AllQuiet(plugins) {
      assert forall i :: 0 <= i < position ==> r.before[i] == plugins[i];
      assert Quiet(plugins[position]);
    } else {
      var i: nat :| FirstToSpeak(plugins, i) && plugins[i].Decided? && plugins[i].decision.allow;
      assert i >= position;
      assert forall j :: 0 <= j < i ==> plugins[..i][j] == plugins[j];
      assert forall j :: 0 <= j < position ==> r.before[j] == plugins[j];
      if i > position {
        assert Quiet(plugins[position]);
      }
    }
  }

  // What the limiter decides on the last request to reach it.
  lemma CountOneMore(cfg: RL.Config, run: seq<RL.Arrival>, r: RL.Arrival, k: RL.Key, from: int, to: int)
    ensures RL.CountInWindow(cfg, run + [r], k, from, to, |run| + 1)
            == RL.CountInWindow(cfg, run, k, from, to, |run|)
               + (if r.key == k && from <= r.now <= to && RL.Admits(cfg, RL.After(cfg, run), r.key, r.now) then 1 else 0)
  {
    CountIsPrefixClosed(cfg, run, run + [r], k, from, to, |run|);
    assert (run + [r])[..|run|] == run;
  }

  // A request that reaches the limiter and is admitted there adds one to the limiter's count.
  lemma AdmittedCounts(cfg: RL.Config, requireAuth: bool, requests: seq<Request>, k: RL.Key, from: int, to: int, n: nat, allowed: bool)
    requires n < |requests|
    requires allowed ==>
      && ReachesLimiter(requireAuth, requests[n])
      && RL.Admits(cfg, RL.After(cfg, LimiterRun(requireAuth, requests[..n])), requests[n].key, requests[n].now)
    ensures var run, longer := LimiterRun(requireAuth, requests[..n]), LimiterRun(requireAuth, requests[..n + 1]);
            RL.CountInWindow(cfg, longer, k, from, to, |longer|)
            >= RL.CountInWindow(cfg, run, k, from, to, |run|)
               + (if requests[n].key == k && from <= requests[n].now <= to && allowed then 1 else 0)
  {
    assert requests[..n + 1][..n] == requests[..n];
    var run := LimiterRun(requireAuth, requests[..n]);
    if ReachesLimiter(requireAuth, requests[n]) {
      CountOneMore(cfg, run, RL.Arrival(requests[n].key, requests[n].now), k, from, to);
    } else {
      assert LimiterRun(requireAuth, requests[..n + 1]) == run;
    }
  }

  // An allowed request raises the limiter's count as much as the engine's.
  lemma OneMoreRequest(cfg: RL.Config, requireAuth: bool, requests: seq<Request>, k: RL.Key, from: int, to: int, n: nat)
    requires n < |requests| && NoEarlyAllow(requests)
    ensures var run, longer := LimiterRun(requireAuth, requests[..n]), LimiterRun(requireAuth, requests[..n + 1]);
            RL.CountInWindow(cfg, longer, k, from, to, |longer|) - RL.CountInWindow(cfg, run, k, from, to, |run|)
            >= CountAllowed(cfg, requireAuth, requests, k, from, to, n + 1) - CountAllowed(cfg, requireAuth, requests, k, from, to, n)
  {
    var allowed := Allowed(cfg, requireAuth, requests, n);
    if allowed {
      AllowedIsAdmitted(cfg, requireAuth, requests, n);
    }
    AdmittedCounts(cfg, requireAuth, requests, k, from, to, n, allowed);
  }

  lemma {:induction false} AllowedAtMostAdmitted(cfg: RL.Config, requireAuth: bool, requests: seq<Request>, k: RL.Key, from: int, to: int, n: nat)
    requires n <= |requests| && NoEarlyAllow(requests)
    ensures var run := LimiterRun(requireAuth, requests[..n]);
            CountAllowed(cfg, requireAuth, requests, k, from, to, n) <= RL.CountInWindow(cfg, run, k, from, to, |run|)
  {
    if n > 0 {
      AllowedAtMostAdmitted(cfg, requireAuth, requests, k, from, to, n - 1);
      OneMoreRequest(cfg, requireAuth, requests, k, from, to, n - 1);
    }
  }

  lemma {:induction false} CountIsPrefixClosed(cfg: RL.Config, run: seq<RL.Arrival>, longer: seq<RL.Arrival>, k: RL.Key, from: int, to: int, n: nat)
    requires run <= longer && n <= |run|
    ensures RL.CountInWindow(cfg, longer, k, from, to, n) == RL.CountInWindow(cfg, run, k, from, to, n)
  {
    if n > 0 {
      CountIsPrefixClosed(cfg, run, longer, k, from, to, n - 1);
      assert longer[..n - 1] == run[..n - 1];
    }
  }

  lemma {:induction false} LimiterRunIsOrdered(requireAuth: bool, requests: seq<Request>, k: RL.Key)
    requires forall i, j :: 0 <= i <= j < |requests| && requests[i].key == k && requests[j].key == k ==> requests[i].now <= requests[j].now
    ensures RL.Ordered(LimiterRun(requireAuth, requests), k)
    ensures forall i :: 0 <= i < |LimiterRun(requireAuth, requests)| ==>
              exists j :: 0 <= j < |requests| && RL.Arrival(requests[j].key, requests[j].now) == LimiterRun(requireAuth, requests)[i]
  {
    if requests != [] {
      var n := |requests| - 1;
      var shorter := requests[..n];
      LimiterRunIsOrdered(requireAuth, shorter, k);
      var run, whole := LimiterRun(requireAuth, shorter), LimiterRun(requireAuth, requests);
      forall i | 0 <= i < |whole|
        ensures exists j :: 0 <= j < |requests| && RL.Arrival(requests[j].key, requests[j].now) == whole[i]
        ensures i < |run| && whole[i].key == k && requests[n].key == k ==> whole[i].now <= requests[n].now
      {
        if i < |run| {
          var j :| 0 <= j < |shorter| && RL.Arrival(shorter[j].key, shorter[j].now) == run[i];
          assert requests[j] == shorter[j];
          assert RL.Arrival(requests[j].key, requests[j].now) == whole[i];
        } else {
          assert RL.Arrival(requests[n].key, requests[n].now) == whole[i];
        }
      }
    }
  }

  // For every limiter key and every window, the responses that allow the request number at
  // most burst + rate * window.
  lemma ProxyKeepsTheBound(cfg: RL.Config, requireAuth: bool, requests: seq<Request>, k: RL.Key, from: int, to: int)
    requires RL.WellConfigured(cfg) && NoEarlyAllow(requests) && from <= to
    requires forall i, j :: 0 <= i <= j < |requests| && requests[i].key == k && requests[j].key == k ==> requests[i].now <= requests[j].now
    ensures CountAllowed(cfg, requireAuth, requests, k, from, to, |requests|) * 60_000_000_000
            <= cfg.burst * 60_000_000_000 + cfg.requestsPerMinute * (to - from)
  {
    AllowedAtMostAdmitted(cfg, requireAuth, requests, k, from, to, |requests|);
    assert requests[..|requests|] == requests;
    LimiterRunIsOrdered(requireAuth, requests, k);
    RL.WindowBound(cfg, LimiterRun(requireAuth, requests), k, from, to);
  }
}
