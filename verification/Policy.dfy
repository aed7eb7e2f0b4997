// The decision a pipeline plugin or the policy engine returns (pkg/policy/result.go).
module Policy {
  import opened Wrappers

  // An obligation is an arbitrary value; the engine only ever looks for strings.
  datatype Obligation = Text(s: string) | NotText

  datatype Decision = Decision(
    allow: bool,
    statusCode: int,
    headers: Option<map<string, string>>,
    reason: string,
    obligations: Option<map<string, Obligation>>)

  const RATE_LIMITED := Decision(false, 429, None, "rate limit exceeded", None)
}
