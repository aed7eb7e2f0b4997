// The token-bucket limiter of pkg/plugins/pipeline/ratelimit/ratelimit.go.
//
// Token counts are exact integers in units of 1/(60 * 10^9) token and times are
// integer nanoseconds, so `elapsed` nanoseconds refill `elapsed * requestsPerMinute` units.
module RateLimit {
  import opened Wrappers
  import opened Policy

  type Key = string

  // One token, in units.
  const TOKEN := 60_000_000_000

  datatype Strategy = Ip | Principal | Header

  // The zero value (no requests per minute, no burst) is the state before Configure.
  datatype Config = Config(requestsPerMinute: int, burst: int, strategy: Option<Strategy>, headerName: string)

  // What Configure decodes: the strategy is None when the trimmed, lower-cased text is
  // none of the three known names; headerBlank says the trimmed header name is empty.
  datatype RawConfig = RawConfig(requestsPerMinute: int, burst: int, strategy: Option<Strategy>,
                                 headerName: string, headerBlank: bool)

  datatype ConfigError = RateTooLow | BurstTooLow | UnknownStrategy | HeaderNameMissing

  predicate WellConfigured(cfg: Config) {
    cfg.requestsPerMinute >= 0 && cfg.burst >= 0
  }

  function Capacity(cfg: Config): int {
    cfg.burst * TOKEN
  }

  // ------------------------------------------------------------------------------------
  // Specification: bucket levels as values, runs as sequences of arrivals in lock order.
  // ------------------------------------------------------------------------------------

  datatype Level = Level(tokens: int, last: int)
  type Levels = map<Key, Level>

  function Refilled(cfg: Config, level: Level, now: int): int {
    if now > level.last
    then Min(Capacity(cfg), level.tokens + cfg.requestsPerMinute * (now - level.last))
    else level.tokens
  }

  // The tokens a request on `key` finds at time `now`; a new bucket starts full.
  function Available(cfg: Config, levels: Levels, key: Key, now: int): int {
    if key in levels then Refilled(cfg, levels[key], now) else Capacity(cfg)
  }

  predicate Admits(cfg: Config, levels: Levels, key: Key, now: int) {
    Available(cfg, levels, key, now) >= TOKEN
  }

  function Take(cfg: Config, levels: Levels, key: Key, now: int): Levels {
    var found := Available(cfg, levels, key, now);
    levels[key := Level(if found >= TOKEN then found - TOKEN else found, now)]
  }

  datatype Arrival = Arrival(key: Key, now: int)

  // The levels after a run that starts with no buckets.
  function After(cfg: Config, run: seq<Arrival>): Levels {
    if run == [] then map[]
    else
      var last := run[|run| - 1];
      Take(cfg, After(cfg, run[..|run| - 1]), last.key, last.now)
  }

  // The decision on request i of the run.
  predicate Admitted(cfg: Config, run: seq<Arrival>, i: nat)
    requires i < |run|
  {
    Admits(cfg, After(cfg, run[..i]), run[i].key, run[i].now)
  }

  // How many requests on key k among those numbered lo .. hi-1 are admitted.
  function CountAdmitted(cfg: Config, run: seq<Arrival>, k: Key, lo: nat, hi: nat): nat
    requires hi <= |run|
    decreases hi
  {
    if hi <= lo then 0
    else
      CountAdmitted(cfg, run, k, lo, hi - 1) +
      (if run[hi - 1].key == k && Admitted(cfg, run, hi - 1) then 1 else 0)
  }

  // Requests on key k carry non-decreasing timestamps in lock order.
  ghost predicate Ordered(run: seq<Arrival>, k: Key) {
    forall i, j :: 0 <= i <= j < |run| && run[i].key == k && run[j].key == k ==> run[i].now <= run[j].now
  }

  // No request on key k among the first n is later than `now`.
  ghost predicate NoneLater(run: seq<Arrival>, k: Key, n: nat, now: int)
    requires n <= |run|
  {
    forall j :: 0 <= j < n && run[j].key == k ==> run[j].now <= now
  }

  lemma AfterStep(cfg: Config, run: seq<Arrival>, n: nat)
    requires n < |run|
    ensures After(cfg, run[..n + 1]) == Take(cfg, After(cfg, run[..n]), run[n].key, run[n].now)
  {
    assert run[..n + 1][..n] == run[..n];
  }

  lemma AfterAppend(cfg: Config, run: seq<Arrival>, r: Arrival)
    ensures After(cfg, run + [r]) == Take(cfg, After(cfg, run), r.key, r.now)
  {
    assert (run + [r])[..|run|] == run;
  }

  lemma RateSplits(rate: int, a: int, b: int, c: int)
    ensures rate * (b - a) + rate * (c - b) == rate * (c - a)
  {
  }

  lemma RateMonotone(rate: int, a: int, b: int)
    requires rate >= 0 && a <= b
    ensures rate * a <= rate * b
  {
  }

  // ---- 0 <= tokens <= burst in every bucket, whatever the timestamps --------------------

  ghost predicate InRange(cfg: Config, levels: Levels) {
    forall k :: k in levels ==> 0 <= levels[k].tokens <= Capacity(cfg)
  }

  lemma AvailableInRange(cfg: Config, levels: Levels, key: Key, now: int)
    requires WellConfigured(cfg) && InRange(cfg, levels)
    ensures 0 <= Available(cfg, levels, key, now) <= Capacity(cfg)
  {
    if key in levels && now > levels[key].last {
      RateMonotone(cfg.requestsPerMinute, 0, now - levels[key].last);
    }
  }

  lemma {:induction false} TokensStayInRange(cfg: Config, run: seq<Arrival>)
    requires WellConfigured(cfg)
    ensures InRange(cfg, After(cfg, run))
  {
    if run != [] {
      var n := |run| - 1;
      TokensStayInRange(cfg, run[..n]);
      AvailableInRange(cfg, After(cfg, run[..n]), run[n].key, run[n].now);
    }
  }

  // ---- The min-plus characterisation ---------------------------------------------------

  // What request j alone leaves of the capacity for a request at time `now` after the
  // first n requests: a full bucket at j, refilled since, minus what was admitted since.
  function Allowance(cfg: Config, run: seq<Arrival>, k: Key, j: nat, n: nat, now: int): int
    requires j < n <= |run|
  {
    Capacity(cfg) + cfg.requestsPerMinute * (now - run[j].now) - TOKEN * CountAdmitted(cfg, run, k, j, n)
  }

  // The tokens found are the minimum of the capacity and of all allowances.
  lemma {:induction false} AvailableIsMinimum(cfg: Config, run: seq<Arrival>, k: Key, n: nat, now: int)
    requires WellConfigured(cfg) && n <= |run| && Ordered(run, k) && NoneLater(run, k, n, now)
    ensures var found := Available(cfg, After(cfg, run[..n]), k, now);
            && found <= Capacity(cfg)
            && (forall j :: 0 <= j < n && run[j].key == k ==> found <= Allowance(cfg, run, k, j, n, now))
            && (found == Capacity(cfg) ||
                exists j :: 0 <= j < n && run[j].key == k && found == Allowance(cfg, run, k, j, n, now))
    decreases n, 1
  {
    if n > 0 {
      var r := run[n - 1];
      AfterStep(cfg, run, n - 1);
      if r.key != k {
        AvailableIsMinimum(cfg, run, k, n - 1, now);
        forall j | 0 <= j < n - 1 && run[j].key == k
          ensures Allowance(cfg, run, k, j, n, now) == Allowance(cfg, run, k, j, n - 1, now)
        {
        }
      } else {
        MinimumAfterTake(cfg, run, k, n, now);
      }
    }
  }

  lemma AllowanceMoves(cfg: Config, run: seq<Arrival>, k: Key, j: nat, n: nat, now: int, taken: nat)
    requires j < n - 1 < |run| && run[n - 1].key == k && taken == if Admitted(cfg, run, n - 1) then 1 else 0
    ensures Allowance(cfg, run, k, j, n, now) ==
            Allowance(cfg, run, k, j, n - 1, run[n - 1].now) - TOKEN * taken + cfg.requestsPerMinute * (now - run[n - 1].now)
  {
    RateSplits(cfg.requestsPerMinute, run[j].now, run[n - 1].now, now);
  }

  lemma AllowanceStarts(cfg: Config, run: seq<Arrival>, k: Key, n: nat, now: int, taken: nat)
    requires 0 < n <= |run| && run[n - 1].key == k && taken == if Admitted(cfg, run, n - 1) then 1 else 0
    ensures Allowance(cfg, run, k, n - 1, n, now) ==
            Capacity(cfg) - TOKEN * taken + cfg.requestsPerMinute * (now - run[n - 1].now)
  {
    assert CountAdmitted(cfg, run, k, n - 1, n) == CountAdmitted(cfg, run, k, n - 1, n - 1) + taken;
  }

  lemma MinimumAfterTake(cfg: Config, run: seq<Arrival>, k: Key, n: nat, now: int)
    requires WellConfigured(cfg) && 0 < n <= |run| && Ordered(run, k) && NoneLater(run, k, n, now)
    requires run[n - 1].key == k
    ensures var found := Available(cfg, After(cfg, run[..n]), k, now);
            && found <= Capacity(cfg)
            && (forall j :: 0 <= j < n && run[j].key == k ==> found <= Allowance(cfg, run, k, j, n, now))
            && (found == Capacity(cfg) ||
                exists j :: 0 <= j < n && run[j].key == k && found == Allowance(cfg, run, k, j, n, now))
    decreases n, 0
  {
    var r := run[n - 1];
    var rate := cfg.requestsPerMinute;
    AfterStep(cfg, run, n - 1);
    AvailableIsMinimum(cfg, run, k, n - 1, r.now);
    var before := Available(cfg, After(cfg, run[..n - 1]), k, r.now);
    var found := Available(cfg, After(cfg, run[..n]), k, now);
    var left := if before >= TOKEN then before - TOKEN else before;
    assert found == Min(Capacity(cfg), left + rate * (now - r.now)) by {
      assert now == r.now ==> rate * (now - r.now) == 0;
    }
    var taken := if before >= TOKEN then 1 else 0;
    forall j | 0 <= j < n - 1 && run[j].key == k
      ensures Allowance(cfg, run, k, j, n, now) ==
              Allowance(cfg, run, k, j, n - 1, r.now) - TOKEN * taken + rate * (now - r.now)
    {
      AllowanceMoves(cfg, run, k, j, n, now, taken);
    }
    AllowanceStarts(cfg, run, k, n, now, taken);
    if found != Capacity(cfg) && before != Capacity(cfg) {
      var j :| 0 <= j < n - 1 && run[j].key == k && before == Allowance(cfg, run, k, j, n - 1, r.now);
      assert found == Allowance(cfg, run, k, j, n, now);
    }
  }

  // Request i fits the budget of the window that starts at request j. A minute has 60 * 10^9
  // nanoseconds, so that requestsPerMinute admits that many requests in it.
  predicate Fits(cfg: Config, run: seq<Arrival>, j: nat, i: nat)
    requires j <= i < |run|
  {
    (CountAdmitted(cfg, run, run[i].key, j, i) + 1) * 60_000_000_000
    <= cfg.burst * 60_000_000_000 + cfg.requestsPerMinute * (run[i].now - run[j].now)
  }

  // Request i is admitted exactly when it fits the burst-plus-rate budget of every
  // window that starts at an earlier request of its key (or at itself).
  lemma AdmissionIsMinPlus(cfg: Config, run: seq<Arrival>, i: nat)
    requires WellConfigured(cfg) && i < |run| && Ordered(run, run[i].key)
    ensures Admitted(cfg, run, i) <==>
            forall j :: 0 <= j <= i && run[j].key == run[i].key ==> Fits(cfg, run, j, i)
  {
    var k, now := run[i].key, run[i].now;
    AvailableIsMinimum(cfg, run, k, i, now);
    var found := Available(cfg, After(cfg, run[..i]), k, now);
    assert found < TOKEN && found == Capacity(cfg) ==> !Fits(cfg, run, i, i);
    forall j | 0 <= j < i && run[j].key == k
      ensures found <= Allowance(cfg, run, k, j, i, now)
      ensures Fits(cfg, run, j, i) <==> TOKEN <= Allowance(cfg, run, k, j, i, now)
    {
    }
    if found >= TOKEN {
      assert Fits(cfg, run, i, i);
    }
  }

  // ---- At most burst + rate * window --------------------------------------------------

  lemma {:induction false} AtMostBurstPlusRate(cfg: Config, run: seq<Arrival>, i: nat, j: nat)
    requires WellConfigured(cfg) && i <= j < |run| && run[i].key == run[j].key && Ordered(run, run[i].key)
    ensures CountAdmitted(cfg, run, run[i].key, i, j + 1) * 60_000_000_000
            <= cfg.burst * 60_000_000_000 + cfg.requestsPerMinute * (run[j].now - run[i].now)
  {
    CountUpTo(cfg, run, run[i].key, i, j + 1, run[j].now);
  }

  lemma {:induction false} CountUpTo(cfg: Config, run: seq<Arrival>, k: Key, i: nat, n: nat, now: int)
    requires WellConfigured(cfg) && i < |run| && n <= |run| && run[i].key == k && Ordered(run, k)
    requires NoneLater(run, k, n, now) && run[i].now <= now
    ensures CountAdmitted(cfg, run, k, i, n) * TOKEN <= Capacity(cfg) + cfg.requestsPerMinute * (now - run[i].now)
    decreases n
  {
    RateMonotone(cfg.requestsPerMinute, 0, now - run[i].now);
    if n > i {
      if run[n - 1].key == k && Admitted(cfg, run, n - 1) {
        AdmissionIsMinPlus(cfg, run, n - 1);
        assert Fits(cfg, run, i, n - 1);
        RateMonotone(cfg.requestsPerMinute, run[n - 1].now - run[i].now, now - run[i].now);
      } else {
        CountUpTo(cfg, run, k, i, n - 1, now);
      }
    }
  }

  // Admitted requests on k among the first n whose timestamp lies in [from, to].
  function CountInWindow(cfg: Config, run: seq<Arrival>, k: Key, from: int, to: int, n: nat): nat
    requires n <= |run|
  {
    if n == 0 then 0
    else
      CountInWindow(cfg, run, k, from, to, n - 1) +
      (if run[n - 1].key == k && from <= run[n - 1].now <= to && Admitted(cfg, run, n - 1) then 1 else 0)
  }

  lemma {:induction false} CountGrows(cfg: Config, run: seq<Arrival>, k: Key, lo: nat, mid: nat, hi: nat)
    requires mid <= hi <= |run|
    ensures CountAdmitted(cfg, run, k, lo, mid) <= CountAdmitted(cfg, run, k, lo, hi)
    decreases hi
  {
    if mid < hi && lo < hi {
      CountGrows(cfg, run, k, lo, mid, hi - 1);
    }
  }

  // The first and the last admitted request of a window that admits any.
  lemma {:induction false} WindowSpan(cfg: Config, run: seq<Arrival>, k: Key, from: int, to: int, n: nat) returns (i: nat, j: nat)
    requires n <= |run| && CountInWindow(cfg, run, k, from, to, n) > 0
    ensures i <= j < n && run[i].key == k && run[j].key == k && from <= run[i].now && run[j].now <= to
    ensures CountInWindow(cfg, run, k, from, to, n) <= CountAdmitted(cfg, run, k, i, j + 1)
  {
    var before := CountInWindow(cfg, run, k, from, to, n - 1);
    if before == 0 {
      i, j := n - 1, n - 1;
    } else {
      i, j := WindowSpan(cfg, run, k, from, to, n - 1);
      if CountInWindow(cfg, run, k, from, to, n) > before {
        CountGrows(cfg, run, k, i, j + 1, n - 1);
        j := n - 1;
      }
    }
  }

  // In any time window, at most burst + rate * (length of the window) requests are admitted.
  lemma WindowBound(cfg: Config, run: seq<Arrival>, k: Key, from: int, to: int)
    requires WellConfigured(cfg) && Ordered(run, k) && from <= to
    ensures CountInWindow(cfg, run, k, from, to, |run|) * 60_000_000_000
            <= cfg.burst * 60_000_000_000 + cfg.requestsPerMinute * (to - from)
  {
    RateMonotone(cfg.requestsPerMinute, 0, to - from);
    var count := CountInWindow(cfg, run, k, from, to, |run|);
    if count > 0 {
      var i, j := WindowSpan(cfg, run, k, from, to, |run|);
      AtMostBurstPlusRate(cfg, run, i, j);
      RateMonotone(cfg.requestsPerMinute, run[j].now - run[i].now, to - from);
    }
  }

  // ---- A burst, and then one request per minute / requestsPerMinute --------------------------

  function Together(k: Key, t: int, n: nat): (run: seq<Arrival>)
    ensures |run| == n
  {
    if n == 0 then [] else Together(k, t, n - 1) + [Arrival(k, t)]
  }

  lemma {:induction false} BurstEmpties(cfg: Config, k: Key, t: int, n: nat)
    requires n <= cfg.burst
    ensures var levels := After(cfg, Together(k, t, n));
            if n == 0 then levels == map[] else levels == map[k := Level((cfg.burst - n) * 60_000_000_000, t)]
  {
    if n > 0 {
      BurstEmpties(cfg, k, t, n - 1);
      AfterAppend(cfg, Together(k, t, n - 1), Arrival(k, t));
    }
  }

  lemma {:induction false} TogetherAt(k: Key, t: int, n: nat, i: nat)
    requires i < n
    ensures Together(k, t, n)[i] == Arrival(k, t) && Together(k, t, n)[..i] == Together(k, t, i)
  {
    if i < n - 1 { TogetherAt(k, t, n - 1, i); }
  }

  lemma BurstIsAdmitted(cfg: Config, k: Key, t: int, i: nat)
    requires i < cfg.burst
    ensures Admitted(cfg, Together(k, t, cfg.burst), i)
  {
    TogetherAt(k, t, cfg.burst, i);
    BurstEmpties(cfg, k, t, i);
  }

  // As many requests as the burst allows are admitted at once, and one more d nanoseconds
  // later if and only if the rate gives a whole request in that time.
  lemma BurstThenRate(cfg: Config, k: Key, t: int, d: nat)
    requires cfg.requestsPerMinute >= 0 && cfg.burst >= 1
    ensures var run := Together(k, t, cfg.burst) + [Arrival(k, t + d)];
            && (forall i :: 0 <= i < cfg.burst ==> Admitted(cfg, run, i))
            && (Admitted(cfg, run, cfg.burst) <==> cfg.requestsPerMinute * d >= 60_000_000_000)
  {
    var burst := Together(k, t, cfg.burst);
    var run := burst + [Arrival(k, t + d)];
    BurstEmpties(cfg, k, t, cfg.burst);
    assert run[..cfg.burst] == burst;
    forall i | 0 <= i < cfg.burst ensures Admitted(cfg, run, i) {
      BurstIsAdmitted(cfg, k, t, i);
      assert run[..i] == burst[..i];
    }
    assert d == 0 ==> cfg.requestsPerMinute * d == 0;
  }

  // `now` is sampled before the lock is taken, so timestamps can go back in lock order.
  // The window bound then fails: with one request per second and a burst of one, three
  // requests are admitted within one second.
  lemma UnorderedTimestampsExceedTheBound()
    ensures var cfg := Config(60, 1, Some(Ip), "");
            var second := 1_000_000_000;
            var run := [Arrival("k", 0), Arrival("k", second), Arrival("k", 0), Arrival("k", second)];
            && !Ordered(run, "k")
            && CountInWindow(cfg, run, "k", 0, second, |run|) * 60_000_000_000 > cfg.burst * 60_000_000_000 + cfg.requestsPerMinute * second
  {
    var cfg := Config(60, 1, Some(Ip), "");
    var second := 1_000_000_000;
    var run := [Arrival("k", 0), Arrival("k", second), Arrival("k", 0), Arrival("k", second)];
    assert run[1].now > run[2].now;
    assert After(cfg, run[..0]) == map[];
    AfterStep(cfg, run, 0);
    assert After(cfg, run[..1]) == map["k" := Level(0, 0)];
    AfterStep(cfg, run, 1);
    assert After(cfg, run[..2]) == map["k" := Level(0, second)];
    AfterStep(cfg, run, 2);
    assert After(cfg, run[..3]) == map["k" := Level(0, 0)];
    assert Admitted(cfg, run, 0) && Admitted(cfg, run, 1) && !Admitted(cfg, run, 2) && Admitted(cfg, run, 3);
    assert CountInWindow(cfg, run, "k", 0, second, 0) == 0;
    assert CountInWindow(cfg, run, "k", 0, second, 1) == 1;
    assert CountInWindow(cfg, run, "k", 0, second, 2) == 2;
    assert CountInWindow(cfg, run, "k", 0, second, 3) == 2;
    assert CountInWindow(cfg, run, "k", 0, second, 4) == 3;
  }

  // ---- Exactly which runs keep the bound ------------------------------------------------

  // Between any two requests on k at most burst plus rate times their distance are admitted.
  ghost predicate KeepsBound(cfg: Config, run: seq<Arrival>, k: Key) {
    forall i, j :: 0 <= i <= j < |run| && run[i].key == k && run[j].key == k ==>
      CountAdmitted(cfg, run, k, i, j + 1) * 60_000_000_000 <= cfg.burst * 60_000_000_000 + cfg.requestsPerMinute * (run[j].now - run[i].now)
  }

  lemma AmpleFound(cfg: Config, levels: Levels, k: Key, now: int, left: int)
    requires WellConfigured(cfg) && left <= cfg.burst && (k in levels ==> levels[k].tokens >= left * TOKEN)
    ensures Available(cfg, levels, k, now) >= left * TOKEN
  {
    if k in levels && now > levels[k].last {
      RateMonotone(cfg.requestsPerMinute, 0, now - levels[k].last);
    }
  }

  // With a burst of as many tokens as there are requests, none runs out.
  lemma {:induction false} AmpleBurst(cfg: Config, run: seq<Arrival>, k: Key, n: nat)
    requires WellConfigured(cfg) && n <= |run| <= cfg.burst
    ensures var levels := After(cfg, run[..n]);
            k in levels ==> levels[k].tokens >= (cfg.burst - n) * TOKEN
  {
    if n > 0 {
      AfterStep(cfg, run, n - 1);
      AmpleBurst(cfg, run, k, n - 1);
      AmpleFound(cfg, After(cfg, run[..n - 1]), k, run[n - 1].now, cfg.burst - (n - 1));
    }
  }

  lemma {:induction false} AllAdmitted(cfg: Config, run: seq<Arrival>, k: Key, i: nat, n: nat)
    requires WellConfigured(cfg) && i < n <= |run| <= cfg.burst && run[i].key == k
    ensures CountAdmitted(cfg, run, k, i, n) >= 1
  {
    if n == i + 1 {
      AmpleBurst(cfg, run, k, i);
      AmpleFound(cfg, After(cfg, run[..i]), k, run[i].now, cfg.burst - i);
    } else {
      AllAdmitted(cfg, run, k, i, n - 1);
    }
  }

  // If a timestamp goes back, a large enough burst and rate break the bound.
  lemma StepBackExceeds(run: seq<Arrival>, k: Key, i: nat, j: nat)
    requires i < j < |run| && run[i].key == k && run[j].key == k && run[j].now < run[i].now
    ensures !KeepsBound(Config(|run| * TOKEN, |run|, None, ""), run, k)
  {
    var cfg := Config(|run| * TOKEN, |run|, None, "");
    AllAdmitted(cfg, run, k, i, j + 1);
    RateMonotone(cfg.requestsPerMinute, run[j].now - run[i].now, -1);
    assert cfg.requestsPerMinute * -1 == -(|run| * TOKEN);
  }

  // A run keeps the bound under every configuration if and only if the timestamps on the key
  // are in lock order.
  lemma OrderedExactly(run: seq<Arrival>, k: Key)
    ensures Ordered(run, k) <==> forall cfg :: WellConfigured(cfg) ==> KeepsBound(cfg, run, k)
  {
    if Ordered(run, k) {
      forall cfg, i: nat, j: nat | WellConfigured(cfg) && i <= j < |run| && run[i].key == k && run[j].key == k
        ensures CountAdmitted(cfg, run, k, i, j + 1) * 60_000_000_000 <= cfg.burst * 60_000_000_000 + cfg.requestsPerMinute * (run[j].now - run[i].now)
      {
        AtMostBurstPlusRate(cfg, run, i, j);
      }
    } else {
      var i, j :| 0 <= i <= j < |run| && run[i].key == k && run[j].key == k && run[i].now > run[j].now;
      StepBackExceeds(run, k, i, j);
      assert WellConfigured(Config(|run| * TOKEN, |run|, None, ""));
    }
  }

  // ---- Conservation without any assumption on the timestamps ----------------------------

  // The time by which the timestamps on k moved forward over the first n requests.
  function ForwardTime(run: seq<Arrival>, k: Key, n: nat): int
    requires n <= |run|
  {
    if n == 0 then 0
    else if run[n - 1].key != k then ForwardTime(run, k, n - 1)
    else
      match LastTime(run, k, n - 1)
      case None => ForwardTime(run, k, n - 1)
      case Some(t) => ForwardTime(run, k, n - 1) + Max(0, run[n - 1].now - t)
  }

  function LastTime(run: seq<Arrival>, k: Key, n: nat): Option<int>
    requires n <= |run|
  {
    if n == 0 then None
    else if run[n - 1].key == k then Some(run[n - 1].now)
    else LastTime(run, k, n - 1)
  }

  lemma {:induction false} LastTimeIsStored(cfg: Config, run: seq<Arrival>, k: Key, n: nat)
    requires n <= |run|
    ensures var levels := After(cfg, run[..n]);
            LastTime(run, k, n) == if k in levels then Some(levels[k].last) else None
  {
    if n > 0 {
      AfterStep(cfg, run, n - 1);
      LastTimeIsStored(cfg, run, k, n - 1);
    }
  }

  // Whatever was admitted on a key plus what its bucket still holds never exceeds one
  // full bucket plus the refill for the time its clock moved forward.
  lemma {:induction false} TokensAreConserved(cfg: Config, run: seq<Arrival>, k: Key, n: nat)
    requires WellConfigured(cfg) && n <= |run|
    ensures var levels := After(cfg, run[..n]);
            var tokensLeft := if k in levels then levels[k].tokens else cfg.burst * 60_000_000_000;
            CountAdmitted(cfg, run, k, 0, n) * 60_000_000_000 + tokensLeft
            <= cfg.burst * 60_000_000_000 + cfg.requestsPerMinute * ForwardTime(run, k, n)
  {
    if n > 0 {
      AfterStep(cfg, run, n - 1);
      TokensAreConserved(cfg, run, k, n - 1);
      LastTimeIsStored(cfg, run, k, n - 1);
      if run[n - 1].key == k {
        var levels := After(cfg, run[..n - 1]);
        if k in levels {
          var elapsed := Max(0, run[n - 1].now - levels[k].last);
          var total := ForwardTime(run, k, n - 1);
          RateSplits(cfg.requestsPerMinute, 0, total, total + elapsed);
        }
      }
    }
  }

  // ---- Denials are invisible and keys do not interact ----------------------------------

  // The requests of the run whose mask entry is set, in order.
  function Kept(run: seq<Arrival>, mask: seq<bool>): (kept: seq<Arrival>)
    requires |mask| == |run|
  {
    if run == [] then []
    else
      var n := |run| - 1;
      Kept(run[..n], mask[..n]) + (if mask[n] then [run[n]] else [])
  }

  // The mask keeps only requests on `keys`, and drops requests on `keys` only if denied.
  ghost predicate DropsOnlyDeniedOrForeign(cfg: Config, run: seq<Arrival>, mask: seq<bool>, keys: set<Key>)
    requires |mask| == |run|
  {
    forall i :: 0 <= i < |run| ==>
      && (mask[i] ==> run[i].key in keys)
      && (run[i].key in keys && !mask[i] ==> !Admitted(cfg, run, i))
  }

  lemma KeptStep(run: seq<Arrival>, mask: seq<bool>, n: nat)
    requires n < |run| == |mask|
    ensures Kept(run[..n + 1], mask[..n + 1]) == Kept(run[..n], mask[..n]) + (if mask[n] then [run[n]] else [])
  {
    assert run[..n + 1][..n] == run[..n] && mask[..n + 1][..n] == mask[..n];
  }

  lemma {:induction false} KeptPrefix(run: seq<Arrival>, mask: seq<bool>, i: nat, n: nat)
    requires i <= n <= |run| == |mask|
    ensures Kept(run[..i], mask[..i]) <= Kept(run[..n], mask[..n])
    decreases n
  {
    if i < n {
      KeptPrefix(run, mask, i, n - 1);
      KeptStep(run, mask, n - 1);
    }
  }

  // What a key finds after a request depends only on what that request found, or on
  // nothing at all when the request was on another key.
  lemma TakeIsLocal(cfg: Config, one: Levels, two: Levels, r: Arrival, k: Key, now: int)
    ensures r.key != k ==> Available(cfg, Take(cfg, one, r.key, r.now), k, now) == Available(cfg, one, k, now)
    ensures r.key == k && Available(cfg, one, k, r.now) == Available(cfg, two, k, r.now) ==>
              Available(cfg, Take(cfg, one, k, r.now), k, now) == Available(cfg, Take(cfg, two, k, r.now), k, now)
  {
  }

  lemma {:induction false} SameAvailable(cfg: Config, run: seq<Arrival>, mask: seq<bool>, keys: set<Key>, k: Key, n: nat, now: int)
    requires WellConfigured(cfg) && n <= |run| == |mask| && DropsOnlyDeniedOrForeign(cfg, run, mask, keys)
    requires k in keys && Ordered(run, k) && NoneLater(run, k, n, now)
    ensures Available(cfg, After(cfg, run[..n]), k, now)
            == Available(cfg, After(cfg, Kept(run[..n], mask[..n])), k, now)
  {
    if n > 0 {
      var r := run[n - 1];
      var sub := Kept(run[..n - 1], mask[..n - 1]);
      AfterStep(cfg, run, n - 1);
      KeptStep(run, mask, n - 1);
      TakeIsLocal(cfg, After(cfg, run[..n - 1]), After(cfg, sub), r, k, now);
      if mask[n - 1] {
        AfterAppend(cfg, sub, r);
        TakeIsLocal(cfg, After(cfg, sub), After(cfg, sub), r, k, now);
        SameAvailable(cfg, run, mask, keys, k, n - 1, if r.key == k then r.now else now);
      } else {
        assert sub + [] == sub;
        SameAvailable(cfg, run, mask, keys, k, n - 1, now);
        if r.key == k {
          DenialIsInvisible(cfg, run, k, n, now);
        }
      }
    }
  }

  // A denied request changes nothing that a later request on its key can see.
  lemma DenialIsInvisible(cfg: Config, run: seq<Arrival>, k: Key, n: nat, now: int)
    requires WellConfigured(cfg) && 0 < n <= |run| && run[n - 1].key == k
    requires Ordered(run, k) && NoneLater(run, k, n, now) && !Admitted(cfg, run, n - 1)
    ensures Available(cfg, After(cfg, run[..n]), k, now) == Available(cfg, After(cfg, run[..n - 1]), k, now)
  {
    var r := run[n - 1];
    AfterStep(cfg, run, n - 1);
    var levels := After(cfg, run[..n - 1]);
    TokensStayInRange(cfg, run[..n - 1]);
    RateMonotone(cfg.requestsPerMinute, 0, now - r.now);
    if k in levels {
      LastTimeIsStored(cfg, run, k, n - 1);
      LastTimeIsEarlier(run, k, n - 1, r.now);
      RateSplits(cfg.requestsPerMinute, levels[k].last, r.now, now);
      RateMonotone(cfg.requestsPerMinute, 0, r.now - levels[k].last);
      assert now == levels[k].last ==> cfg.requestsPerMinute * (now - levels[k].last) == 0;
      assert r.now == levels[k].last ==> cfg.requestsPerMinute * (r.now - levels[k].last) == 0;
      assert now == r.now ==> cfg.requestsPerMinute * (now - r.now) == 0;
    }
  }

  lemma {:induction false} LastTimeIsEarlier(run: seq<Arrival>, k: Key, n: nat, now: int)
    requires n <= |run| && NoneLater(run, k, n, now)
    ensures LastTime(run, k, n).Some? ==> LastTime(run, k, n).value <= now
  {
    if n > 0 && run[n - 1].key != k {
      LastTimeIsEarlier(run, k, n - 1, now);
    }
  }

  // Deleting all requests on other keys and any denied requests leaves every remaining
  // decision as it was: request i sits at position |Kept(run[..i], mask[..i])| of what is left.
  lemma DecisionsSurviveDeletion(cfg: Config, run: seq<Arrival>, mask: seq<bool>, keys: set<Key>, i: nat)
    requires WellConfigured(cfg) && i < |run| == |mask| && mask[i]
    requires DropsOnlyDeniedOrForeign(cfg, run, mask, keys) && forall k :: k in keys ==> Ordered(run, k)
    ensures var position := |Kept(run[..i], mask[..i])|;
            && position < |Kept(run, mask)|
            && Kept(run, mask)[position] == run[i]
            && (Admitted(cfg, Kept(run, mask), position) <==> Admitted(cfg, run, i))
  {
    var sub := Kept(run[..i], mask[..i]);
    KeptStep(run, mask, i);
    KeptPrefix(run, mask, i + 1, |run|);
    assert run[..|run|] == run && mask[..|mask|] == mask;
    assert sub + [run[i]] <= Kept(run, mask);
    assert Kept(run, mask)[..|sub|] == sub;
    SameAvailable(cfg, run, mask, keys, run[i].key, i, run[i].now);
  }

  // ------------------------------------------------------------------------------------
  // The plugin itself: a mutable map of shared, mutable buckets.
  // ------------------------------------------------------------------------------------

  class Bucket {
    var tokens: int
    var last: int

    constructor (tokens: int, last: int)
      ensures this.tokens == tokens && this.last == last
    {
      this.tokens := tokens;
      this.last := last;
    }

    // The part of Handle that works on one bucket: lazy refill, then take a token if there is one.
    method RefillAndTake(cfg: Config, now: int) returns (admitted: bool)
      modifies this
      ensures var found := Refilled(cfg, old(Level(tokens, last)), now);
              && admitted == (found >= TOKEN)
              && tokens == (if admitted then found - TOKEN else found)
              && last == now
    {
      var capacity := cfg.burst * TOKEN;
      var elapsed := now - last;
      if elapsed > 0 {
        tokens := tokens + elapsed * cfg.requestsPerMinute;
        if tokens > capacity {
          tokens := capacity;
        }
      }
      last := now;
      admitted := tokens >= TOKEN;
      if admitted {
        tokens := tokens - TOKEN;
      }
    }
  }

  class Plugin {
    var cfg: Config
    var buckets: map<Key, Bucket>

    // No two keys share a bucket.
    ghost predicate Valid()
      reads this
    {
      && WellConfigured(cfg)
      && forall k, l :: k in buckets && l in buckets && k != l ==> buckets[k] != buckets[l]
    }

    ghost function Levels(): Levels
      reads this, buckets.Values
    {
      map k | k in buckets :: Level(buckets[k].tokens, buckets[k].last)
    }

    constructor ()
      ensures Valid() && Levels() == map[] && cfg == Config(0, 0, None, "")
    {
      cfg := Config(0, 0, None, "");
      buckets := map[];
    }

    // A rejected configuration changes nothing; an accepted one keeps every bucket.
    method Configure(raw: RawConfig) returns (err: Option<ConfigError>)
      requires Valid()
      modifies this`cfg
      ensures Valid()
      ensures err.Some? ==> cfg == old(cfg)
      ensures err.None? ==>
                cfg == Config(raw.requestsPerMinute, raw.burst, raw.strategy, raw.headerName)
                && cfg.requestsPerMinute >= 1 && cfg.burst >= 1 && cfg.strategy.Some?
      ensures err.None? <==>
                && raw.requestsPerMinute >= 1 && raw.burst >= 1 && raw.strategy.Some?
                && (raw.strategy == Some(Header) ==> !raw.headerBlank)
      ensures err == Some(RateTooLow) <==> raw.requestsPerMinute < 1
    {
      if raw.requestsPerMinute < 1 {
        return Some(RateTooLow);
      }
      if raw.burst < 1 {
        return Some(BurstTooLow);
      }
      if raw.strategy.None? {
        return Some(UnknownStrategy);
      }
      if raw.strategy == Some(Header) && raw.headerBlank {
        return Some(HeaderNameMissing);
      }
      cfg := Config(raw.requestsPerMinute, raw.burst, raw.strategy, raw.headerName);
      return None;
    }

    // `key` is the derived limit key and `now` the time sampled before the lock.
    method Handle(key: Key, now: int) returns (decision: Option<Decision>)
      requires Valid()
      modifies this`buckets, if key in buckets then {buckets[key]} else {}
      ensures Valid()
      ensures Levels() == Take(cfg, old(Levels()), key, now)
      ensures decision == if Admits(cfg, old(Levels()), key, now) then None
                          else Some(Decision(false, 429, None, "rate limit exceeded", None))
    {
      ghost var found := Available(cfg, Levels(), key, now);
      var b: Bucket;
      if key !in buckets {
        b := new Bucket(cfg.burst * TOKEN, now);
        buckets := buckets[key := b];
      } else {
        b := buckets[key];
      }
      var admitted := b.RefillAndTake(cfg, now);
      assert admitted <==> found >= TOKEN;
      if admitted {
        return None;
      }
      return Some(RATE_LIMITED);
    }
  }
}
