/** The in-process limiter: a global token bucket over real time, and per-user and per-trace caps. */
module FallbackLimiter {
  datatype Config = Config(capacity: real, rate: real, perMinute: int, maxInflight: int, maxDepth: int)

  datatype Verdict = Admitted | RateLimited | DepthExceeded | InflightExceeded

  /** `mono` is the monotonic clock, `minute` the wall clock's minute. */
  datatype Call =
    | Reserve(user: string, trace: string, key: string, mono: real, minute: int)
    | Release(user: string)

  datatype Bucket = Bucket(
    tokens: real,
    lastRefill: real,
    initialized: bool,
    windows: map<string, (int, int)>,
    inflight: map<string, int>,
    keys: map<string, set<string>>)

  function Fresh(mono: real): Bucket {
    Bucket(0.0, mono, false, map[], map[], map[])
  }

  function InflightOf(b: Bucket, user: string): int {
    if user in b.inflight then b.inflight[user] else 0
  }

  function KeysOf(b: Bucket, trace: string): set<string> {
    if trace in b.keys then b.keys[trace] else {}
  }

  /** Tokens flow in for the time since the last refill, up to the capacity; a clock that stood still or
      went back brings none. */
  function Refilled(cfg: Config, b: Bucket, mono: real): Bucket {
    var had := if b.initialized then b.tokens else cfg.capacity;
    if mono <= b.lastRefill then b.(tokens := had, initialized := true)
    else
      var sum := had + (mono - b.lastRefill) * cfg.rate;
      b.(tokens := if sum < cfg.capacity then sum else cfg.capacity, initialized := true, lastRefill := mono)
  }

  function NextCount(b: Bucket, user: string, minute: int): int {
    if user in b.windows && b.windows[user].0 == minute then b.windows[user].1 + 1 else 1
  }

  /** Each check leaves behind what it counted, even when a later one refuses. */
  function Step(cfg: Config, b: Bucket, c: Call): (Bucket, Verdict) {
    match c
    case Release(user) =>
      (if InflightOf(b, user) > 0 then b.(inflight := b.inflight[user := InflightOf(b, user) - 1]) else b, Admitted)
    case Reserve(user, trace, key, mono, minute) =>
      var refilled := Refilled(cfg, b, mono);
      if refilled.tokens < 1.0 then (refilled, RateLimited)
      else
        var count := NextCount(b, user, minute);
        var counted := refilled.(windows := b.windows[user := (minute, count)]);
        if count > cfg.perMinute then (counted, RateLimited)
        else
          var seen := KeysOf(b, trace) + {key};
          var traced := counted.(keys := b.keys[trace := seen]);
          if |seen| > cfg.maxDepth then (traced, DepthExceeded)
          else if InflightOf(b, user) + 1 > cfg.maxInflight then (traced, InflightExceeded)
          else (traced.(inflight := b.inflight[user := InflightOf(b, user) + 1], tokens := refilled.tokens - 1.0),
            Admitted)
  }

  function After(cfg: Config, b: Bucket, calls: seq<Call>): Bucket
    decreases |calls|
  {
    if calls == [] then b else Step(cfg, After(cfg, b, calls[..|calls| - 1]), calls[|calls| - 1]).0
  }

  /** The last call of a run is a reserve that got through. */
  predicate LastAdmitted(cfg: Config, b: Bucket, calls: seq<Call>)
    requires calls != []
  {
    calls[|calls| - 1].Reserve? && Step(cfg, After(cfg, b, calls[..|calls| - 1]), calls[|calls| - 1]).1 == Admitted
  }

  // ---------- the limiter ----------

  class LocalFallbackLimiter {
    var tokens: real
    var lastRefill: real
    var initialized: bool
    var windows: map<string, (int, int)>
    var inflight: map<string, int>
    var keys: map<string, set<string>>

    ghost function State(): Bucket
      reads this
    {
      Bucket(tokens, lastRefill, initialized, windows, inflight, keys)
    }

    constructor (mono: real)
      ensures State() == Fresh(mono)
    {
      tokens, lastRefill, initialized := 0.0, mono, false;
      windows, inflight, keys := map[], map[], map[];
    }

    method RefillTokens(cfg: Config, mono: real)
      requires initialized
      modifies this`tokens, this`lastRefill
      ensures State() == Refilled(cfg, old(State()), mono)
    {
      var elapsed := if mono - lastRefill > 0.0 then mono - lastRefill else 0.0;
      if elapsed <= 0.0 {
        return;
      }
      var sum := tokens + elapsed * cfg.rate;
      tokens := if sum < cfg.capacity then sum else cfg.capacity;
      lastRefill := mono;
    }

    method CheckReserve(cfg: Config, user: string, trace: string, key: string, mono: real,
        minute: int) returns (v: Verdict)
      modifies this
      ensures (State(), v) == Step(cfg, old(State()), Reserve(user, trace, key, mono, minute))
    {
      if !initialized {
        tokens := cfg.capacity;
        initialized := true;
      }
      RefillTokens(cfg, mono);
      if tokens < 1.0 {
        return RateLimited;
      }
      var count := if user !in windows || windows[user].0 != minute then 1 else windows[user].1 + 1;
      windows := windows[user := (minute, count)];
      if count > cfg.perMinute {
        return RateLimited;
      }
      var seen := (if trace in keys then keys[trace] else {}) + {key};
      keys := keys[trace := seen];
      if |seen| > cfg.maxDepth {
        return DepthExceeded;
      }
      var next := (if user in inflight then inflight[user] else 0) + 1;
      if next > cfg.maxInflight {
        return InflightExceeded;
      }
      inflight := inflight[user := next];
      tokens := tokens - 1.0;
      v := Admitted;
    }

    method ReleaseReserve(user: string)
      modifies this`inflight
      ensures forall cfg: Config :: State() == Step(cfg, old(State()), Release(user)).0
    {
      if user in inflight && inflight[user] > 0 {
        inflight := inflight[user := inflight[user] - 1];
      }
    }
  }

  // ---------- admissions in a window of time ----------

  predicate Monotone(start: real, calls: seq<Call>) {
    (forall i | 0 <= i < |calls| && calls[i].Reserve? :: start <= calls[i].mono) &&
    (forall i, j | 0 <= i < j < |calls| && calls[i].Reserve? && calls[j].Reserve? :: calls[i].mono <= calls[j].mono)
  }

  function AdmittedBetween(cfg: Config, b: Bucket, calls: seq<Call>, from: real, to: real): nat
    decreases |calls|
  {
    if calls == [] then 0
    else
      AdmittedBetween(cfg, b, calls[..|calls| - 1], from, to) +
      if LastAdmitted(cfg, b, calls) && from <= calls[|calls| - 1].mono <= to then 1 else 0
  }

  /** The most a window of time can admit: a full bucket and all that flows in meanwhile. */
  function Allowance(cfg: Config, from: real, to: real): real {
    cfg.capacity + cfg.rate * (to - from)
  }

  lemma AllowanceFlows(cfg: Config, from: real, mid: real, to: real)
    ensures Allowance(cfg, from, from) == cfg.capacity
    ensures Allowance(cfg, from, to) == Allowance(cfg, from, mid) + (to - mid) * cfg.rate
    ensures cfg.rate >= 0.0 && mid <= to ==> (to - mid) * cfg.rate >= 0.0
  {
  }

  /** What is known of the window [from, to] once the clock stands at the bucket's last refill. */
  predicate Budgeted(cfg: Config, b: Bucket, n: nat, from: real, to: real) {
    0.0 <= b.tokens <= cfg.capacity &&
    (b.lastRefill < from ==> n == 0) &&
    (from <= b.lastRefill <= to ==> n as real + b.tokens <= Allowance(cfg, from, b.lastRefill)) &&
    (!b.initialized ==> n == 0) &&
    n as real <= Allowance(cfg, from, to)
  }

  lemma RefillBudgeted(cfg: Config, b: Bucket, n: nat, from: real, to: real, mono: real)
    requires cfg.capacity >= 0.0 && cfg.rate >= 0.0 && from <= to && mono >= b.lastRefill
    requires Budgeted(cfg, b, n, from, to)
    ensures Budgeted(cfg, Refilled(cfg, b, mono), n, from, to)
    ensures Refilled(cfg, b, mono).lastRefill == mono && Refilled(cfg, b, mono).initialized
  {
    AllowanceFlows(cfg, from, b.lastRefill, mono);
    AllowanceFlows(cfg, from, from, mono);
    hide Allowance;
  }

  lemma AdmitBudgeted(cfg: Config, b: Bucket, n: nat, from: real, to: real)
    requires cfg.rate >= 0.0 && Budgeted(cfg, b, n, from, to) && b.initialized && b.tokens >= 1.0
    ensures from <= b.lastRefill <= to ==> Budgeted(cfg, b.(tokens := b.tokens - 1.0), n + 1, from, to)
    ensures !(from <= b.lastRefill <= to) ==> Budgeted(cfg, b.(tokens := b.tokens - 1.0), n, from, to)
  {
    AllowanceFlows(cfg, from, b.lastRefill, to);
    hide Allowance;
  }

  lemma StepClock(cfg: Config, b: Bucket, c: Call)
    requires c.Reserve?
    ensures var r, t := Refilled(cfg, b, c.mono), Step(cfg, b, c);
      t.0.lastRefill == r.lastRefill && t.0.initialized &&
      (t.1 == Admitted ==> r.tokens >= 1.0 && t.0.tokens == r.tokens - 1.0) &&
        (t.1 != Admitted ==> t.0.tokens == r.tokens)
  {
  }

  lemma FreshBudgeted(cfg: Config, start: real, from: real, to: real)
    requires cfg.capacity >= 0.0 && cfg.rate >= 0.0 && from <= to
    ensures Budgeted(cfg, Fresh(start), 0, from, to)
  {
    AllowanceFlows(cfg, from, from, to);
    AllowanceFlows(cfg, from, from, start);
    hide Allowance;
  }

  /** A refill touches nothing but the tokens. */
  lemma RefillFields(cfg: Config, b: Bucket, mono: real)
    ensures var r := Refilled(cfg, b, mono); r.windows == b.windows && r.inflight == b.inflight && r.keys == b.keys
  {
  }

  lemma SameClock(cfg: Config, a: Bucket, b: Bucket, n: nat, from: real, to: real)
    requires Budgeted(cfg, a, n, from, to) && a.tokens == b.tokens && a.lastRefill == b.lastRefill &&
             a.initialized == b.initialized
    ensures Budgeted(cfg, b, n, from, to)
  {
  }

  lemma {:induction false} RunBudgeted(cfg: Config, start: real, calls: seq<Call>, from: real, to: real)
    requires cfg.capacity >= 0.0 && cfg.rate >= 0.0 && from <= to && Monotone(start, calls)
    ensures Budgeted(cfg, After(cfg, Fresh(start), calls), AdmittedBetween(cfg, Fresh(start), calls, from, to), from,
            to)
    ensures forall i | 0 <= i < |calls| && calls[i].Reserve? ::
            calls[i].mono <= After(cfg, Fresh(start), calls).lastRefill
    ensures After(cfg, Fresh(start), calls).lastRefill == start ||
              exists i :: 0 <= i < |calls| && calls[i].Reserve? &&
                calls[i].mono == After(cfg, Fresh(start), calls).lastRefill
    decreases |calls|
  {
    if calls == [] {
      FreshBudgeted(cfg, start, from, to);
    } else {
      var prior, last := calls[..|calls| - 1], calls[|calls| - 1];
      var b := After(cfg, Fresh(start), prior);
      var n := AdmittedBetween(cfg, Fresh(start), prior, from, to);
      RunBudgeted(cfg, start, prior, from, to);
      hide Budgeted, Refilled, Step;
      if last.Reserve? {
        assert b.lastRefill <= last.mono;
        RefillBudgeted(cfg, b, n, from, to, last.mono);
        StepClock(cfg, b, last);
        var r := Refilled(cfg, b, last.mono);
        if Step(cfg, b, last).1 == Admitted {
          AdmitBudgeted(cfg, r, n, from, to);
          SameClock(cfg, r.(tokens := r.tokens - 1.0), Step(cfg, b, last).0,
            AdmittedBetween(cfg, Fresh(start), calls, from, to), from, to);
        } else {
          SameClock(cfg, r, Step(cfg, b, last).0, n, from, to);
        }
      } else {
        ReleaseClock(cfg, b, last.user);
        SameClock(cfg, b, Step(cfg, b, last).0, n, from, to);
      }
    }
  }

  lemma ReleaseClock(cfg: Config, b: Bucket, user: string)
    ensures var t := Step(cfg, b, Release(user)).0;
      t.tokens == b.tokens && t.lastRefill == b.lastRefill && t.initialized == b.initialized
  {
  }

  /** On a clock that does not go back, at most capacity + rate * (to - from) reserves are admitted in any
      window [from, to] of any run. */
  lemma AdmissionsBounded(cfg: Config, start: real, calls: seq<Call>, from: real, to: real)
    requires cfg.capacity >= 0.0 && cfg.rate >= 0.0 && from <= to && Monotone(start, calls)
    ensures AdmittedBetween(cfg, Fresh(start), calls, from, to) as real <= Allowance(cfg, from, to)
  {
    RunBudgeted(cfg, start, calls, from, to);
    hide Allowance;
  }

  // ---------- and refused only when a window is full ----------

  /** One more admission now would be more than the window from then to now allows. */
  predicate WindowFull(cfg: Config, b: Bucket, calls: seq<Call>, from: real, now: real) {
    from <= now && AdmittedBetween(cfg, b, calls, from, now) as real + 1.0 > Allowance(cfg, from, now)
  }

  /** The window since `from` has used up all its allowance but the tokens that are left. */
  predicate Tight(cfg: Config, calls: seq<Call>, b: Bucket, tokens: real, from: real, now: real) {
    from <= now && AdmittedBetween(cfg, b, calls, from, now) as real + tokens == Allowance(cfg, from, now)
  }

  lemma {:induction false} CountUpTo(cfg: Config, b: Bucket, calls: seq<Call>, from: real, last: real, now: real)
    requires last <= now && forall i | 0 <= i < |calls| && calls[i].Reserve? :: calls[i].mono <= last
    ensures AdmittedBetween(cfg, b, calls, from, now) == AdmittedBetween(cfg, b, calls, from, last)
    ensures last < from ==> AdmittedBetween(cfg, b, calls, from, now) == 0
    decreases |calls|
  {
    if calls != [] {
      CountUpTo(cfg, b, calls[..|calls| - 1], from, last, now);
      hide Step, After;
    }
  }

  lemma TightFlows(cfg: Config, calls: seq<Call>, empty: Bucket, b: Bucket, from: real, now: real)
    requires b.initialized && b.lastRefill <= now && b.tokens <= cfg.capacity
    requires Tight(cfg, calls, empty, b.tokens, from, b.lastRefill)
    requires AdmittedBetween(cfg, empty, calls, from, now) == AdmittedBetween(cfg, empty, calls, from, b.lastRefill)
    requires b.lastRefill < now ==> AdmittedBetween(cfg, empty, calls, now, now) == 0
    ensures Tight(cfg, calls, empty, Refilled(cfg, b, now).tokens, from, now) ||
            Tight(cfg, calls, empty, Refilled(cfg, b, now).tokens, now, now)
  {
    AllowanceFlows(cfg, from, b.lastRefill, now);
    AllowanceFlows(cfg, now, now, now);
    hide AdmittedBetween, Allowance;
  }

  /** If some window was tight at the last refill, some window is tight at the next. */
  lemma RefillTight(cfg: Config, start: real, calls: seq<Call>, now: real)
    requires cfg.capacity >= 0.0 && cfg.rate >= 0.0 && Monotone(start, calls)
    requires After(cfg, Fresh(start), calls).lastRefill <= now
    requires var b := After(cfg, Fresh(start), calls);
      b.initialized ==> exists from :: Tight(cfg, calls, Fresh(start), b.tokens, from, b.lastRefill)
    ensures exists from :: Tight(cfg, calls, Fresh(start), Refilled(cfg, After(cfg, Fresh(start), calls), now).tokens,
            from, now)
  {
    var empty, b := Fresh(start), After(cfg, Fresh(start), calls);
    RunBudgeted(cfg, start, calls, now, now);
    CountUpTo(cfg, empty, calls, now, b.lastRefill, now);
    assert 0.0 <= b.tokens <= cfg.capacity && (!b.initialized ==> AdmittedBetween(cfg, empty, calls, now, now) == 0);
    hide After, AdmittedBetween, Monotone, Budgeted;
    if b.initialized {
      var from :| Tight(cfg, calls, empty, b.tokens, from, b.lastRefill);
      CountUpTo(cfg, empty, calls, from, b.lastRefill, now);
      hide Tight, Refilled;
      TightFlows(cfg, calls, empty, b, from, now);
    } else {
      FirstTight(cfg, calls, empty, b, now);
      hide Tight, Refilled;
    }
  }

  lemma FirstTight(cfg: Config, calls: seq<Call>, empty: Bucket, b: Bucket, now: real)
    requires !b.initialized && cfg.capacity >= 0.0 && cfg.rate >= 0.0 && b.lastRefill <= now
    requires AdmittedBetween(cfg, empty, calls, now, now) == 0
    ensures Tight(cfg, calls, empty, Refilled(cfg, b, now).tokens, now, now)
  {
    AllowanceFlows(cfg, now, b.lastRefill, now);
    AllowanceFlows(cfg, now, now, now);
    hide AdmittedBetween, Allowance;
  }

  lemma {:induction false} RunTight(cfg: Config, start: real, calls: seq<Call>)
    requires cfg.capacity >= 0.0 && cfg.rate >= 0.0 && Monotone(start, calls)
    ensures var b := After(cfg, Fresh(start), calls);
      b.initialized ==> exists from :: Tight(cfg, calls, Fresh(start), b.tokens, from, b.lastRefill)
    decreases |calls|
  {
    if calls != [] {
      var prior, last := calls[..|calls| - 1], calls[|calls| - 1];
      var empty, b := Fresh(start), After(cfg, Fresh(start), prior);
      RunTight(cfg, start, prior);
      RunBudgeted(cfg, start, prior, start, start);
      if last.Reserve? {
        assert b.lastRefill <= last.mono;
        RefillTight(cfg, start, prior, last.mono);
        var r := Refilled(cfg, b, last.mono);
        var from :| Tight(cfg, prior, empty, r.tokens, from, last.mono);
        StepClock(cfg, b, last);
        RefillClock(cfg, b, last.mono);
        hide Step, Refilled, Allowance, Budgeted, Monotone;
        assert Tight(cfg, calls, empty, Step(cfg, b, last).0.tokens, from, last.mono);
      } else {
        ReleaseClock(cfg, b, last.user);
        if b.initialized {
          var from :| Tight(cfg, prior, empty, b.tokens, from, b.lastRefill);
          hide Step, Allowance, Budgeted, Monotone;
          assert Tight(cfg, calls, empty, b.tokens, from, b.lastRefill);
        }
      }
    }
  }

  lemma RefillClock(cfg: Config, b: Bucket, now: real)
    requires b.lastRefill <= now
    ensures Refilled(cfg, b, now).lastRefill == now
  {
  }

  /** The converse of `AdmissionsBounded`: a reserve finds no token exactly when some window up to now is
      already full. */
  lemma TokenMissingExactly(cfg: Config, start: real, calls: seq<Call>, now: real)
    requires cfg.capacity >= 0.0 && cfg.rate >= 0.0 && Monotone(start, calls)
    requires start <= now && forall i | 0 <= i < |calls| && calls[i].Reserve? :: calls[i].mono <= now
    ensures Refilled(cfg, After(cfg, Fresh(start), calls), now).tokens < 1.0 <==>
              exists from :: WindowFull(cfg, Fresh(start), calls, from, now)
  {
    var empty, b := Fresh(start), After(cfg, Fresh(start), calls);
    var r := Refilled(cfg, b, now);
    RunBudgeted(cfg, start, calls, now, now);
    RunTight(cfg, start, calls);
    assert b.lastRefill <= now;
    RefillTight(cfg, start, calls, now);
    var tight :| Tight(cfg, calls, empty, r.tokens, tight, now);
    hide After, Refilled, Allowance, AdmittedBetween, Monotone;
    if r.tokens < 1.0 { assert WindowFull(cfg, empty, calls, tight, now); }
    forall from | WindowFull(cfg, empty, calls, from, now)
      ensures r.tokens < 1.0
    {
      RunBudgeted(cfg, start, calls, from, now);
      RefillBudgeted(cfg, b, AdmittedBetween(cfg, empty, calls, from, now), from, now, now);
    }
  }

  // ---------- per-user, per-trace caps ----------

  function Cap(limit: int): int {
    if limit > 0 then limit else 0
  }

  /** The wall clock's minute does not go back between a user's reserves. */
  predicate MinutesInOrder(calls: seq<Call>, user: string) {
    forall i, j | 0 <= i < j < |calls| && calls[i].Reserve? && calls[j].Reserve? &&
      calls[i].user == user == calls[j].user ::
      calls[i].minute <= calls[j].minute
  }

  function AdmittedInMinute(cfg: Config, b: Bucket, calls: seq<Call>, user: string, minute: int): nat
    decreases |calls|
  {
    if calls == [] then 0
    else
      AdmittedInMinute(cfg, b, calls[..|calls| - 1], user, minute) +
      if LastAdmitted(cfg, b, calls) && calls[|calls| - 1].user == user &&
        calls[|calls| - 1].minute == minute then 1 else 0
  }

  predicate WindowCounts(cfg: Config, b: Bucket, user: string, minute: int, n: nat) {
    n <= Cap(cfg.perMinute) &&
    (user !in b.windows ==> n == 0) &&
    (user in b.windows && b.windows[user].0 == minute ==> n <= b.windows[user].1) &&
    (user in b.windows && b.windows[user].0 < minute ==> n == 0)
  }

  lemma StepWindows(cfg: Config, b: Bucket, c: Call, user: string, minute: int, n: nat)
    requires WindowCounts(cfg, b, user, minute, n)
    requires c.Reserve? && c.user == user && user in b.windows ==> b.windows[user].0 <= c.minute
    ensures WindowCounts(cfg, Step(cfg, b, c).0, user, minute,
                         if c.Reserve? && Step(cfg, b, c).1 == Admitted && c.user == user &&
                           c.minute == minute then n + 1 else n)
    ensures user in Step(cfg, b, c).0.windows ==>
              (user in b.windows && Step(cfg, b, c).0.windows[user].0 == b.windows[user].0) ||
              (c.Reserve? && c.user == user && Step(cfg, b, c).0.windows[user].0 == c.minute)
  {
    if c.Reserve? { RefillFields(cfg, b, c.mono); }
    hide Refilled;
  }

  lemma {:induction false} MinuteBounded(cfg: Config, start: real, calls: seq<Call>, user: string, minute: int)
    requires MinutesInOrder(calls, user)
    ensures WindowCounts(cfg, After(cfg, Fresh(start), calls), user, minute,
            AdmittedInMinute(cfg, Fresh(start), calls, user, minute))
    ensures var windows := After(cfg, Fresh(start), calls).windows;
      user in windows ==> exists i ::
        0 <= i < |calls| && calls[i].Reserve? && calls[i].user == user && calls[i].minute == windows[user].0
    decreases |calls|
  {
    if calls != [] {
      var prior, last := calls[..|calls| - 1], calls[|calls| - 1];
      var b := After(cfg, Fresh(start), prior);
      MinuteBounded(cfg, start, prior, user, minute);
      hide Step, WindowCounts;
      if user in b.windows {
        var i :| 0 <= i < |prior| && prior[i].Reserve? && prior[i].user == user && prior[i].minute == b.windows[user].0;
        assert calls[i] == prior[i];
      }
      StepWindows(cfg, b, last, user, minute, AdmittedInMinute(cfg, Fresh(start), prior, user, minute));
      assert calls[|prior|] == last;
    }
  }

  /** While the minute does not go back, no user is admitted more often in one minute than the limit. */
  lemma PerMinuteBounded(cfg: Config, start: real, calls: seq<Call>, user: string, minute: int)
    requires MinutesInOrder(calls, user)
    ensures AdmittedInMinute(cfg, Fresh(start), calls, user, minute) <= Cap(cfg.perMinute)
  {
    MinuteBounded(cfg, start, calls, user, minute);
  }

  function AdmittedKeys(cfg: Config, b: Bucket, calls: seq<Call>, trace: string): set<string>
    decreases |calls|
  {
    if calls == [] then {}
    else
      AdmittedKeys(cfg, b, calls[..|calls| - 1], trace) +
      if LastAdmitted(cfg, b, calls) && calls[|calls| - 1].trace == trace then {calls[|calls| - 1].key} else {}
  }

  lemma StepKeys(cfg: Config, b: Bucket, c: Call, trace: string)
    ensures KeysOf(b, trace) <= KeysOf(Step(cfg, b, c).0, trace)
    ensures c.Reserve? && Step(cfg, b, c).1 == Admitted ==>
            c.key in KeysOf(Step(cfg, b, c).0, c.trace) && |KeysOf(Step(cfg, b, c).0, c.trace)| <= cfg.maxDepth
  {
    if c.Reserve? { RefillFields(cfg, b, c.mono); }
    hide Refilled;
  }

  lemma SubsetSize(a: set<string>, b: set<string>)
    requires a <= b
    ensures |a| <= |b|
  {
    assert b == a + (b - a);
  }

  /** No trace ever has more distinct admitted keys than the depth limit. */
  lemma {:induction false} TraceDepthBounded(cfg: Config, start: real, calls: seq<Call>, trace: string)
    ensures AdmittedKeys(cfg, Fresh(start), calls, trace) <= KeysOf(After(cfg, Fresh(start), calls), trace)
    ensures |AdmittedKeys(cfg, Fresh(start), calls, trace)| <= Cap(cfg.maxDepth)
    decreases |calls|
  {
    if calls != [] {
      var prior, last := calls[..|calls| - 1], calls[|calls| - 1];
      TraceDepthBounded(cfg, start, prior, trace);
      StepKeys(cfg, After(cfg, Fresh(start), prior), last, trace);
      hide Step, KeysOf;
      if LastAdmitted(cfg, Fresh(start), calls) && last.trace == trace {
        SubsetSize(AdmittedKeys(cfg, Fresh(start), calls, trace), KeysOf(After(cfg, Fresh(start), calls), trace));
      }
    }
  }

  function AdmittedOf(cfg: Config, b: Bucket, calls: seq<Call>, user: string): nat
    decreases |calls|
  {
    if calls == [] then 0
    else
      AdmittedOf(cfg, b, calls[..|calls| - 1], user) +
      if LastAdmitted(cfg, b, calls) && calls[|calls| - 1].user == user then 1 else 0
  }

  function ReleasesOf(calls: seq<Call>, user: string): nat
    decreases |calls|
  {
    if calls == [] then 0
    else ReleasesOf(calls[..|calls| - 1], user) + if calls[|calls| - 1] == Release(user) then 1 else 0
  }

  /** Every release so far answered an admission of the user's. */
  predicate Answered(cfg: Config, b: Bucket, calls: seq<Call>, user: string)
    decreases |calls|
  {
    calls == [] || (Answered(cfg, b, calls[..|calls| - 1], user) &&
      ReleasesOf(calls, user) <= AdmittedOf(cfg, b, calls, user))
  }

  lemma StepInflight(cfg: Config, b: Bucket, c: Call, user: string)
    requires 0 <= InflightOf(b, user) <= Cap(cfg.maxInflight)
    ensures var before, after := InflightOf(b, user), InflightOf(Step(cfg, b, c).0, user);
      0 <= after <= Cap(cfg.maxInflight) &&
      after == (if c.Reserve? && Step(cfg, b, c).1 == Admitted && c.user == user then before + 1
                else if c == Release(user) && before > 0 then before - 1 else before)
  {
    if c.Reserve? { RefillFields(cfg, b, c.mono); }
    hide Refilled;
  }

  /** A user's in-flight count stays between zero and the limit. It is never below admissions minus
      releases, and equals them exactly while every release answers an admission. */
  lemma {:induction false} InflightBounded(cfg: Config, start: real, calls: seq<Call>, user: string)
    ensures var inflight := InflightOf(After(cfg, Fresh(start), calls), user);
      var open := AdmittedOf(cfg, Fresh(start), calls, user) - ReleasesOf(calls, user);
      0 <= inflight <= Cap(cfg.maxInflight) && inflight >= open &&
        (Answered(cfg, Fresh(start), calls, user) <==> inflight == open)
    decreases |calls|
  {
    if calls != [] {
      var prior, last := calls[..|calls| - 1], calls[|calls| - 1];
      InflightBounded(cfg, start, prior, user);
      StepInflight(cfg, After(cfg, Fresh(start), prior), last, user);
      hide Step, InflightOf;
    }
  }

  /** Admissions less releases of a user from the j-th call on. */
  function NetSince(cfg: Config, b: Bucket, calls: seq<Call>, j: nat, user: string): int
    requires j <= |calls|
  {
    AdmittedOf(cfg, b, calls, user) - AdmittedOf(cfg, b, calls[..j], user) -
    (ReleasesOf(calls, user) - ReleasesOf(calls[..j], user))
  }

  lemma NetStep(cfg: Config, b: Bucket, calls: seq<Call>, j: nat, user: string)
    requires calls != [] && j < |calls|
    ensures NetSince(cfg, b, calls, |calls|, user) == 0
    ensures NetSince(cfg, b, calls, j, user) ==
              NetSince(cfg, b, calls[..|calls| - 1], j, user) +
              (if LastAdmitted(cfg, b, calls) && calls[|calls| - 1].user == user then 1 else 0) -
              (if calls[|calls| - 1] == Release(user) then 1 else 0)
  {
    assert calls[..|calls|] == calls && calls[..j] == calls[..|calls| - 1][..j];
    hide Step, After;
  }

  /** The count is at least the excess of admissions over releases since any call, and equals one of them. */
  predicate Peak(cfg: Config, b: Bucket, calls: seq<Call>, user: string, count: int) {
    (forall j | 0 <= j <= |calls| :: NetSince(cfg, b, calls, j, user) <= count) &&
    exists j | 0 <= j <= |calls| :: NetSince(cfg, b, calls, j, user) == count
  }

  lemma PeakStep(cfg: Config, b: Bucket, calls: seq<Call>, user: string, before: int, after: int)
    requires calls != [] && before >= 0 && Peak(cfg, b, calls[..|calls| - 1], user, before)
    requires after == (if LastAdmitted(cfg, b, calls) && calls[|calls| - 1].user == user then before + 1
                       else if calls[|calls| - 1] == Release(user) && before > 0 then before - 1 else before)
    ensures Peak(cfg, b, calls, user, after)
  {
    var n := |calls| - 1;
    hide Step, After;
    forall j | 0 <= j <= |calls|
      ensures NetSince(cfg, b, calls, j, user) <= after
    {
      NetStep(cfg, b, calls, if j <= n then j else n, user);
    }
    var j :| 0 <= j <= n && NetSince(cfg, b, calls[..n], j, user) == before;
    NetStep(cfg, b, calls, j, user);
    hide NetSince;
    assert NetSince(cfg, b, calls, if after == before == 0 && calls[n] == Release(user) then |calls| else j, user) ==
           after;
  }

  /** The in-flight count is the largest excess of admissions over releases since any call. */
  lemma {:induction false} InflightIsPeak(cfg: Config, start: real, calls: seq<Call>, user: string)
    ensures Peak(cfg, Fresh(start), calls, user, InflightOf(After(cfg, Fresh(start), calls), user))
    decreases |calls|
  {
    var empty := Fresh(start);
    if calls == [] {
      assert NetSince(cfg, empty, calls, 0, user) == 0;
    } else {
      var prior, last := calls[..|calls| - 1], calls[|calls| - 1];
      InflightIsPeak(cfg, start, prior, user);
      InflightBounded(cfg, start, prior, user);
      StepInflight(cfg, After(cfg, empty, prior), last, user);
      hide Step, InflightOf, Answered, Peak;
      PeakStep(cfg, empty, calls, user, InflightOf(After(cfg, empty, prior), user),
        InflightOf(After(cfg, empty, calls), user));
    }
  }

  /** Since some call, the user has at least as many admissions in excess of releases as the limit allows. */
  predicate UserFull(cfg: Config, b: Bucket, calls: seq<Call>, user: string) {
    exists j :: 0 <= j <= |calls| && NetSince(cfg, b, calls, j, user) >= cfg.maxInflight
  }

  // ---------- the verdict by the history ----------

  /** The call finds a token in the bucket. */
  predicate Cleared(cfg: Config, b: Bucket, c: Call) {
    c.Reserve? && Refilled(cfg, b, c.mono).tokens >= 1.0
  }

  /** Some window of time up to now has no token left. */
  ghost predicate BucketEmpty(cfg: Config, b: Bucket, calls: seq<Call>, now: real) {
    exists from :: WindowFull(cfg, b, calls, from, now)
  }

  lemma ClearedByHistory(cfg: Config, start: real, calls: seq<Call>, c: Call)
    requires cfg.capacity >= 0.0 && cfg.rate >= 0.0 && c.Reserve? && Monotone(start, calls + [c])
    ensures Cleared(cfg, After(cfg, Fresh(start), calls), c) <==> !BucketEmpty(cfg, Fresh(start), calls, c.mono)
  {
    var all := calls + [c];
    assert forall i | 0 <= i < |calls| :: all[i] == calls[i];
    assert all[|calls|] == c;
    assert forall i | 0 <= i < |calls| && calls[i].Reserve? :: all[i].mono <= all[|calls|].mono;
    TokenMissingExactly(cfg, start, calls, c.mono);
    hide After, Refilled, WindowFull;
  }

  /** The run's last call is a reserve that found a token: no window of time was full. */
  ghost predicate LastFoundToken(cfg: Config, b: Bucket, calls: seq<Call>)
    requires calls != []
  {
    calls[|calls| - 1].Reserve? && !BucketEmpty(cfg, b, calls[..|calls| - 1], calls[|calls| - 1].mono)
  }

  /** The user's reserves of one minute that found a token, admitted in the end or not. */
  ghost function FoundInMinute(cfg: Config, b: Bucket, calls: seq<Call>, user: string, minute: int): nat
    decreases |calls|
  {
    if calls == [] then 0
    else
      var last := calls[|calls| - 1];
      FoundInMinute(cfg, b, calls[..|calls| - 1], user, minute) +
      if LastFoundToken(cfg, b, calls) && last.user == user && last.minute == minute then 1 else 0
  }

  /** The keys a trace was asked to reserve, beyond the bucket and the user's minute. */
  ghost function AskedKeys(cfg: Config, b: Bucket, calls: seq<Call>, trace: string): set<string>
    decreases |calls|
  {
    if calls == [] then {}
    else
      var prior, last := calls[..|calls| - 1], calls[|calls| - 1];
      AskedKeys(cfg, b, prior, trace) +
      if LastFoundToken(cfg, b, calls) && last.trace == trace &&
        FoundInMinute(cfg, b, prior, last.user, last.minute) < cfg.perMinute
      then {last.key} else {}
  }

  predicate WindowTracks(b: Bucket, user: string, minute: int, n: nat) {
    (user !in b.windows ==> n == 0) &&
    (user in b.windows && b.windows[user].0 == minute ==> n == b.windows[user].1) &&
    (user in b.windows && b.windows[user].0 < minute ==> n == 0)
  }

  lemma StepTracks(cfg: Config, b: Bucket, c: Call, user: string, minute: int, n: nat)
    requires WindowTracks(b, user, minute, n)
    requires c.Reserve? && c.user == user && user in b.windows ==> b.windows[user].0 <= c.minute
    ensures WindowTracks(Step(cfg, b, c).0, user, minute, if Cleared(cfg, b, c) && c.user == user &&
            c.minute == minute then n + 1 else n)
  {
    if c.Reserve? { RefillFields(cfg, b, c.mono); }
    hide Refilled;
  }

  lemma {:induction false} WindowIsHistory(cfg: Config, start: real, calls: seq<Call>, user: string, minute: int)
    requires cfg.capacity >= 0.0 && cfg.rate >= 0.0 && Monotone(start, calls) && MinutesInOrder(calls, user)
    ensures WindowTracks(After(cfg, Fresh(start), calls), user, minute,
            FoundInMinute(cfg, Fresh(start), calls, user, minute))
    decreases |calls|
  {
    if calls != [] {
      var prior, last := calls[..|calls| - 1], calls[|calls| - 1];
      var b := After(cfg, Fresh(start), prior);
      WindowIsHistory(cfg, start, prior, user, minute);
      MinuteBounded(cfg, start, prior, user, minute);
      assert prior + [last] == calls;
      if last.Reserve? { ClearedByHistory(cfg, start, prior, last); }
      hide Step, WindowTracks, WindowCounts, Cleared, BucketEmpty;
      if user in b.windows {
        var i :| 0 <= i < |prior| && prior[i].Reserve? && prior[i].user == user && prior[i].minute == b.windows[user].0;
        assert calls[i] == prior[i] && calls[|prior|] == last;
      }
      StepTracks(cfg, b, last, user, minute, FoundInMinute(cfg, Fresh(start), prior, user, minute));
    }
  }

  /** The count a reserve reaches is one more than the history's, once its minute is the user's latest. */
  lemma NextCountIsHistory(cfg: Config, start: real, calls: seq<Call>, c: Call)
    requires cfg.capacity >= 0.0 && cfg.rate >= 0.0 && Monotone(start, calls)
    requires c.Reserve? && MinutesInOrder(calls + [c], c.user)
    ensures NextCount(After(cfg, Fresh(start), calls), c.user, c.minute) ==
            FoundInMinute(cfg, Fresh(start), calls, c.user, c.minute) + 1
  {
    var all, b := calls + [c], After(cfg, Fresh(start), calls);
    assert forall i | 0 <= i < |calls| :: all[i] == calls[i];
    WindowIsHistory(cfg, start, calls, c.user, c.minute);
    MinuteBounded(cfg, start, calls, c.user, c.minute);
    hide After, FoundInMinute, WindowCounts;
    if c.user in b.windows {
      var i :| 0 <= i < |calls| && calls[i].Reserve? && calls[i].user == c.user &&
        calls[i].minute == b.windows[c.user].0;
      assert all[i].minute <= all[|calls|].minute;
    }
  }

  lemma StepAsks(cfg: Config, b: Bucket, c: Call, trace: string)
    ensures KeysOf(Step(cfg, b, c).0, trace) ==
              KeysOf(b, trace) + if Cleared(cfg, b, c) && c.trace == trace &&
                NextCount(b, c.user, c.minute) <= cfg.perMinute then {c.key} else {}
  {
    if c.Reserve? { RefillFields(cfg, b, c.mono); }
    hide Refilled;
  }

  lemma {:induction false} KeysAreHistory(cfg: Config, start: real, calls: seq<Call>, trace: string)
    requires cfg.capacity >= 0.0 && cfg.rate >= 0.0 && Monotone(start, calls) &&
             forall user :: MinutesInOrder(calls, user)
    ensures KeysOf(After(cfg, Fresh(start), calls), trace) == AskedKeys(cfg, Fresh(start), calls, trace)
    decreases |calls|
  {
    if calls != [] {
      var prior, last := calls[..|calls| - 1], calls[|calls| - 1];
      assert prior + [last] == calls;
      forall user ensures MinutesInOrder(prior, user) { assert MinutesInOrder(calls, user); }
      KeysAreHistory(cfg, start, prior, trace);
      StepAsks(cfg, After(cfg, Fresh(start), prior), last, trace);
      if last.Reserve? {
        NextCountIsHistory(cfg, start, prior, last);
        ClearedByHistory(cfg, start, prior, last);
      }
      hide Step, KeysOf, MinutesInOrder, NextCount, Cleared, BucketEmpty;
    }
  }

  lemma InflightByHistory(cfg: Config, start: real, calls: seq<Call>, user: string)
    ensures InflightOf(After(cfg, Fresh(start), calls), user) >= cfg.maxInflight <==>
            UserFull(cfg, Fresh(start), calls, user)
  {
    InflightIsPeak(cfg, start, calls, user);
    hide After, NetSince, InflightOf;
  }

  /** What the limiter answers a reserve, told from the calls before it alone: no window of time is full, the
      user's attempts in the minute, the keys the trace was asked for, and the user's admissions in excess
      of releases, in this order. */
  lemma VerdictByHistory(cfg: Config, start: real, calls: seq<Call>, c: Call)
    requires cfg.capacity >= 0.0 && cfg.rate >= 0.0 && c.Reserve? && Monotone(start, calls + [c])
    requires forall user :: MinutesInOrder(calls + [c], user)
    ensures var empty := Fresh(start);
      var verdict := Step(cfg, After(cfg, empty, calls), c).1;
      var inTime := !BucketEmpty(cfg, empty, calls, c.mono) &&
                    FoundInMinute(cfg, empty, calls, c.user, c.minute) < cfg.perMinute;
      var shallow := |AskedKeys(cfg, empty, calls, c.trace) + {c.key}| <= cfg.maxDepth;
      (verdict == RateLimited <==> !inTime) &&
      (verdict == DepthExceeded <==> inTime && !shallow) &&
      (verdict == InflightExceeded <==> inTime && shallow && UserFull(cfg, empty, calls, c.user)) &&
      (verdict == Admitted <==> inTime && shallow && !UserFull(cfg, empty, calls, c.user))
  {
    assert MinutesInOrder(calls + [c], c.user);
    assert Monotone(start, calls) by { assert forall i | 0 <= i < |calls| :: (calls + [c])[i] == calls[i]; }
    NextCountIsHistory(cfg, start, calls, c);
    forall user ensures MinutesInOrder(calls, user) {
      assert MinutesInOrder(calls + [c], user);
      assert forall i | 0 <= i < |calls| :: (calls + [c])[i] == calls[i];
    }
    KeysAreHistory(cfg, start, calls, c.trace);
    ClearedByHistory(cfg, start, calls, c);
    InflightByHistory(cfg, start, calls, c.user);
    hide After, FoundInMinute, AskedKeys, Refilled, MinutesInOrder, NextCount, Monotone, BucketEmpty, UserFull;
  }
}
