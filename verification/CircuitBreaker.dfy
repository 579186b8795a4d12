/** The in-process circuit breaker: a deque of recent failures per provider and a time until which its
    circuit is open, against the history they summarise. */
module CircuitBreaker {

  datatype Config = Config(window: real, threshold: int, openFor: real)

  datatype Event = Failed(provider: string, at: real) | Succeeded(provider: string)

  datatype Breaker = Breaker(failures: map<string, seq<real>>, openUntil: map<string, real>)

  function DequeOf(b: Breaker, provider: string): seq<real> {
    if provider in b.failures then b.failures[provider] else []
  }

  /** Entries are dropped from the left while they are older than the cutoff. */
  function Pruned(deque: seq<real>, cutoff: real): seq<real>
    decreases |deque|
  {
    if deque != [] && deque[0] < cutoff then Pruned(deque[1..], cutoff) else deque
  }

  function Record(cfg: Config, b: Breaker, e: Event): Breaker {
    match e
    case Failed(provider, at) =>
      var deque := Pruned(DequeOf(b, provider) + [at], at - cfg.window);
      Breaker(b.failures[provider := deque],
              if |deque| >= cfg.threshold then b.openUntil[provider := at + cfg.openFor] else b.openUntil)
    case Succeeded(provider) => Breaker(b.failures - {provider}, b.openUntil - {provider})
  }

  /** A provider without an entry reads as open until time zero. */
  predicate Open(b: Breaker, provider: string, now: real) {
    (if provider in b.openUntil then b.openUntil[provider] else 0.0) > now
  }

  function Recorded(cfg: Config, history: seq<Event>): Breaker
    decreases |history|
  {
    if history == [] then Breaker(map[], map[])
    else Record(cfg, Recorded(cfg, history[..|history| - 1]), history[|history| - 1])
  }

  // ---------- the breaker ----------

  class LocalCircuitFallback {
    var failures: map<string, seq<real>>
    var openUntil: map<string, real>

    ghost function State(): Breaker
      reads this
    {
      Breaker(failures, openUntil)
    }

    constructor ()
      ensures State() == Breaker(map[], map[])
    {
      failures, openUntil := map[], map[];
    }

    method AssertClosed(provider: string, now: real) returns (raises: bool)
      ensures raises == Open(State(), provider, now)
    {
      var until := if provider in openUntil then openUntil[provider] else 0.0;
      raises := until > now;
    }

    method RecordFailure(cfg: Config, provider: string, now: real)
      modifies this
      ensures State() == Record(cfg, old(State()), Failed(provider, now))
    {
      var deque := (if provider in failures then failures[provider] else []) + [now];
      var cutoff := now - cfg.window;
      while deque != [] && deque[0] < cutoff
        invariant Pruned(deque, cutoff) == Pruned(DequeOf(old(State()), provider) + [now], cutoff)
        decreases |deque|
      {
        deque := deque[1..];
      }
      failures := failures[provider := deque];
      if |deque| >= cfg.threshold {
        openUntil := openUntil[provider := now + cfg.openFor];
      }
    }

    method RecordSuccess(provider: string)
      modifies this
      ensures forall cfg: Config :: State() == Record(cfg, old(State()), Succeeded(provider))
    {
      failures := failures - {provider};
      openUntil := openUntil - {provider};
    }
  }

  // ---------- the history ----------

  /** The provider's failures since its last success, oldest first. */
  function Since(history: seq<Event>, provider: string): seq<real>
    decreases |history|
  {
    if history == [] then []
    else
      var before := Since(history[..|history| - 1], provider);
      match history[|history| - 1]
      case Failed(who, at) => if who == provider then before + [at] else before
      case Succeeded(who) => if who == provider then [] else before
  }

  function NotBefore(times: seq<real>, cutoff: real): seq<real>
    decreases |times|
  {
    if times == [] then [] else (if times[0] >= cutoff then [times[0]] else []) + NotBefore(times[1..], cutoff)
  }

  /** When the k-th failure was recorded, enough failures lay in the window that ends with it. */
  predicate Dense(cfg: Config, times: seq<real>, k: nat)
    requires k < |times|
  {
    |NotBefore(times[..k + 1], times[k] - cfg.window)| >= cfg.threshold
  }

  predicate Rising(times: seq<real>) {
    forall i, j | 0 <= i < j < |times| :: times[i] <= times[j]
  }

  /** The clock does not go back between failures. */
  predicate Monotone(history: seq<Event>) {
    forall i, j | 0 <= i < j < |history| && history[i].Failed? && history[j].Failed? :: history[i].at <= history[j].at
  }

  predicate FailedAt(history: seq<Event>, at: real) {
    exists i | 0 <= i < |history| :: history[i].Failed? && history[i].at == at
  }

  lemma RisingPush(times: seq<real>, at: real)
    requires Rising(times) && forall x | x in times :: x <= at
    ensures Rising(times + [at])
  {
    forall i, j | 0 <= i < j < |times + [at]|
      ensures (times + [at])[i] <= (times + [at])[j]
    {
      assert times[i] in times;
    }
  }

  lemma RisingCons(at: real, times: seq<real>)
    requires Rising(times) && forall x | x in times :: at <= x
    ensures Rising([at] + times)
  {
    forall i, j | 0 <= i < j < |[at] + times|
      ensures ([at] + times)[i] <= ([at] + times)[j]
    {
      assert times[j - 1] in times;
    }
  }

  lemma {:induction false} SinceRises(history: seq<Event>, provider: string)
    requires Monotone(history)
    ensures Rising(Since(history, provider))
    ensures forall x | x in Since(history, provider) :: FailedAt(history, x)
    decreases |history|
  {
    if history != [] {
      var prior, last := history[..|history| - 1], history[|history| - 1];
      SinceRises(prior, provider);
      forall x | FailedAt(prior, x)
        ensures FailedAt(history, x) && (last.Failed? ==> x <= last.at)
      {
        var i :| 0 <= i < |prior| && prior[i].Failed? && prior[i].at == x;
        assert history[i] == prior[i] && history[|prior|] == last;
      }
      if last.Failed? && last.provider == provider {
        assert history[|prior|] == last;
        hide Rising;
        RisingPush(Since(prior, provider), last.at);
      }
    }
  }

  /** On a rising sequence, dropping from the left leaves exactly the entries in the window. */
  lemma {:induction false} PrunedIsWindow(times: seq<real>, cutoff: real)
    requires Rising(times)
    ensures Pruned(times, cutoff) == NotBefore(times, cutoff)
    decreases |times|
  {
    if times != [] {
      if times[0] < cutoff {
        PrunedIsWindow(times[1..], cutoff);
      } else {
        AllInWindow(times, cutoff);
      }
    }
  }

  lemma {:induction false} AllInWindow(times: seq<real>, cutoff: real)
    requires forall i | 0 <= i < |times| :: times[i] >= cutoff
    ensures NotBefore(times, cutoff) == times
    decreases |times|
  {
    if times != [] {
      AllInWindow(times[1..], cutoff);
      assert times == [times[0]] + times[1..];
    }
  }

  lemma {:induction false} WindowPush(times: seq<real>, at: real, cutoff: real)
    ensures NotBefore(times + [at], cutoff) == NotBefore(times, cutoff) + if at >= cutoff then [at] else []
    decreases |times|
  {
    var all := times + [at];
    if times == [] {
      assert all[1..] == [];
    } else {
      assert all[1..] == times[1..] + [at] && all[0] == times[0];
      WindowPush(times[1..], at, cutoff);
    }
  }

  /** Looking through an earlier window first loses nothing that a later one keeps. */
  lemma {:induction false} WindowTwice(times: seq<real>, early: real, late: real)
    requires early <= late
    ensures NotBefore(NotBefore(times, early), late) == NotBefore(times, late)
    decreases |times|
  {
    if times != [] {
      WindowTwice(times[1..], early, late);
      var rest := NotBefore(times[1..], early);
      if times[0] >= early {
        assert NotBefore(times, early) == [times[0]] + rest && ([times[0]] + rest)[1..] == rest;
      } else {
        assert NotBefore(times, early) == rest;
      }
    }
  }

  lemma {:induction false} WindowRises(times: seq<real>, cutoff: real)
    requires Rising(times)
    ensures Rising(NotBefore(times, cutoff))
    ensures forall x | x in NotBefore(times, cutoff) :: x in times
    decreases |times|
  {
    if times != [] {
      WindowRises(times[1..], cutoff);
      assert forall x | x in times[1..] :: x in times && times[0] <= x;
      if times[0] >= cutoff { RisingCons(times[0], NotBefore(times[1..], cutoff)); }
      hide Rising;
    }
  }

  function LastOf(times: seq<real>): real {
    if times == [] then 0.0 else times[|times| - 1]
  }

  /** One failure more: the pruned deque is the window of the longer sequence. */
  lemma WindowMoves(times: seq<real>, at: real, window: real)
    requires Rising(times + [at])
    ensures Pruned(NotBefore(times, LastOf(times) - window) + [at], at - window) == NotBefore(times + [at], at - window)
  {
    var last := LastOf(times);
    if times == [] {
      assert NotBefore(times, last - window) + [at] == [at] == times + [at];
      PrunedIsWindow([at], at - window);
    } else {
      var kept := NotBefore(times, last - window);
      assert last <= at by { assert (times + [at])[|times| - 1] == last && (times + [at])[|times|] == at; }
      assert forall i | 0 <= i < |times| :: (times + [at])[i] == times[i];
      WindowRises(times, last - window);
      assert forall x | x in times :: x <= at;
      RisingPush(kept, at);
      PrunedIsWindow(kept + [at], at - window);
      WindowPush(kept, at, at - window);
      WindowTwice(times, last - window, at - window);
      WindowPush(times, at, at - window);
    }
  }

  predicate DequeFits(cfg: Config, b: Breaker, times: seq<real>, provider: string) {
    DequeOf(b, provider) == NotBefore(times, LastOf(times) - cfg.window)
  }

  lemma DequePush(cfg: Config, b: Breaker, times: seq<real>, provider: string, at: real)
    requires DequeFits(cfg, b, times, provider) && Rising(times + [at])
    ensures DequeFits(cfg, Record(cfg, b, Failed(provider, at)), times + [at], provider)
  {
    hide Pruned, NotBefore, Rising;
    WindowMoves(times, at, cfg.window);
  }

  /** The deque is exactly the failures since the last success that lie in the window of the newest. */
  lemma {:induction false} DequeIsWindow(cfg: Config, history: seq<Event>, provider: string)
    requires Monotone(history)
    ensures var times := Since(history, provider);
      DequeOf(Recorded(cfg, history), provider) == NotBefore(times, LastOf(times) - cfg.window)
    decreases |history|
  {
    if history != [] {
      var prior, last := history[..|history| - 1], history[|history| - 1];
      DequeIsWindow(cfg, prior, provider);
      SinceRises(history, provider);
      hide Pruned, Rising;
      if last.Failed? && last.provider == provider {
        DequePush(cfg, Recorded(cfg, prior), Since(prior, provider), provider, last.at);
      }
    }
  }

  predicate Triggers(cfg: Config, times: seq<real>, now: real) {
    exists k | 0 <= k < |times| :: Dense(cfg, times, k) && times[k] + cfg.openFor > now
  }

  predicate NoneDense(cfg: Config, times: seq<real>) {
    forall k | 0 <= k < |times| :: !Dense(cfg, times, k)
  }

  lemma DensePush(cfg: Config, times: seq<real>, at: real)
    ensures forall k | 0 <= k < |times| :: Dense(cfg, times + [at], k) == Dense(cfg, times, k)
    ensures Dense(cfg, times + [at], |times|) == (|NotBefore(times + [at], at - cfg.window)| >= cfg.threshold)
  {
    var all := times + [at];
    forall k | 0 <= k < |times| ensures Dense(cfg, all, k) == Dense(cfg, times, k) {
      assert all[..k + 1] == times[..k + 1];
    }
    assert all[..|times| + 1] == all;
  }

  /** What the open-until entry says of the failures since the last success. */
  ghost predicate OpenFits(cfg: Config, b: Breaker, times: seq<real>, provider: string) {
    if provider in b.openUntil then
      exists k | 0 <= k < |times| :: Dense(cfg, times, k) && b.openUntil[provider] == times[k] + cfg.openFor &&
        forall j | k < j < |times| :: !Dense(cfg, times, j)
    else NoneDense(cfg, times)
  }

  lemma FailureRecorded(cfg: Config, b: Breaker, times: seq<real>, provider: string, at: real)
    requires Rising(times + [at]) && DequeFits(cfg, b, times, provider)
    ensures var next := Record(cfg, b, Failed(provider, at));
      next.openUntil == if Dense(cfg, times + [at], |times|) then b.openUntil[provider := at + cfg.openFor]
        else b.openUntil
  {
    hide Dense, Pruned, NotBefore, Rising, LastOf;
    WindowMoves(times, at, cfg.window);
    DensePush(cfg, times, at);
  }

  lemma OpenPush(cfg: Config, b: Breaker, times: seq<real>, provider: string, at: real)
    requires OpenFits(cfg, b, times, provider) && Rising(times + [at]) && DequeFits(cfg, b, times, provider)
    ensures OpenFits(cfg, Record(cfg, b, Failed(provider, at)), times + [at], provider)
  {
    hide Dense, Record, Rising, NotBefore;
    FailureRecorded(cfg, b, times, provider, at);
    DensePush(cfg, times, at);
    var all := times + [at];
    if Dense(cfg, all, |times|) {
      assert all[|times|] == at;
    } else if provider in b.openUntil {
      var k :| 0 <= k < |times| && Dense(cfg, times, k) && b.openUntil[provider] == times[k] + cfg.openFor &&
        forall j | k < j < |times| :: !Dense(cfg, times, j);
      assert Dense(cfg, all, k) && all[k] == times[k];
    }
  }

  lemma {:induction false} OpenRecorded(cfg: Config, history: seq<Event>, provider: string)
    requires Monotone(history)
    ensures OpenFits(cfg, Recorded(cfg, history), Since(history, provider), provider)
    decreases |history|
  {
    if history != [] {
      var prior, last := history[..|history| - 1], history[|history| - 1];
      OpenRecorded(cfg, prior, provider);
      if last.Failed? && last.provider == provider {
        DequeIsWindow(cfg, prior, provider);
        SinceRises(history, provider);
        OpenPush(cfg, Recorded(cfg, prior), Since(prior, provider), provider, last.at);
      }
      hide Dense, Pruned, NotBefore, Rising, Monotone;
    }
  }

  /** The breaker raises at a time exactly when some failure since the last success had the threshold of
      failures in the window that ends with it and opened the circuit beyond that time; with none of
      them, only before time zero. */
  lemma RaisesExactly(cfg: Config, history: seq<Event>, provider: string, now: real)
    requires Monotone(history)
    ensures var times := Since(history, provider);
      Open(Recorded(cfg, history), provider, now) <==>
      Triggers(cfg, times, now) || (NoneDense(cfg, times) && now < 0.0)
  {
    var b, times := Recorded(cfg, history), Since(history, provider);
    OpenRecorded(cfg, history, provider);
    SinceRises(history, provider);
    hide Dense, Recorded, Since;
    if provider in b.openUntil {
      var k :| 0 <= k < |times| && Dense(cfg, times, k) && b.openUntil[provider] == times[k] + cfg.openFor &&
        forall j | k < j < |times| :: !Dense(cfg, times, j);
      assert forall j | 0 <= j < |times| && Dense(cfg, times, j) :: j <= k && times[j] <= times[k];
    }
  }
}
