// The token bucket behind rate limiting, over real numbers.

module RateLimit {
  import opened Core

  datatype Config = Config(rate: real, burst: real)

  // Configuration validation demands a rate and a burst of at least one.
  predicate Accepted(cfg: Config) {
    cfg.rate >= 1.0 && cfg.burst >= 1.0
  }

  datatype Bucket = Bucket(tokens: real, last: real)

  predicate Sound(cfg: Config, b: Bucket) {
    0.0 <= b.tokens <= cfg.burst
  }

  function Min(a: real, b: real): real {
    if a < b then a else b
  }

  function Ceil(x: real): int {
    if x.Floor as real == x then x.Floor else x.Floor + 1
  }

  function Earned(cfg: Config, time: real): real {
    cfg.rate * time
  }

  // The bucket topped up at `now`; a clock reading before the last one adds nothing.
  function Refilled(cfg: Config, b: Bucket, now: real): real {
    Min(b.tokens + Earned(cfg, if now < b.last then 0.0 else now - b.last), cfg.burst)
  }

  function Next(cfg: Config, b: Bucket, now: real): Bucket {
    var tokens := Refilled(cfg, b, now);
    Bucket(if tokens >= 1.0 then tokens - 1.0 else tokens, now)
  }

  predicate Grants(cfg: Config, b: Bucket, now: real) {
    Refilled(cfg, b, now) >= 1.0
  }

  class TokenBucket {
    const cfg: Config
    var tokens: real
    var last: real

    ghost function State(): Bucket
      reads this
    {
      Bucket(tokens, last)
    }

    constructor (rate: real, burst: real, now: real)
      requires burst >= 0.0
      ensures cfg == Config(rate, burst) && State() == Bucket(burst, now) && Sound(cfg, State())
    {
      cfg := Config(rate, burst);
      tokens := burst;
      last := now;
    }

    // Take a token, or say how many whole seconds to wait: enough, and not one too many.
    method TryAcquire(now: real) returns (r: Result<(), int>)
      requires Accepted(cfg) && Sound(cfg, State())
      modifies `tokens, `last
      ensures Sound(cfg, State()) && State() == Next(cfg, old(State()), now)
      ensures r.Ok? <==> Grants(cfg, old(State()), now)
      ensures r.Err? ==> r.error >= 1
      ensures r.Err? ==> forall later | later >= now + r.error as real :: Grants(cfg, State(), later)
      ensures r.Err? ==> forall soon | soon <= now + (r.error - 1) as real :: !Grants(cfg, State(), soon)
    {
      ghost var b := State();
      RefillSound(cfg, b, now);
      var elapsed := if now < last then 0.0 else now - last;
      tokens := Min(tokens + cfg.rate * elapsed, cfg.burst);
      last := now;
      if tokens >= 1.0 {
        tokens := tokens - 1.0;
        r := Ok(());
      } else {
        var deficit := 1.0 - tokens;
        var wait := deficit / cfg.rate;
        r := Err(Ceil(wait));
        WaitIsExact(cfg, State(), now);
      }
    }
  }

  lemma RefillSound(cfg: Config, b: Bucket, now: real)
    requires Accepted(cfg) && Sound(cfg, b)
    ensures b.tokens <= Refilled(cfg, b, now) <= cfg.burst
    ensures b.last <= now ==> Refilled(cfg, b, now) <= b.tokens + Earned(cfg, now - b.last)
  {
    if b.last <= now { Product(cfg.rate, now - b.last); }
  }

  lemma EarnedAdds(cfg: Config, x: real, y: real)
    ensures Earned(cfg, x) + Earned(cfg, y) == Earned(cfg, x + y)
    ensures Earned(cfg, 0.0) == 0.0
  {
  }

  lemma Product(a: real, b: real)
    requires a >= 0.0 && b >= 0.0
    ensures a * b >= 0.0
  {
  }

  lemma Monotone(a: real, x: real, y: real)
    requires a >= 0.0 && x <= y
    ensures a * x <= a * y
  {
    Product(a, y - x);
  }

  /** The advertised wait is the least number of whole seconds after which a token is there. */
  lemma WaitIsExact(cfg: Config, b: Bucket, now: real)
    requires Accepted(cfg) && Sound(cfg, b) && b.tokens < 1.0 && b.last == now
    ensures var w := Ceil((1.0 - b.tokens) / cfg.rate);
            && w >= 1
            && (forall later | later >= now + w as real :: Grants(cfg, b, later))
            && (forall soon | soon <= now + (w - 1) as real :: !Grants(cfg, b, soon))
  {
    hide Earned, Grants;
    var wait := (1.0 - b.tokens) / cfg.rate;
    var w := Ceil(wait);
    WaitEarns(cfg, 1.0 - b.tokens);
    assert (w - 1) as real < wait <= w as real;
    forall later | later >= now + w as real ensures Grants(cfg, b, later) {
      GrantsIff(cfg, b, later);
      EarnedOrder(cfg, wait, later - now);
    }
    forall soon | soon <= now + (w - 1) as real ensures !Grants(cfg, b, soon) {
      if now <= soon {
        GrantsIff(cfg, b, soon);
        EarnedOrder(cfg, wait, soon - now);
      } else {
        Clockless(cfg, b, soon);
      }
    }
  }

  // Topped up, the bucket has a token exactly when the deficit has been earned.
  lemma GrantsIff(cfg: Config, b: Bucket, t: real)
    requires Accepted(cfg) && b.last <= t
    ensures Grants(cfg, b, t) <==> Earned(cfg, t - b.last) >= 1.0 - b.tokens
  {
    hide Earned;
  }

  lemma Clockless(cfg: Config, b: Bucket, t: real)
    requires b.tokens < 1.0 && t < b.last
    ensures !Grants(cfg, b, t)
  {
    assert Earned(cfg, 0.0) == 0.0;
  }

  lemma WaitEarns(cfg: Config, deficit: real)
    requires Accepted(cfg) && deficit > 0.0
    ensures Earned(cfg, deficit / cfg.rate) == deficit && deficit / cfg.rate > 0.0
  {
    var wait := deficit / cfg.rate;
    assert cfg.rate * wait == deficit;
    if wait <= 0.0 { Product(cfg.rate, -wait); }
  }

  lemma EarnedOrder(cfg: Config, x: real, y: real)
    requires Accepted(cfg)
    ensures x <= y <==> Earned(cfg, x) <= Earned(cfg, y)
  {
    if x <= y { Monotone(cfg.rate, x, y); } else { TooSoon(cfg.rate, y, x); }
  }

  lemma TooSoon(a: real, x: real, y: real)
    requires a > 0.0 && x < y
    ensures a * x < a * y
  {
    assert a * (y - x) > 0.0;
  }

  // ---- runs ----

  function Run(cfg: Config, b: Bucket, times: seq<real>): Bucket {
    if times == [] then b else Next(cfg, Run(cfg, b, times[..|times| - 1]), times[|times| - 1])
  }

  // How many of the attempts are granted.
  function Granted(cfg: Config, b: Bucket, times: seq<real>): nat {
    if times == [] then 0
    else
      var n := |times| - 1;
      Granted(cfg, b, times[..n]) + if Grants(cfg, Run(cfg, b, times[..n]), times[n]) then 1 else 0
  }

  predicate Ordered(times: seq<real>) {
    forall i, j | 0 <= i < j < |times| :: times[i] <= times[j]
  }

  /** Tokens stay within the bucket through every run. */
  lemma {:induction false} RunSound(cfg: Config, b: Bucket, times: seq<real>)
    requires Accepted(cfg) && Sound(cfg, b)
    ensures Sound(cfg, Run(cfg, b, times))
  {
    if times != [] {
      RunSound(cfg, b, times[..|times| - 1]);
      RefillSound(cfg, Run(cfg, b, times[..|times| - 1]), times[|times| - 1]);
    }
  }

  // Granted attempts and tokens left are paid for by a full bucket and the refill since
  // the first attempt.
  lemma {:induction false} Budget(cfg: Config, b: Bucket, times: seq<real>)
    requires Accepted(cfg) && Sound(cfg, b) && Ordered(times) && times != []
    ensures Granted(cfg, b, times) as real + Run(cfg, b, times).tokens <= cfg.burst +
            Earned(cfg, times[|times| - 1] - times[0])
    ensures Run(cfg, b, times).last == times[|times| - 1]
  {
    hide Earned, Refilled, Accepted;
    var n := |times| - 1;
    RunSound(cfg, b, times[..n]);
    RefillSound(cfg, Run(cfg, b, times[..n]), times[n]);
    if n > 0 {
      Budget(cfg, b, times[..n]);
      assert times[..n][n - 1] == times[n - 1];
      EarnedAdds(cfg, times[n - 1] - times[0], times[n] - times[n - 1]);
    } else {
      assert times[..0] == [];
      EarnedAdds(cfg, 0.0, 0.0);
    }
  }

  /** In any run and any window of it, from attempt `i` up to attempt `j`, at most
      burst + rate * (length of the window) attempts are granted. */
  lemma WindowBound(cfg: Config, b: Bucket, times: seq<real>, i: nat, j: nat)
    requires Accepted(cfg) && Sound(cfg, b) && Ordered(times) && i < j <= |times|
    ensures (Granted(cfg, b, times[..j]) - Granted(cfg, b, times[..i])) as real
            <= cfg.burst + Earned(cfg, times[j - 1] - times[i])
  {
    hide Earned, Run, Granted, Accepted, Next, Grants;
    var start := Run(cfg, b, times[..i]);
    RunSound(cfg, b, times[..i]);
    RunSplit(cfg, b, times[..i], times[i..j]);
    assert times[..i] + times[i..j] == times[..j];
    Budget(cfg, start, times[i..j]);
    RunSound(cfg, start, times[i..j]);
    AtMostAll(cfg, start, times[i..j]);
  }

  lemma {:induction false} AtMostAll(cfg: Config, b: Bucket, times: seq<real>)
    ensures Granted(cfg, b, times) <= |times|
  {
    if times != [] { AtMostAll(cfg, b, times[..|times| - 1]); }
  }

  lemma {:induction false} RunSplit(cfg: Config, b: Bucket, xs: seq<real>, ys: seq<real>)
    ensures Run(cfg, b, xs + ys) == Run(cfg, Run(cfg, b, xs), ys)
    ensures Granted(cfg, b, xs + ys) == Granted(cfg, b, xs) + Granted(cfg, Run(cfg, b, xs), ys)
  {
    if ys == [] {
      assert xs + ys == xs;
    } else {
      var n := |ys| - 1;
      assert (xs + ys)[..|xs + ys| - 1] == xs + ys[..n];
      RunSplit(cfg, b, xs, ys[..n]);
    }
  }
}
