// The token bucket in front of task submission, over exact arithmetic: its throughput bound under
// live reconfiguration, and how long an undisturbed caller waits.

module RateLimiter {
  import opened Wrappers

  datatype Bucket = Bucket(rate: real, burst: int, tokens: real, lastRefill: real) {
    predicate Enabled() { rate > 0.0 }

    /** Between nothing and the current capacity. */
    predicate Sane() { rate >= 0.0 && burst >= 0 && 0.0 <= tokens <= burst as real }
  }

  function Min(a: real, b: real): real {
    if a <= b then a else b
  }

  /** What a bucket gains over a stretch of time. */
  function Gain(from: real, to: real, rate: real): real {
    (to - from) * rate
  }

  function Refill(b: Bucket, now: real): Bucket {
    if !b.Enabled() then b
    else b.(tokens := Min(b.burst as real, b.tokens + Gain(b.lastRefill, now, b.rate)), lastRefill := now)
  }

  function Take(b: Bucket): Bucket {
    b.(tokens := b.tokens - 1.0)
  }

  /** What one attempt of a caller ends in. */
  datatype Attempt = Granted | Empty(wait: real) | DividesByZero

  /** A disabled limiter grants without touching the bucket. */
  function TryAcquire(b: Bucket, now: real): (Bucket, bool) {
    if !b.Enabled() then (b, true)
    else
      var full := Refill(b, now);
      if full.tokens >= 1.0 then (Take(full), true) else (full, false)
  }

  /** One turn of the waiting loop. Only the first test of `acquire` looks at whether limiting is on. */
  function AcquireTurn(b: Bucket, now: real): (Bucket, Attempt) {
    var full := Refill(b, now);
    if full.tokens >= 1.0 then (Take(full), Granted)
    else if full.rate == 0.0 then (full, DividesByZero)
    else (full, Empty((1.0 - full.tokens) / full.rate))
  }

  function Reconfigure(b: Bucket, rate: real, burst: int): Bucket {
    b.(rate := rate, burst := burst, tokens := if rate > 0.0 then Min(b.tokens, burst as real) else 0.0)
  }

  // ---- Runs ----

  datatype Event =
    | Trying(now: real)
    | Waiting(now: real)
    | Status(now: real)
    | Reconfiguring(now: real, rate: real, burst: int)

  function Step(b: Bucket, e: Event): Bucket {
    match e
    case Trying(now) => TryAcquire(b, now).0
    case Waiting(now) => AcquireTurn(b, now).0
    case Status(now) => Refill(b, now)
    case Reconfiguring(_, rate, burst) => Reconfigure(b, rate, burst)
  }

  predicate Grants(b: Bucket, e: Event) {
    match e
    case Trying(now) => TryAcquire(b, now).1
    case Waiting(now) => AcquireTurn(b, now).1.Granted?
    case Status(_) => false
    case Reconfiguring(_, _, _) => false
  }

  /** How many of the events, in order, are granted a token. */
  function GrantCount(b: Bucket, events: seq<Event>): nat
    decreases events
  {
    if events == [] then 0
    else (if Grants(b, events[0]) then 1 else 0) + GrantCount(Step(b, events[0]), events[1..])
  }

  function Run(b: Bucket, events: seq<Event>): Bucket
    decreases events
  {
    if events == [] then b else Run(Step(b, events[0]), events[1..])
  }

  /** The clock never runs backwards, starting at `from`. */
  ghost predicate Timely(from: real, events: seq<Event>)
    decreases events
  {
    events == [] || (from <= events[0].now && Timely(events[0].now, events[1..]))
  }

  /** Every new configuration stays positive and within the given rate and burst. */
  ghost predicate WithinLimits(events: seq<Event>, maxRate: real, maxBurst: int) {
    forall e | e in events && e.Reconfiguring? :: 0.0 < e.rate <= maxRate && 0 <= e.burst <= maxBurst
  }

  ghost predicate Limited(b: Bucket, maxRate: real, maxBurst: int) {
    b.Sane() && 0.0 < b.rate <= maxRate && b.burst <= maxBurst
  }

  lemma LeastOf(a: real, b: real, x: real, y: real)
    requires 0.0 <= a <= b && 0.0 <= x <= y
    ensures 0.0 <= Min(a, x) <= Min(b, y)
  {
  }

  /** Time earns tokens, and more at a higher rate. */
  lemma Earned(from: real, to: real, rate: real, maxRate: real)
    requires from <= to && 0.0 <= rate <= maxRate
    ensures 0.0 <= Gain(from, to, rate) <= Gain(from, to, maxRate)
  {
    var elapsed := to - from;
    assert 0.0 <= elapsed * rate;
    assert elapsed * rate + elapsed * (maxRate - rate) == elapsed * maxRate;
    assert elapsed * rate == (to - from) * rate && elapsed * maxRate == (to - from) * maxRate;
  }

  lemma RefillSane(b: Bucket, now: real)
    requires b.Sane() && b.lastRefill <= now
    ensures Refill(b, now).Sane() && Refill(b, now).lastRefill <= now
  {
    Earned(b.lastRefill, now, b.rate, b.rate);
    var gain := Gain(b.lastRefill, now, b.rate);
    LeastOf(b.burst as real, b.burst as real, b.tokens + gain, b.tokens + gain);
  }

  /** Tokens never leave the range from zero to the current burst. */
  lemma StepSane(b: Bucket, e: Event)
    requires b.Sane() && b.lastRefill <= e.now && (e.Reconfiguring? ==> e.rate >= 0.0 && e.burst >= 0)
    ensures Step(b, e).Sane() && Step(b, e).lastRefill <= e.now
  {
    if !e.Reconfiguring? {
      RefillSane(b, e.now);
    }
  }

  // ---- The window bound ----

  /**
    * `earn(t)` is the amount that a bucket refilled at the highest rate would have gained up to time
    * `t`: over any stretch of time it gains at least what any allowed rate gains.
    */
  ghost predicate Earns(earn: real -> real, maxRate: real) {
    forall from, to, rate :: EarnsAt(earn, maxRate, from, to, rate)
  }

  ghost predicate EarnsAt(earn: real -> real, maxRate: real, from: real, to: real, rate: real) {
    from <= to && 0.0 <= rate <= maxRate ==> 0.0 <= Gain(from, to, rate) <= earn(to) - earn(from)
  }

  /** The most a caller could find in the bucket at a given time, were it as fast and large as allowed. */
  ghost function Potential(b: Bucket, now: real, earn: real -> real, maxBurst: int): real {
    Min(maxBurst as real, b.tokens + (earn(now) - earn(b.lastRefill)))
  }

  lemma RefillWithin(b: Bucket, now: real, earn: real -> real, maxRate: real, maxBurst: int)
    requires Limited(b, maxRate, maxBurst) && b.lastRefill <= now && Earns(earn, maxRate)
    ensures 0.0 <= Refill(b, now).tokens <= Potential(b, now, earn, maxBurst)
  {
    assert EarnsAt(earn, maxRate, b.lastRefill, now, b.rate);
    var gain := Gain(b.lastRefill, now, b.rate);
    assert 0.0 <= gain <= earn(now) - earn(b.lastRefill);
    LeastOf(b.burst as real, maxBurst as real, b.tokens + gain, b.tokens + (earn(now) - earn(b.lastRefill)));
  }

  /** A step pays for its grant out of the potential. */
  lemma StepPays(b: Bucket, e: Event, earn: real -> real, maxRate: real, maxBurst: int)
    requires Limited(b, maxRate, maxBurst) && b.lastRefill <= e.now && Earns(earn, maxRate)
    requires e.Reconfiguring? ==> 0.0 < e.rate <= maxRate && 0 <= e.burst <= maxBurst
    ensures Limited(Step(b, e), maxRate, maxBurst) && Step(b, e).lastRefill <= e.now
    ensures Potential(Step(b, e), e.now, earn, maxBurst) + (if Grants(b, e) then 1.0 else 0.0)
         <= Potential(b, e.now, earn, maxBurst)
  {
    StepSane(b, e);
    if !e.Reconfiguring? {
      RefillWithin(b, e.now, earn, maxRate, maxBurst);
    }
  }

  lemma PotentialExists(b: Bucket, now: real, earn: real -> real, maxRate: real, maxBurst: int)
    requires Limited(b, maxRate, maxBurst) && b.lastRefill <= now && Earns(earn, maxRate)
    ensures 0.0 <= Potential(b, now, earn, maxBurst)
  {
    assert EarnsAt(earn, maxRate, b.lastRefill, now, 0.0);
  }

  lemma {:induction false} WindowPaid(b: Bucket, events: seq<Event>, from: real, to: real, earn: real -> real,
                                      maxRate: real, maxBurst: int)
    requires Limited(b, maxRate, maxBurst) && b.lastRefill <= from <= to && Earns(earn, maxRate)
    requires Timely(from, events) && WithinLimits(events, maxRate, maxBurst)
    requires forall e | e in events :: e.now <= to
    ensures GrantCount(b, events) as real <= Potential(b, from, earn, maxBurst) + (earn(to) - earn(from))
    decreases events
  {
    if events == [] {
      PotentialExists(b, from, earn, maxRate, maxBurst);
      assert EarnsAt(earn, maxRate, from, to, 0.0);
    } else {
      var e := events[0];
      assert e in events && forall x | x in events[1..] :: x in events;
      StepPays(b, e, earn, maxRate, maxBurst);
      WindowPaid(Step(b, e), events[1..], e.now, to, earn, maxRate, maxBurst);
      assert EarnsAt(earn, maxRate, from, e.now, 0.0);
    }
  }

  lemma WindowEarned(b: Bucket, events: seq<Event>, from: real, to: real, earn: real -> real,
                                        maxRate: real, maxBurst: int)
    requires Limited(b, maxRate, maxBurst) && b.lastRefill <= from <= to && Earns(earn, maxRate)
    requires Timely(from, events) && WithinLimits(events, maxRate, maxBurst)
    requires forall e | e in events :: e.now <= to
    ensures GrantCount(b, events) as real <= maxBurst as real + (earn(to) - earn(from))
  {
    WindowPaid(b, events, from, to, earn, maxRate, maxBurst);
    assert Potential(b, from, earn, maxBurst) <= maxBurst as real;
  }

  lemma HighestRate(maxRate: real, start: real, end: real) returns (earn: real -> real)
    ensures Earns(earn, maxRate) && earn(end) - earn(start) == (end - start) * maxRate
  {
    earn := t => t * maxRate;
    forall from, to, rate
      ensures EarnsAt(earn, maxRate, from, to, rate)
    {
      if from <= to && 0.0 <= rate <= maxRate {
        Earned(from, to, rate, maxRate);
        assert Gain(from, to, maxRate) == to * maxRate - from * maxRate;
      }
    }
    assert (end - start) * maxRate == end * maxRate - start * maxRate;
  }

  /**
    * Over any interval, whatever the mix of attempts, waits, status reads and reconfigurations to
    * positive rates at most R and bursts at most B, the grants are at most B + R * T.
    */
  lemma WindowBound(b: Bucket, events: seq<Event>, from: real, to: real, maxRate: real, maxBurst: int)
    requires Limited(b, maxRate, maxBurst) && b.lastRefill <= from <= to
    requires Timely(from, events) && WithinLimits(events, maxRate, maxBurst)
    requires forall e | e in events :: e.now <= to
    ensures GrantCount(b, events) as real <= maxBurst as real + (to - from) * maxRate
  {
    var earn := HighestRate(maxRate, from, to);
    WindowEarned(b, events, from, to, earn, maxRate, maxBurst);
  }

  /** Tokens stay between zero and the current burst over every run, reconfigurations included. */
  lemma {:induction false} RunSane(b: Bucket, events: seq<Event>, from: real)
    requires b.Sane() && b.lastRefill <= from && Timely(from, events)
    requires forall e | e in events && e.Reconfiguring? :: e.rate >= 0.0 && e.burst >= 0
    ensures Run(b, events).Sane()
    decreases events
  {
    if events != [] {
      assert events[0] in events && forall x | x in events[1..] :: x in events;
      StepSane(b, events[0]);
      RunSane(Step(b, events[0]), events[1..], events[0].now);
    }
  }

  // ---- Nothing is refused that was earned ----

  /**
    * What each use of the limiter does. While limiting is on, the bucket gains rate times elapsed time, up
    * to its capacity, and a caller gets a token exactly if there is a whole one; while it is off everybody
    * is let through. New limits keep the tokens that fit; switching off empties the bucket.
    */
  lemma StepMeans(b: Bucket, e: Event)
    ensures var earned := b.tokens + (e.now - b.lastRefill) * b.rate;
            var available := if earned < b.burst as real then earned else b.burst as real;
            var r := Step(b, e);
            match e
            case Trying(now) =>
              if b.rate <= 0.0 then Grants(b, e) && r == b
              else
                && (Grants(b, e) <==> available >= 1.0)
                && r == b.(tokens := if available >= 1.0 then available - 1.0 else available, lastRefill := now)
            case Waiting(now) =>
              b.rate > 0.0 ==>
                && (Grants(b, e) <==> available >= 1.0)
                && r == b.(tokens := if available >= 1.0 then available - 1.0 else available, lastRefill := now)
            case Status(now) => !Grants(b, e) && r == if b.rate <= 0.0 then b else b.(tokens := available, lastRefill := now)
            case Reconfiguring(_, rate, burst) =>
              && !Grants(b, e)
              && r == b.(rate := rate, burst := burst,
                         tokens := if rate <= 0.0 then 0.0 else if b.tokens < burst as real then b.tokens else burst as real)
  {
    assert Gain(b.lastRefill, e.now, b.rate) == (e.now - b.lastRefill) * b.rate;
  }

  /** A caller that gets no token is told to wait until there is a whole one. */
  lemma WaitMeans(b: Bucket, now: real)
    requires b.Enabled() && b.burst >= 1 && !Grants(b, Waiting(now))
    ensures var outcome := AcquireTurn(b, now).1;
            && outcome.Empty? && outcome.wait > 0.0
            && b.tokens + (now + outcome.wait - b.lastRefill) * b.rate == 1.0
  {
    var full := Refill(b, now);
    var wait := (1.0 - full.tokens) / b.rate;
    assert full.tokens == b.tokens + Gain(b.lastRefill, now, b.rate);
    assert wait * b.rate == 1.0 - full.tokens;
    GainsAdd(b.lastRefill, now, now + wait, b.rate);
    assert Gain(now, now + wait, b.rate) == wait * b.rate;
  }

  /** What does not fit into the bucket when it is refilled. */
  function Spill(b: Bucket, now: real): real {
    var earned := b.tokens + Gain(b.lastRefill, now, b.rate);
    if earned > b.burst as real then earned - b.burst as real else 0.0
  }

  function Spilled(b: Bucket, events: seq<Event>): real
    decreases events
  {
    if events == [] then 0.0 else Spill(b, events[0].now) + Spilled(Step(b, events[0]), events[1..])
  }

  lemma GainsAdd(a: real, b: real, c: real, rate: real)
    ensures Gain(a, b, rate) + Gain(b, c, rate) == Gain(a, c, rate)
  {
    assert (b - a) * rate + (c - b) * rate == (c - a) * rate;
  }

  /** Conservation: every token that was there or was earned has been granted, has spilled, or is still there. */
  lemma {:induction false} TokensConserved(b: Bucket, events: seq<Event>)
    requires b.Enabled() && forall e | e in events :: !e.Reconfiguring?
    ensures var r := Run(b, events);
            && r.rate == b.rate && r.burst == b.burst
            && r.tokens + GrantCount(b, events) as real + Spilled(b, events)
               == b.tokens + Gain(b.lastRefill, r.lastRefill, b.rate)
    decreases events
  {
    if events == [] {
      assert Gain(b.lastRefill, b.lastRefill, b.rate) == 0.0;
    } else {
      var e := events[0];
      assert e in events && forall x | x in events[1..] :: x in events;
      TokensConserved(Step(b, e), events[1..]);
      GainsAdd(b.lastRefill, e.now, Run(b, events).lastRefill, b.rate);
    }
  }

  lemma {:induction false} NothingSpilled(b: Bucket, events: seq<Event>, to: real)
    requires b.Enabled() && b.Sane() && Timely(b.lastRefill, events)
    requires forall e | e in events :: !e.Reconfiguring? && e.now <= to
    requires b.lastRefill <= to && b.tokens + Gain(b.lastRefill, to, b.rate) <= b.burst as real
    ensures Spilled(b, events) == 0.0 && Run(b, events).lastRefill <= to
    decreases events
  {
    if events != [] {
      var e := events[0];
      assert e in events && forall x | x in events[1..] :: x in events;
      StepSane(b, e);
      GainsAdd(b.lastRefill, e.now, to, b.rate);
      Earned(e.now, to, b.rate, b.rate);
      NothingSpilled(Step(b, e), events[1..], to);
    }
  }

  /**
    * As long as the bucket cannot overflow: when a caller is refused, the number of tokens granted so far
    * is what the bucket held and has earned since, rounded down. No earned token is withheld.
    */
  lemma RefusedOnlyWhenSpent(b: Bucket, events: seq<Event>, now: real)
    requires b.Enabled() && b.Sane() && Timely(b.lastRefill, events)
    requires b.lastRefill <= now && forall e | e in events :: !e.Reconfiguring? && e.now <= now
    requires b.tokens + Gain(b.lastRefill, now, b.rate) <= b.burst as real
    requires !Grants(Run(b, events), Trying(now))
    ensures var earned := b.tokens + Gain(b.lastRefill, now, b.rate);
            GrantCount(b, events) as real <= earned < GrantCount(b, events) as real + 1.0
  {
    var r := Run(b, events);
    TokensConserved(b, events);
    NothingSpilled(b, events, now);
    RunSane(b, events, b.lastRefill);
    GainsAdd(b.lastRefill, r.lastRefill, now, b.rate);
    Earned(r.lastRefill, now, b.rate, b.rate);
    RefusedMeans(r, now);
  }

  lemma RefusedMeans(b: Bucket, now: real)
    requires b.Enabled() && !Grants(b, Trying(now))
    ensures b.burst < 1 || b.tokens + Gain(b.lastRefill, now, b.rate) < 1.0
  {
  }

  // ---- What can go wrong while waiting ----

  /** A limiter as it is created. */
  function Created(rate: real, burst: int, now: real): Bucket {
    Bucket(rate, burst, if rate > 0.0 then burst as real else 0.0, now)
  }

  /** While limiting is off the bucket is empty. */
  lemma {:induction false} OffIsEmpty(b: Bucket, events: seq<Event>)
    requires !b.Enabled() ==> b.tokens == 0.0
    ensures !Run(b, events).Enabled() ==> Run(b, events).tokens == 0.0
    decreases events
  {
    if events != [] {
      OffIsEmpty(Step(b, events[0]), events[1..]);
    }
  }

  /**
    * In every run of a limiter, whatever the rates, a caller that is already waiting divides by zero
    * exactly if the last configuration before its turn has rate zero.
    */
  lemma TurnDividesByZero(rate: real, burst: int, start: real, events: seq<Event>, now: real)
    ensures AcquireTurn(Run(Created(rate, burst, start), events), now).1.DividesByZero?
       <==> LastRate(rate, events) == 0.0
  {
    OffIsEmpty(Created(rate, burst, start), events);
    RunRate(Created(rate, burst, start), events);
  }

  /** The rate last configured. */
  function LastRate(rate: real, events: seq<Event>): real {
    if events == [] then rate
    else
      var e := events[|events| - 1];
      if e.Reconfiguring? then e.rate else LastRate(rate, events[..|events| - 1])
  }

  lemma {:induction false} LastRateNext(rate: real, events: seq<Event>)
    requires events != []
    ensures LastRate(rate, events)
         == LastRate(if events[0].Reconfiguring? then events[0].rate else rate, events[1..])
    decreases |events|
  {
    var n := |events| - 1;
    if !events[n].Reconfiguring? && n > 0 {
      assert events[1..][..n - 1] == events[..n][1..];
      LastRateNext(rate, events[..n]);
    }
  }

  lemma {:induction false} RunRate(b: Bucket, events: seq<Event>)
    ensures Run(b, events).rate == LastRate(b.rate, events)
    decreases events
  {
    if events != [] {
      LastRateNext(b.rate, events);
      RunRate(Step(b, events[0]), events[1..]);
    }
  }

  /** A run that ends in the division: the bucket is empty for the second caller, and then switched off. */
  lemma SwitchedOffWhileWaiting()
    ensures var b := Bucket(1.0, 1, 1.0, 0.0);
            var waiting := Run(b, [Waiting(0.0), Waiting(0.0)]);
            var off := Run(b, [Waiting(0.0), Waiting(0.0), Reconfiguring(0.5, 0.0, 0)]);
            && AcquireTurn(b, 0.0).1.Granted? && AcquireTurn(Step(b, Waiting(0.0)), 0.0).1 == Empty(1.0)
            && AcquireTurn(waiting, 1.0).1.Granted? && AcquireTurn(off, 1.0).1.DividesByZero?
  {
    var b := Bucket(1.0, 1, 1.0, 0.0);
    var two, three := [Waiting(0.0), Waiting(0.0)], [Waiting(0.0), Waiting(0.0), Reconfiguring(0.5, 0.0, 0)];
    var waiting := Bucket(1.0, 1, 0.0, 0.0);
    assert Step(b, two[0]) == waiting && Step(waiting, two[1]) == waiting;
    assert two[1..] == [Waiting(0.0)] && two[1..][1..] == [];
    assert three[1..] == [Waiting(0.0), Reconfiguring(0.5, 0.0, 0)];
    assert three[1..][1..] == [Reconfiguring(0.5, 0.0, 0)] && three[1..][1..][1..] == [];
    assert Run(waiting, [Waiting(0.0)]) == Run(waiting, []);
    assert Run(waiting, [Reconfiguring(0.5, 0.0, 0)]) == Run(Reconfigure(waiting, 0.0, 0), []);
  }

  /** The limiter that a caller waits on, and whether it is still the orchestrator's. */
  datatype Held = Held(waitedOn: Bucket, current: bool)

  /** What can happen meanwhile: the orchestrator is asked for other rates, or others use the limiter. */
  datatype Meanwhile = Switched(rate: real, burst: int) | Used(event: Event)

  /** For rate zero the orchestrator puts a new limiter in place; otherwise it reconfigures its own. */
  function Pass(h: Held, m: Meanwhile): Held {
    match m
    case Switched(rate, burst) =>
      if !h.current then h
      else if rate == 0.0 then h.(current := false)
      else h.(waitedOn := Reconfigure(h.waitedOn, rate, burst))
    case Used(e) => h.(waitedOn := Step(h.waitedOn, e))
  }

  /** The orchestrator's own limiter takes over new limits other than rate zero, and only then. */
  lemma PassMeans(h: Held, rate: real, burst: int)
    ensures var r := Pass(h, Switched(rate, burst));
            if !h.current then r == h
            else if rate == 0.0 then r == Held(h.waitedOn, false)
            else r.current && r.waitedOn.rate == rate && r.waitedOn.burst == burst
  {
  }

  function PassAll(h: Held, events: seq<Meanwhile>): Held
    decreases events
  {
    if events == [] then h else PassAll(Pass(h, events[0]), events[1..])
  }

  /**
    * So as long as the limiter is reconfigured through the orchestrator only, whatever rates it is asked
    * for and in whatever order, a caller waiting on a limiter that was on never divides by zero.
    */
  lemma {:induction false} OrchestratorNeverDivides(h: Held, events: seq<Meanwhile>, now: real)
    requires h.waitedOn.rate != 0.0 && forall m | m in events && m.Used? :: !m.event.Reconfiguring?
    ensures PassAll(h, events).waitedOn.rate != 0.0
    ensures !AcquireTurn(PassAll(h, events).waitedOn, now).1.DividesByZero?
    decreases events
  {
    if events != [] {
      assert events[0] in events && forall m | m in events[1..] :: m in events;
      OrchestratorNeverDivides(Pass(h, events[0]), events[1..], now);
    }
  }

  /** With a capacity below one token nothing is ever granted until a reconfiguration. */
  lemma {:induction false} TooSmallToGrant(b: Bucket, events: seq<Event>)
    requires b.Enabled() && b.burst < 1 && forall e | e in events :: !e.Reconfiguring?
    ensures GrantCount(b, events) == 0
    decreases events
  {
    if events != [] {
      assert events[0] in events && forall x | x in events[1..] :: x in events;
      TooSmallToGrant(Step(b, events[0]), events[1..]);
    }
  }

  // ---- The limiter ----

  class TokenBucketRateLimiter {
    var rate: real
    var burst: int
    var tokens: real
    var lastRefill: real

    function Snapshot(): Bucket
      reads this
    {
      Bucket(rate, burst, tokens, lastRefill)
    }

    constructor (rate: real, burst: int, now: real)
      ensures Snapshot() == Created(rate, burst, now)
      ensures tokens == if rate > 0.0 then burst as real else 0.0
      ensures rate >= 0.0 && burst >= 0 ==> Snapshot().Sane()
    {
      this.rate, this.burst, lastRefill := rate, burst, now;
      tokens := if rate > 0.0 then burst as real else 0.0;
    }

    method DoRefill(now: real)
      modifies `tokens, `lastRefill
      ensures Snapshot() == Refill(old(Snapshot()), now)
    {
      if rate <= 0.0 {
        return;
      }
      var elapsed := now - lastRefill;
      tokens := Min(burst as real, tokens + elapsed * rate);
      lastRefill := now;
    }

    method Try(now: real) returns (ok: bool)
      modifies `tokens, `lastRefill
      ensures Snapshot() == Step(old(Snapshot()), Trying(now)) && ok == Grants(old(Snapshot()), Trying(now))
    {
      if rate <= 0.0 {
        return true;
      }
      DoRefill(now);
      if tokens >= 1.0 {
        tokens := tokens - 1.0;
        return true;
      }
      ok := false;
    }

    method Configure(newRate: real, newBurst: int)
      modifies `rate, `burst, `tokens
      ensures Snapshot() == Reconfigure(old(Snapshot()), newRate, newBurst)
    {
      rate, burst := newRate, newBurst;
      if rate > 0.0 {
        tokens := Min(tokens, burst as real);
      } else {
        tokens := 0.0;
      }
    }

    /**
      * Waits for a token while nobody else uses the limiter; sleeping moves the clock. The caller
      * gets the token after exactly the time the bucket needs to fill up to one, and is turned away
      * at once exactly if that is not strictly less than its timeout.
      */
    method Acquire(now: real, timeout: Option<real>) returns (granted: bool, at: real)
      requires Snapshot().Sane() && lastRefill <= now && (rate > 0.0 ==> burst >= 1)
      modifies `tokens, `lastRefill
      ensures Snapshot().Sane()
      ensures rate == 0.0 ==> granted && at == now && Snapshot() == old(Snapshot())
      ensures rate > 0.0 ==>
                var available := Refill(old(Snapshot()), now).tokens;
                var wait := if available >= 1.0 then 0.0 else (1.0 - available) / rate;
                && (granted <==> available >= 1.0 || timeout.None? || wait < timeout.value)
                && at == (if granted then now + wait else now)
                && (granted ==> tokens == (if available >= 1.0 then available - 1.0 else 0.0))
    {
      at := now;
      if rate <= 0.0 {
        return true, at;
      }
      ghost var b := Snapshot();
      StepSane(b, Status(now));
      DoRefill(now);
      ghost var available := tokens;
      if tokens >= 1.0 {
        tokens := tokens - 1.0;
        return true, at;
      }
      var wait := (1.0 - tokens) / rate;
      if timeout.Some? && timeout.value <= wait {
        return false, at;
      }
      at := now + wait;
      FillsUp(Snapshot(), wait, at);
      DoRefill(at);
      tokens := tokens - 1.0;
      granted := true;
    }
  }

  /** After the computed wait the bucket holds exactly one token. */
  lemma FillsUp(b: Bucket, wait: real, at: real)
    requires b.Sane() && b.rate > 0.0 && b.burst >= 1 && b.tokens < 1.0
    requires wait == (1.0 - b.tokens) / b.rate && at == b.lastRefill + wait
    ensures Refill(b, at).tokens == 1.0
  {
    assert wait * b.rate == 1.0 - b.tokens;
    assert Gain(b.lastRefill, at, b.rate) == wait * b.rate;
  }
}
