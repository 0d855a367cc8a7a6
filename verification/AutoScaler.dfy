// The autoscaler: one poll after another, what it may add and when it may stop an agent.

module AutoScaler {
  import opened Tasks
  import opened Wrappers

  datatype Config = Config(min: int, max: int, threshold: int, cooldown: real)

  /** The agents this autoscaler created, and since when the queue has been seen empty. */
  datatype Scaler = Scaler(ids: set<Agent>, emptySince: Option<real>, lastScaleUp: Option<real>, lastScaleDown: Option<real>)

  const INITIAL := Scaler({}, None, None, None)

  /**
    * What one poll sees: queue depth and clock, the registered and the idle agents, the agent that
    * creation would yield (if it succeeds), and which idle agent of its own it would stop first.
    */
  datatype Poll = Poll(depth: nat, now: real, registered: set<Agent>, idle: set<Agent>, created: Option<Agent>, first: Agent)

  function Count(s: Scaler, registered: set<Agent>): nat {
    |s.ids * registered|
  }

  function AtLeast(bound: int, n: int): int {
    if n < bound then bound else n
  }

  /** At least one queued task per threshold unit, even when nobody is idle. */
  function EffectiveThreshold(cfg: Config, p: Poll): int {
    AtLeast(1, cfg.threshold * AtLeast(1, |p.idle|))
  }

  predicate Adds(cfg: Config, s: Scaler, p: Poll) {
    Count(s, p.registered) < cfg.max && p.depth > EffectiveThreshold(cfg, p) && p.created.Some?
  }

  function ScaleUp(cfg: Config, s: Scaler, p: Poll): Scaler {
    if Adds(cfg, s, p) then s.(ids := s.ids + {p.created.value}, lastScaleUp := Some(p.now)) else s
  }

  /** Who is registered once scaling up is done. */
  function Registered(cfg: Config, s: Scaler, p: Poll): set<Agent> {
    p.registered + if Adds(cfg, s, p) then {p.created.value} else {}
  }

  /** The idle agents of its own that it could stop. */
  function Candidates(s: Scaler, registered: set<Agent>, idle: set<Agent>): set<Agent> {
    s.ids * registered * idle
  }

  predicate Cooled(cfg: Config, s: Scaler, p: Poll) {
    p.depth == 0 && s.emptySince.Some? && p.now - s.emptySince.value >= cfg.cooldown
  }

  predicate StopsOne(cfg: Config, s: Scaler, p: Poll, registered: set<Agent>) {
    Count(s, registered) > cfg.min && Cooled(cfg, s, p) && p.first in Candidates(s, registered, p.idle)
  }

  /** The timer is looked at only while there are more agents than the minimum. */
  function ScaleDown(cfg: Config, s: Scaler, p: Poll, registered: set<Agent>): Scaler {
    if Count(s, registered) <= cfg.min then s
    else if p.depth > 0 then s.(emptySince := None)
    else if s.emptySince.None? then s.(emptySince := Some(p.now))
    else if StopsOne(cfg, s, p, registered) then
      s.(ids := s.ids - {p.first}, lastScaleDown := Some(p.now), emptySince := None)
    else s
  }

  function Step(cfg: Config, s: Scaler, p: Poll): Scaler {
    ScaleDown(cfg, ScaleUp(cfg, s, p), p, Registered(cfg, s, p))
  }

  /** The poll stops an agent. */
  predicate Stops(cfg: Config, s: Scaler, p: Poll) {
    StopsOne(cfg, ScaleUp(cfg, s, p), p, Registered(cfg, s, p))
  }

  function Run(cfg: Config, polls: seq<Poll>): Scaler {
    if polls == [] then INITIAL else Step(cfg, Run(cfg, polls[..|polls| - 1]), polls[|polls| - 1])
  }

  /** The agents the autoscaler itself leaves registered after the run. */
  function Left(cfg: Config, polls: seq<Poll>): set<Agent> {
    if polls == [] then {}
    else
      var s, p := Run(cfg, polls[..|polls| - 1]), polls[|polls| - 1];
      Registered(cfg, s, p) - if Stops(cfg, s, p) then {p.first} else {}
  }

  /** Between polls the clock moves on and others may remove the autoscaler's agents but not revive them. */
  ghost predicate Follows(cfg: Config, before: seq<Poll>, p: Poll) {
    && (before != [] ==> before[|before| - 1].now <= p.now)
    && Run(cfg, before).ids * p.registered <= Left(cfg, before)
  }

  ghost predicate Realistic(cfg: Config, polls: seq<Poll>)
    decreases |polls|
  {
    polls == [] ||
    (Realistic(cfg, polls[..|polls| - 1]) && Follows(cfg, polls[..|polls| - 1], polls[|polls| - 1]))
  }

  // ---- One poll ----

  /** Fewer than the maximum run, and more than one task and than the threshold for each idle agent are queued. */
  ghost predicate NeedsMore(cfg: Config, s: Scaler, p: Poll) {
    && |s.ids * p.registered| < cfg.max && p.depth > 1
    && p.depth > (if p.idle == {} then cfg.threshold else cfg.threshold * |p.idle|)
  }

  /**
    * One poll. An agent is added exactly if more are needed and creating it succeeds. Above the minimum,
    * a non-empty queue stops the timer, an empty one starts it, and after the cooldown one idle agent of
    * its own is stopped and the timer with it. At or below the minimum the timer is left alone.
    */
  lemma PollMeans(cfg: Config, s: Scaler, p: Poll)
    ensures var adds := NeedsMore(cfg, s, p) && p.created.Some?;
            var ids, registered := if adds then s.ids + {p.created.value} else s.ids,
                                   if adds then p.registered + {p.created.value} else p.registered;
            var above := |ids * registered| > cfg.min;
            var stops := above && p.depth == 0 && s.emptySince.Some? && p.now - s.emptySince.value >= cfg.cooldown
                         && p.first in ids && p.first in registered && p.first in p.idle;
            Step(cfg, s, p)
            == Scaler(if stops then ids - {p.first} else ids,
                      if !above then s.emptySince
                      else if p.depth > 0 || stops then None
                      else if s.emptySince.None? then Some(p.now) else s.emptySince,
                      if adds then Some(p.now) else s.lastScaleUp, if stops then Some(p.now) else s.lastScaleDown)
  {
    AddsExactly(cfg, s, p);
  }

  lemma AddsExactly(cfg: Config, s: Scaler, p: Poll)
    ensures Adds(cfg, s, p) <==> NeedsMore(cfg, s, p) && p.created.Some?
  {
    if p.idle != {} {
      assert AtLeast(1, |p.idle|) == |p.idle|;
    }
  }

  // ---- Counts ----

  lemma {:induction false} Smaller(a: set<Agent>, b: set<Agent>)
    requires a <= b
    ensures |a| <= |b|
  {
    if a != {} {
      var x :| x in a;
      Smaller(a - {x}, b - {x});
    }
  }

  lemma UpWithinMax(cfg: Config, s: Scaler, p: Poll)
    requires Count(s, p.registered) <= cfg.max
    ensures Count(ScaleUp(cfg, s, p), Registered(cfg, s, p)) <= cfg.max
    ensures Count(s, p.registered) <= Count(ScaleUp(cfg, s, p), Registered(cfg, s, p))
  {
    var up, registered := ScaleUp(cfg, s, p), Registered(cfg, s, p);
    Smaller(s.ids * p.registered, up.ids * registered);
    if Adds(cfg, s, p) {
      var a := p.created.value;
      if a in s.ids || a in p.registered {
        Smaller(up.ids * registered, s.ids * p.registered + {a});
      } else {
        assert up.ids * registered == s.ids * p.registered + {a};
      }
    }
  }

  lemma DownToMin(cfg: Config, s: Scaler, p: Poll, registered: set<Agent>)
    ensures var r := ScaleDown(cfg, s, p, registered);
            if StopsOne(cfg, s, p, registered) then Count(r, registered) == Count(s, registered) - 1 >= cfg.min
            else r.ids == s.ids
  {
    if StopsOne(cfg, s, p, registered) {
      assert (s.ids - {p.first}) * registered == s.ids * registered - {p.first};
    }
  }

  /** After every poll at most `max` agents are tracked, and a stop never goes below `min`. */
  lemma {:induction false} CountBounds(cfg: Config, polls: seq<Poll>)
    requires Realistic(cfg, polls) && cfg.max >= 0
    ensures Count(Run(cfg, polls), Left(cfg, polls)) <= cfg.max
    ensures polls != [] ==>
              var s, p := Run(cfg, polls[..|polls| - 1]), polls[|polls| - 1];
              && Count(s, p.registered) <= cfg.max
              && (Stops(cfg, s, p) ==> Count(Run(cfg, polls), Left(cfg, polls)) >= cfg.min)
    decreases |polls|
  {
    if polls == [] {
      assert INITIAL.ids * {} == {};
    } else {
      var before, p := polls[..|polls| - 1], polls[|polls| - 1];
      var s := Run(cfg, before);
      CountBounds(cfg, before);
      Smaller(s.ids * p.registered, s.ids * Left(cfg, before));
      UpWithinMax(cfg, s, p);
      var up, registered := ScaleUp(cfg, s, p), Registered(cfg, s, p);
      DownToMin(cfg, up, p, registered);
      var r := Run(cfg, polls);
      assert r.ids * Left(cfg, polls) == r.ids * registered;
    }
  }

  // ---- Cooldown ----

  /** A poll at time `since` and every poll after it have seen an empty queue. */
  ghost predicate EmptySince(polls: seq<Poll>, since: real) {
    exists i :: 0 <= i < |polls| && polls[i].now == since && EmptyFrom(polls, i)
  }

  ghost predicate EmptyFrom(polls: seq<Poll>, i: nat) {
    forall j | i <= j < |polls| :: polls[j].depth == 0
  }

  /** The timer can be trusted whenever there are more agents than the minimum. */
  ghost predicate Trusted(cfg: Config, polls: seq<Poll>) {
    var s := Run(cfg, polls);
    s.emptySince.Some? && Count(s, Left(cfg, polls)) > cfg.min ==> EmptySince(polls, s.emptySince.value)
  }

  /** How one poll can move the timer and the time of the last stop. */
  lemma StepTimer(cfg: Config, s: Scaler, p: Poll)
    ensures var r := Step(cfg, s, p);
            && (r.emptySince.Some? ==> r.emptySince == s.emptySince || r.emptySince == Some(p.now))
            && (r.lastScaleDown == s.lastScaleDown || (r.lastScaleDown == Some(p.now) && r.emptySince.None?))
  {
  }

  /** The timer is never in the future, and not before the last stop. */
  lemma {:induction false} TimerInPast(cfg: Config, polls: seq<Poll>)
    requires Realistic(cfg, polls)
    ensures var s := Run(cfg, polls);
            && (s.emptySince.Some? ==> polls != [] && s.emptySince.value <= polls[|polls| - 1].now)
            && (s.lastScaleDown.Some? ==> polls != [] && s.lastScaleDown.value <= polls[|polls| - 1].now)
            && (s.emptySince.Some? && s.lastScaleDown.Some? ==> s.lastScaleDown.value <= s.emptySince.value)
    decreases |polls|
  {
    if polls != [] {
      var before, p := polls[..|polls| - 1], polls[|polls| - 1];
      TimerInPast(cfg, before);
      StepTimer(cfg, Run(cfg, before), p);
    }
  }

  lemma StillEmpty(polls: seq<Poll>, p: Poll, since: real)
    requires EmptySince(polls, since) && p.depth == 0
    ensures EmptySince(polls + [p], since)
  {
    var i :| 0 <= i < |polls| && polls[i].now == since && EmptyFrom(polls, i);
    assert (polls + [p])[i].now == since && EmptyFrom(polls + [p], i);
  }

  /**
    * The non-obvious part: while the count is at or below the minimum the timer is not reset, but
    * the count can only rise above it in a poll that sees a non-empty queue and resets the timer.
    */
  lemma {:induction false} TimerIsTrusted(cfg: Config, polls: seq<Poll>)
    requires Realistic(cfg, polls)
    ensures Trusted(cfg, polls)
    decreases |polls|
  {
    if polls != [] {
      var before, p := polls[..|polls| - 1], polls[|polls| - 1];
      assert polls == before + [p];
      TimerIsTrusted(cfg, before);
      TrustKept(cfg, before, p);
    }
  }

  lemma JustEmptied(before: seq<Poll>, p: Poll)
    requires p.depth == 0
    ensures EmptySince(before + [p], p.now)
  {
    var polls := before + [p];
    assert polls[|before|] == p && EmptyFrom(polls, |before|);
  }

  /** An agent that is stopped is no longer tracked, so it does not matter whether it stays registered. */
  lemma LeftIsRegistered(cfg: Config, s: Scaler, p: Poll)
    ensures var r := Step(cfg, s, p);
            r.ids * (Registered(cfg, s, p) - if Stops(cfg, s, p) then {p.first} else {}) == r.ids * Registered(cfg, s, p)
  {
    DownToMin(cfg, ScaleUp(cfg, s, p), p, Registered(cfg, s, p));
  }

  lemma TrustKept(cfg: Config, before: seq<Poll>, p: Poll)
    requires Realistic(cfg, before) && Follows(cfg, before, p) && Trusted(cfg, before)
    ensures Trusted(cfg, before + [p])
  {
    var polls := before + [p];
    assert polls[..|polls| - 1] == before && polls[|polls| - 1] == p;
    var s := Run(cfg, before);
    var up, registered := ScaleUp(cfg, s, p), Registered(cfg, s, p);
    var r := Run(cfg, polls);
    LeftIsRegistered(cfg, s, p);
    if r.emptySince.Some? && Count(r, Left(cfg, polls)) > cfg.min {
      ResetAboveMin(cfg, s, p);
      if s.emptySince.None? {
        JustEmptied(before, p);
      } else {
        Smaller(s.ids * p.registered, s.ids * Left(cfg, before));
        StillEmpty(before, p, s.emptySince.value);
      }
    }
  }

  /** A poll that leaves the timer running above the minimum saw an empty queue and added nobody. */
  lemma ResetAboveMin(cfg: Config, s: Scaler, p: Poll)
    requires Step(cfg, s, p).emptySince.Some? && Count(Step(cfg, s, p), Registered(cfg, s, p)) > cfg.min
    ensures p.depth == 0 && ScaleUp(cfg, s, p) == s && Registered(cfg, s, p) == p.registered
    ensures Count(s, p.registered) > cfg.min
    ensures Step(cfg, s, p).emptySince == if s.emptySince.None? then Some(p.now) else s.emptySince
  {
    DownToMin(cfg, ScaleUp(cfg, s, p), p, Registered(cfg, s, p));
  }

  /**
    * Every stop comes after at least `cooldown` seconds in which every poll saw an empty queue, and
    * at least `cooldown` seconds after the previous stop.
    */
  lemma StopsAfterCooldown(cfg: Config, before: seq<Poll>, p: Poll)
    requires Realistic(cfg, before + [p])
    requires Stops(cfg, Run(cfg, before), p)
    ensures var s := Run(cfg, before);
            && s.emptySince.Some? && p.now - s.emptySince.value >= cfg.cooldown
            && EmptySince(before, s.emptySince.value) && p.depth == 0
            && (s.lastScaleDown.Some? ==> p.now - s.lastScaleDown.value >= cfg.cooldown)
  {
    var polls := before + [p];
    assert polls[..|polls| - 1] == before && polls[|polls| - 1] == p;
    var s := Run(cfg, before);
    assert ScaleUp(cfg, s, p) == s && Registered(cfg, s, p) == p.registered;
    TimerIsTrusted(cfg, before);
    TimerInPast(cfg, before);
    Smaller(s.ids * p.registered, s.ids * Left(cfg, before));
  }

  // ---- The autoscaler ----

  class AutoScaler {
    var config: Config
    var autoscaledIds: set<Agent>
    var queueEmptySince: Option<real>
    var lastScaleUp: Option<real>
    var lastScaleDown: Option<real>

    ghost function Snapshot(): Scaler
      reads this
    {
      Scaler(autoscaledIds, queueEmptySince, lastScaleUp, lastScaleDown)
    }

    constructor (config: Config)
      ensures Snapshot() == INITIAL && this.config == config
    {
      this.config := config;
      autoscaledIds, queueEmptySince, lastScaleUp, lastScaleDown := {}, None, None, None;
    }

    method MaybeScaleUp(p: Poll) returns (registered: set<Agent>)
      modifies `autoscaledIds, `lastScaleUp
      ensures Snapshot() == ScaleUp(config, old(Snapshot()), p)
      ensures registered == Registered(config, old(Snapshot()), p)
    {
      registered := p.registered;
      if |autoscaledIds * registered| >= config.max {
        return;
      }
      var effective := AtLeast(1, config.threshold * AtLeast(1, |p.idle|));
      if p.depth <= effective {
        return;
      }
      if p.created.Some? {
        autoscaledIds := autoscaledIds + {p.created.value};
        registered := registered + {p.created.value};
        lastScaleUp := Some(p.now);
      }
    }

    method MaybeScaleDown(p: Poll, registered: set<Agent>) returns (stopped: Option<Agent>)
      modifies `autoscaledIds, `queueEmptySince, `lastScaleDown
      ensures stopped.Some? ==> stopped.value in Candidates(old(Snapshot()), registered, p.idle)
      ensures var q := if stopped.Some? then p.(first := stopped.value) else p;
              && Snapshot() == ScaleDown(config, old(Snapshot()), q, registered)
              && (stopped.Some? <==> StopsOne(config, old(Snapshot()), q, registered))
    {
      stopped := None;
      if |autoscaledIds * registered| <= config.min {
        return;
      }
      if p.depth > 0 {
        queueEmptySince := None;
        return;
      }
      if queueEmptySince.None? {
        queueEmptySince := Some(p.now);
        return;
      }
      if p.now - queueEmptySince.value < config.cooldown {
        return;
      }
      var idle := autoscaledIds * registered * p.idle;
      if idle == {} {
        return;
      }
      var toStop :| toStop in idle;
      autoscaledIds := autoscaledIds - {toStop};
      lastScaleDown := Some(p.now);
      queueEmptySince := None;
      stopped := Some(toStop);
    }

    /** One turn of the scale loop is one poll of the model, for some order among the idle agents. */
    method ScaleOnce(p: Poll) returns (stopped: Option<Agent>)
      modifies this
      ensures config == old(config)
      ensures var q := if stopped.Some? then p.(first := stopped.value) else p;
              && Snapshot() == Step(config, old(Snapshot()), q)
              && (stopped.Some? <==> Stops(config, old(Snapshot()), q))
    {
      var registered := MaybeScaleUp(p);
      stopped := MaybeScaleDown(p, registered);
    }
  }
}
