/**
 The circuit breaker: one status per provider, updated in place under a lock.  The class methods are
 proved against `Apply`; the main result is about every run of calls with non-decreasing time.
 */
module CircuitBreakers {
  import opened Checkpoints

  datatype CircuitState = Closed | Open | HalfOpen

  datatype Status = Status(state: CircuitState, errorRate: real, lastStateChange: real, trialSuccesses: nat)

  type Statuses = map<string, Status>

  const COOLDOWN_SECONDS := 60.0
  const TRIAL_SUCCESS_THRESHOLD := 3

  /** A call at a time; a check also sees the provider's current error rate. */
  datatype Call =
    | Check(provider: string, now: real, rate: real)
    | Success(provider: string, now: real)
    | Failure(provider: string, now: real)

  /** The state transition of a check. */
  function Checked(threshold: real, s: Status, now: real, rate: real): Status {
    var t := s.(errorRate := rate);
    match t.state
    case Closed => if rate >= threshold then t.(state := Open, lastStateChange := now) else t
    case Open => if now - t.lastStateChange > COOLDOWN_SECONDS then t.(state := HalfOpen, lastStateChange := now) else t
    case HalfOpen =>
      if t.trialSuccesses >= TRIAL_SUCCESS_THRESHOLD
      then t.(state := Closed, trialSuccesses := 0, lastStateChange := now) else t
  }

  function Apply(threshold: real, m: Statuses, c: Call): Statuses {
    match c
    case Check(p, now, rate) =>
      m[p := Checked(threshold, if p in m then m[p] else Status(Closed, 0.0, now, 0), now, rate)]
    case Success(p, now) =>
      if p in m && m[p].state.HalfOpen? then m[p := m[p].(trialSuccesses := m[p].trialSuccesses + 1)] else m
    case Failure(p, now) =>
      if p !in m then m
      else if m[p].state.HalfOpen? then m[p := m[p].(trialSuccesses := 0, state := Open, lastStateChange := now)]
      else m[p := m[p].(trialSuccesses := 0)]
  }

  class CircuitBreaker {
    var states: Statuses
    const errorThreshold: real

    constructor (errorThreshold: real)
      ensures states == map[] && this.errorThreshold == errorThreshold
    {
      states, this.errorThreshold := map[], errorThreshold;
    }

    /** `check`; `rate` is what the gauge shows, 0 when it cannot be read. */
    method CheckProvider(provider: string, now: real, rate: real) returns (status: Status)
      modifies this
      ensures states == Apply(errorThreshold, old(states), Check(provider, now, rate))
      ensures provider in states && status == states[provider] && status.errorRate == rate
      ensures forall p :: p != provider ==> (p in states <==> p in old(states)) && (p in states ==> states[p] == old(states)[p])
    {
      if provider in states {
        status := states[provider];
      } else {
        status := Status(Closed, 0.0, now, 0);
      }
      status := status.(errorRate := rate);
      if status.state.Closed? {
        if rate >= errorThreshold {
          status := status.(state := Open, lastStateChange := now);
        }
      } else if status.state.Open? {
        if now - status.lastStateChange > COOLDOWN_SECONDS {
          status := status.(state := HalfOpen, lastStateChange := now);
        }
      } else if status.trialSuccesses >= TRIAL_SUCCESS_THRESHOLD {
        status := status.(state := Closed, trialSuccesses := 0, lastStateChange := now);
      }
      states := states[provider := status];
    }

    method RecordSuccess(provider: string, now: real)
      modifies this
      ensures states == Apply(errorThreshold, old(states), Success(provider, now))
    {
      if provider in states && states[provider].state.HalfOpen? {
        var status := states[provider];
        states := states[provider := status.(trialSuccesses := status.trialSuccesses + 1)];
      }
    }

    method RecordFailure(provider: string, now: real)
      modifies this
      ensures states == Apply(errorThreshold, old(states), Failure(provider, now))
    {
      if provider in states {
        var status := states[provider].(trialSuccesses := 0);
        if status.state.HalfOpen? {
          status := status.(state := Open, lastStateChange := now);
        }
        states := states[provider := status];
      }
    }
  }

  // ---------------------------------------------------------------- runs

  ghost predicate IsRun(threshold: real, run: seq<Statuses>, calls: seq<Call>) {
    && |run| == |calls| + 1 && run[0] == map[]
    && (forall i :: 0 <= i < |calls| ==> run[i + 1] == Apply(threshold, run[i], calls[i]))
    && (forall i, j :: 0 <= i < j < |calls| ==> calls[i].now <= calls[j].now)
  }

  ghost predicate In(m: Statuses, p: string, s: CircuitState) {
    p in m && m[p].state == s
  }

  /** The breaker of `p` opened in call `o` and has been open from then to state `n`. */
  ghost predicate OpenSince(run: seq<Statuses>, calls: seq<Call>, p: string, o: int, n: int) {
    && 0 <= o < n <= |calls| < |run|
    && !In(run[o], p, Open) && (forall m :: o < m <= n ==> In(run[m], p, Open))
    && run[n][p].lastStateChange == calls[o].now
  }

  /** How many successes of `p` calls `from` to `to - 1` report. */
  ghost function Successes(calls: seq<Call>, p: string, from: nat, to: nat): nat
    requires to <= |calls|
  {
    if to <= from then 0
    else Successes(calls, p, from, to - 1) + if calls[to - 1].Success? && calls[to - 1].provider == p then 1 else 0
  }

  /** It opened in call `o`, went half-open in call `h` after the cooldown, and has been on trial up to state `n`. */
  ghost predicate OnTrial(run: seq<Statuses>, calls: seq<Call>, p: string, o: int, h: int, n: int) {
    && OpenSince(run, calls, p, o, h) && h < n <= |calls| < |run|
    && calls[h].now - calls[o].now > 60.0
    && (forall m :: h < m <= n ==> In(run[m], p, HalfOpen))
    && (forall m :: h < m < n ==> !(calls[m].Failure? && calls[m].provider == p))
    && run[n][p].trialSuccesses == Successes(calls, p, h + 1, n)
  }

  /** What holds of one provider in every state of a run. */
  ghost predicate ProviderInv(run: seq<Statuses>, calls: seq<Call>, p: string, n: nat)
    requires n < |run|
  {
    && (p in run[n] && !run[n][p].state.HalfOpen? ==> run[n][p].trialSuccesses == 0)
    && (In(run[n], p, Open) ==> exists o :: OpenSince(run, calls, p, o, n))
    && (In(run[n], p, HalfOpen) ==> exists o, h :: OnTrial(run, calls, p, o, h, n))
  }

  lemma {:induction false} RunKeepsInv(threshold: real, run: seq<Statuses>, calls: seq<Call>, p: string, n: nat)
    requires IsRun(threshold, run, calls) && n < |run|
    ensures ProviderInv(run, calls, p, n)
    decreases n
  {
    if n > 0 {
      RunKeepsInv(threshold, run, calls, p, n - 1);
      StepKeepsInv(threshold, run, calls, p, n);
    }
  }

  lemma StepKeepsInv(threshold: real, run: seq<Statuses>, calls: seq<Call>, p: string, n: nat)
    requires IsRun(threshold, run, calls) && 0 < n < |run| && ProviderInv(run, calls, p, n - 1)
    ensures ProviderInv(run, calls, p, n)
  {
    var was, c := run[n - 1], calls[n - 1];
    assert run[n - 1 + 1] == Apply(threshold, was, c);
    if In(was, p, Open) {
      var o :| OpenSince(run, calls, p, o, n - 1);
      if In(run[n], p, Open) {
        assert OpenSince(run, calls, p, o, n);
      } else {
        assert OnTrial(run, calls, p, o, n - 1, n);
      }
    } else if In(was, p, HalfOpen) {
      var o, h :| OnTrial(run, calls, p, o, h, n - 1);
      if In(run[n], p, HalfOpen) {
        assert OnTrial(run, calls, p, o, h, n);
      } else if In(run[n], p, Open) {
        assert OpenSince(run, calls, p, n - 1, n);
      }
    } else if In(run[n], p, Open) {
      assert OpenSince(run, calls, p, n - 1, n);
    }
  }

  /** A provider that is not in the table counts as closed. */
  ghost predicate IsClosed(m: Statuses, p: string) {
    p in m ==> m[p].state.Closed?
  }

  /** Call `k` is a check of the provider. */
  predicate Checks(calls: seq<Call>, p: string, k: int) {
    0 <= k < |calls| && calls[k].Check? && calls[k].provider == p
  }

  /** A closed breaker opens exactly at a check that finds the error rate at or above the threshold, and else stays closed. */
  lemma OpensIff(threshold: real, run: seq<Statuses>, calls: seq<Call>, p: string, k: nat)
    requires IsRun(threshold, run, calls) && k < |calls| && IsClosed(run[k], p)
    ensures In(run[k + 1], p, Open) <==> Checks(calls, p, k) && calls[k].rate >= threshold
    ensures In(run[k + 1], p, Open) || IsClosed(run[k + 1], p)
    ensures p in run[k + 1] <==> p in run[k] || Checks(calls, p, k)
  {
  }

  /** An open one goes half-open exactly at a check more than 60 seconds after the call that opened it, and else stays open. */
  lemma GoesHalfOpenIff(threshold: real, run: seq<Statuses>, calls: seq<Call>, p: string, k: nat) returns (o: int)
    requires IsRun(threshold, run, calls) && k < |calls| && In(run[k], p, Open)
    ensures OpenSince(run, calls, p, o, k)
    ensures In(run[k + 1], p, HalfOpen) <==> Checks(calls, p, k) && calls[k].now - calls[o].now > 60.0
    ensures In(run[k + 1], p, HalfOpen) || In(run[k + 1], p, Open)
  {
    RunKeepsInv(threshold, run, calls, p, k);
    o :| OpenSince(run, calls, p, o, k);
  }

  /**
   A half-open one closes exactly at a check with at least 3 successes reported since it went half-open in call
   `h`, opens again exactly at a failure, and else stays half-open.
   */
  lemma TrialEndsIff(threshold: real, run: seq<Statuses>, calls: seq<Call>, p: string, k: nat) returns (o: int, h: int)
    requires IsRun(threshold, run, calls) && k < |calls| && In(run[k], p, HalfOpen)
    ensures OnTrial(run, calls, p, o, h, k)
    ensures In(run[k + 1], p, Closed) <==> Checks(calls, p, k) && Successes(calls, p, h + 1, k) >= 3
    ensures In(run[k + 1], p, Open) <==> calls[k].Failure? && calls[k].provider == p
    ensures In(run[k + 1], p, Closed) || In(run[k + 1], p, Open) || In(run[k + 1], p, HalfOpen)
  {
    RunKeepsInv(threshold, run, calls, p, k);
    o, h :| OnTrial(run, calls, p, o, h, k);
  }

  /** The trial counter is zero whenever the provider is not half-open. */
  lemma CounterIsZeroOutsideTrial(threshold: real, run: seq<Statuses>, calls: seq<Call>, p: string, n: nat)
    requires IsRun(threshold, run, calls) && n < |run| && p in run[n] && !run[n][p].state.HalfOpen?
    ensures run[n][p].trialSuccesses == 0
  {
    RunKeepsInv(threshold, run, calls, p, n);
  }

  /**
   Call `k` closes the breaker: it opened in `o`, went half-open in `h` more than 60 s later, and since
   then at least three successes and no failure were reported.
   */
  ghost predicate ClosesAfterTrial(run: seq<Statuses>, calls: seq<Call>, p: string, o: int, h: int, k: int) {
    && OnTrial(run, calls, p, o, h, k) && k < |calls|
    && calls[k].Check? && calls[k].provider == p && calls[k].now - calls[o].now > 60.0
    && Successes(calls, p, h + 1, k) >= 3
    && In(run[k + 1], p, Closed)
  }

  /** A provider that was open and is closed later went through a whole trial in between. */
  lemma {:induction false} ClosedAgainAfterTrial(
    threshold: real, run: seq<Statuses>, calls: seq<Call>, p: string, i: nat, j: nat)
    requires IsRun(threshold, run, calls) && i < j < |run| && In(run[i], p, Open) && In(run[j], p, Closed)
    ensures exists o, h, k :: i <= k < j && ClosesAfterTrial(run, calls, p, o, h, k)
    decreases j
  {
    var c := calls[j - 1];
    assert run[j - 1 + 1] == Apply(threshold, run[j - 1], c);
    RunKeepsInv(threshold, run, calls, p, j - 1);
    if In(run[j - 1], p, Closed) {
      ClosedAgainAfterTrial(threshold, run, calls, p, i, j - 1);
    } else {
      StaysKnown(threshold, run, calls, p, i, j - 1);
      var o, h :| OnTrial(run, calls, p, o, h, j - 1);
      assert ClosesAfterTrial(run, calls, p, o, h, j - 1);
    }
  }

  lemma {:induction false} StaysKnown(threshold: real, run: seq<Statuses>, calls: seq<Call>, p: string, i: nat, j: nat)
    requires IsRun(threshold, run, calls) && i <= j < |run| && p in run[i]
    ensures p in run[j]
    decreases j
  {
    if i < j {
      StaysKnown(threshold, run, calls, p, i, j - 1);
      assert run[j - 1 + 1] == Apply(threshold, run[j - 1], calls[j - 1]);
    }
  }

  /** The calls of one provider. */
  function Only(calls: seq<Call>, p: string): seq<Call> {
    if |calls| == 0 then []
    else if calls[|calls| - 1].provider == p then Only(calls[..|calls| - 1], p) + [calls[|calls| - 1]]
    else Only(calls[..|calls| - 1], p)
  }

  function Replay(threshold: real, calls: seq<Call>): Statuses {
    if |calls| == 0 then map[] else Apply(threshold, Replay(threshold, calls[..|calls| - 1]), calls[|calls| - 1])
  }

  /** Providers do not affect each other: leaving out everyone else's calls changes nothing for `p`. */
  lemma {:induction false} ProvidersAreIndependent(threshold: real, calls: seq<Call>, p: string)
    ensures var all, own := Replay(threshold, calls), Replay(threshold, Only(calls, p));
            (p in all <==> p in own) && (p in all ==> all[p] == own[p])
  {
    if |calls| > 0 {
      var rest, c := calls[..|calls| - 1], calls[|calls| - 1];
      ProvidersAreIndependent(threshold, rest, p);
      if c.provider == p {
        assert (Only(rest, p) + [c])[..|Only(rest, p)|] == Only(rest, p);
      }
    }
  }
}
