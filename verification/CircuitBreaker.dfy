/** The circuit breaker, and its refinement of a function of the calls that have completed.

    A call is two steps, since the guarded function is awaited between them: a probe that admits
    or rejects it, and, if admitted, a completion. Any number of calls may overlap. */
module CircuitBreaker {

  datatype State = Closed | Open | HalfOpen

  /** The breaker's three private fields. */
  datatype Fields = Fields(failures: nat, state: State, openedAt: int)

  /** What happens to a breaker: `exec` or `getState` consults it, or an admitted call finishes. */
  datatype Event = Consulted(at: int) | Finished(ok: bool, at: int)

  const FRESH := Fields(0, Closed, 0)

  function MaybeHalfOpen(b: Fields, resetTimeoutMs: int, now: int): Fields {
    if b.state == Open && now - b.openedAt >= resetTimeoutMs then b.(state := HalfOpen) else b
  }

  function OnSuccess(b: Fields): Fields {
    b.(failures := 0, state := Closed)
  }

  function OnFailure(b: Fields, failureThreshold: int, now: int): Fields {
    var b' := b.(failures := b.failures + 1);
    if b'.state == HalfOpen || b'.failures >= failureThreshold then b'.(state := Open, openedAt := now) else b'
  }

  function After(es: seq<Event>, failureThreshold: int, resetTimeoutMs: int): Fields {
    if es == [] then FRESH
    else
      var b := After(es[..|es| - 1], failureThreshold, resetTimeoutMs);
      match es[|es| - 1]
      case Consulted(at) => MaybeHalfOpen(b, resetTimeoutMs, at)
      case Finished(ok, at) => if ok then OnSuccess(b) else OnFailure(b, failureThreshold, at)
  }

  predicate TimeOrdered(es: seq<Event>) {
    forall i, j :: 0 <= i < j < |es| ==> es[i].at <= es[j].at
  }

  // The history a reader would describe the breaker by.

  /** Failures since the last success; consultations, and so rejections, are not in it. */
  function TrailingFailures(es: seq<Event>): nat {
    if es == [] then 0
    else
      match es[|es| - 1]
      case Consulted(_) => TrailingFailures(es[..|es| - 1])
      case Finished(ok, _) => if ok then 0 else TrailingFailures(es[..|es| - 1]) + 1
  }

  function LastFailureAt(es: seq<Event>): int {
    if es == [] then 0
    else
      match es[|es| - 1]
      case Finished(false, at) => at
      case _ => LastFailureAt(es[..|es| - 1])
  }

  /** A threshold below one behaves as one: a single failure opens the breaker. */
  function Threshold(failureThreshold: int): int {
    if failureThreshold < 1 then 1 else failureThreshold
  }

  predicate Tripped(es: seq<Event>, failureThreshold: int) {
    TrailingFailures(es) >= Threshold(failureThreshold)
  }

  predicate Rejects(es: seq<Event>, failureThreshold: int, resetTimeoutMs: int, now: int) {
    Tripped(es, failureThreshold) && now - LastFailureAt(es) < resetTimeoutMs
  }

  /** The refinement: what the fields hold after any history of overlapping calls. */
  lemma {:induction false} RefinesHistory(es: seq<Event>, failureThreshold: int, resetTimeoutMs: int)
    requires TimeOrdered(es)
    ensures var b := After(es, failureThreshold, resetTimeoutMs);
      && b.failures == TrailingFailures(es)
      && (b.state == Closed <==> !Tripped(es, failureThreshold))
      && (b.state != Closed ==> b.openedAt == LastFailureAt(es))
      && (b.state == HalfOpen ==> es != [] && es[|es| - 1].at - b.openedAt >= resetTimeoutMs)
  {
    if es != [] {
      var before := es[..|es| - 1];
      RefinesHistory(before, failureThreshold, resetTimeoutMs);
      if before != [] { assert before[|before| - 1].at <= es[|es| - 1].at; }
    }
  }

  /** Being consulted at `now`, the breaker reads open exactly when the history rejects, and
      half-open exactly when it is tripped but the reset time has passed. */
  lemma ConsultedState(es: seq<Event>, failureThreshold: int, resetTimeoutMs: int, now: int)
    requires TimeOrdered(es + [Consulted(now)])
    ensures var s := After(es + [Consulted(now)], failureThreshold, resetTimeoutMs).state;
      && (s == Open <==> Rejects(es, failureThreshold, resetTimeoutMs, now))
      && (s == Closed <==> !Tripped(es, failureThreshold))
  {
    var es' := es + [Consulted(now)];
    assert es'[..|es'| - 1] == es;
    assert TimeOrdered(es) by {
      forall i, j | 0 <= i < j < |es| ensures es[i].at <= es[j].at {
        assert es'[i].at <= es'[j].at;
      }
    }
    RefinesHistory(es, failureThreshold, resetTimeoutMs);
    RefinesHistory(es', failureThreshold, resetTimeoutMs);
  }

  lemma SettledState(es: seq<Event>, failureThreshold: int, resetTimeoutMs: int, ok: bool, now: int)
    requires TimeOrdered(es) && forall i :: 0 <= i < |es| ==> es[i].at <= now
    ensures var es', b := es + [Finished(ok, now)], After(es, failureThreshold, resetTimeoutMs);
      && TimeOrdered(es')
      && var b' := After(es', failureThreshold, resetTimeoutMs);
        && b' == (if ok then OnSuccess(b) else OnFailure(b, failureThreshold, now))
        && b'.failures == TrailingFailures(es')
        && (b'.state == Closed <==> !Tripped(es', failureThreshold))
  {
    var es' := es + [Finished(ok, now)];
    assert es'[..|es'| - 1] == es;
    RefinesHistory(es', failureThreshold, resetTimeoutMs);
  }

  /** From closed, it takes the threshold's number of failures in a row to open the breaker, and one
      where the threshold is below one. */
  lemma {:induction false} OpensAtThreshold(n: nat, failureThreshold: int, resetTimeoutMs: int, now: int)
    ensures var b := After(seq(n, _ => Finished(false, now)), failureThreshold, resetTimeoutMs);
      && b.failures == n
      && b.state == (if n >= 1 && n >= failureThreshold then Open else Closed)
      && (b.state == Open ==> b.openedAt == now)
  {
    if n > 0 {
      OpensAtThreshold(n - 1, failureThreshold, resetTimeoutMs, now);
      assert seq(n, _ => Finished(false, now))[..n - 1] == seq(n - 1, _ => Finished(false, now));
    }
  }

  /** Open since `openedAt`, it refuses until the reset time has passed, then admits; a failure then
      opens it again at once, and a success closes it and forgets the failures. */
  lemma ResetsAfterTimeout(es: seq<Event>, failureThreshold: int, resetTimeoutMs: int, now: int, later: int)
    requires After(es, failureThreshold, resetTimeoutMs).state == Open
    ensures var openedAt := After(es, failureThreshold, resetTimeoutMs).openedAt;
      var consulted := es + [Consulted(now)];
      var b := After(consulted, failureThreshold, resetTimeoutMs);
      && b.state == (if now < openedAt + resetTimeoutMs then Open else HalfOpen)
      && (b.state == HalfOpen ==>
            && After(consulted + [Finished(true, later)], failureThreshold, resetTimeoutMs).state == Closed
            && After(consulted + [Finished(true, later)], failureThreshold, resetTimeoutMs).failures == 0
            && After(consulted + [Finished(false, later)], failureThreshold, resetTimeoutMs).state == Open
            && After(consulted + [Finished(false, later)], failureThreshold, resetTimeoutMs).openedAt == later)
  {
    var consulted := es + [Consulted(now)];
    assert consulted[..|consulted| - 1] == es;
    assert (consulted + [Finished(true, later)])[..|consulted|] == consulted;
    assert (consulted + [Finished(false, later)])[..|consulted|] == consulted;
  }

  predicate AllConsulted(es: seq<Event>) {
    forall i :: 0 <= i < |es| ==> es[i].Consulted?
  }

  /** Consultations alone change neither the failures nor when the last one was. */
  lemma {:induction false} ConsultationsLeaveHistory(es: seq<Event>, probes: seq<Event>)
    requires AllConsulted(probes)
    ensures TrailingFailures(es + probes) == TrailingFailures(es) && LastFailureAt(es + probes) == LastFailureAt(es)
  {
    if probes == [] {
      assert es + probes == es;
    } else {
      var front := probes[..|probes| - 1];
      assert (es + probes)[..|es + probes| - 1] == es + front;
      ConsultationsLeaveHistory(es, front);
    }
  }

  /** Half-open is not a single-probe state: until a call settles, every consultation at or after
      one that was admitted in it is admitted in it too, however many there are and whenever. */
  lemma HalfOpenAdmitsEveryProbe(es: seq<Event>, probes: seq<Event>, failureThreshold: int, resetTimeoutMs: int)
    requires TimeOrdered(es + probes) && AllConsulted(probes) && probes != []
    requires Tripped(es, failureThreshold) && !Rejects(es, failureThreshold, resetTimeoutMs, probes[0].at)
    ensures forall n :: 0 < n <= |probes| ==>
      After(es + probes[..n], failureThreshold, resetTimeoutMs).state == HalfOpen
  {
    forall n | 0 < n <= |probes|
      ensures After(es + probes[..n], failureThreshold, resetTimeoutMs).state == HalfOpen
    {
      var before, last := es + probes[..n - 1], probes[n - 1];
      assert probes[..n] == probes[..n - 1] + [last];
      assert before + [last] == es + probes[..n] == (es + probes)[..|es| + n];
      assert probes[0].at <= last.at by {
        assert (es + probes)[|es|] == probes[0] && (es + probes)[|es| + n - 1] == last;
      }
      ConsultationsLeaveHistory(es, probes[..n - 1]);
      ConsultedState(before, failureThreshold, resetTimeoutMs, last.at);
    }
  }

  class CircuitBreaker {
    const failureThreshold: int
    const resetTimeoutMs: int
    var failures: nat
    var state: State
    var openedAt: int
    ghost var history: seq<Event>

    ghost predicate Valid()
      reads this
    {
      && TimeOrdered(history)
      && Fields(failures, state, openedAt) == After(history, failureThreshold, resetTimeoutMs)
    }

    /** The clock never runs backwards. */
    ghost predicate NotBeforeHistory(now: int)
      reads this
    {
      forall i :: 0 <= i < |history| ==> history[i].at <= now
    }

    constructor (failureThreshold: int, resetTimeoutMs: int)
      ensures Valid() && history == []
      ensures this.failureThreshold == failureThreshold && this.resetTimeoutMs == resetTimeoutMs
    {
      this.failureThreshold := failureThreshold;
      this.resetTimeoutMs := resetTimeoutMs;
      failures, state, openedAt := 0, Closed, 0;
      history := [];
    }

    method GetState(now: int) returns (s: State)
      requires Valid() && NotBeforeHistory(now)
      modifies this
      ensures Valid() && history == old(history) + [Consulted(now)]
      ensures s == if !Tripped(old(history), failureThreshold) then Closed
                   else if Rejects(old(history), failureThreshold, resetTimeoutMs, now) then Open
                   else HalfOpen
    {
      ConsultedState(history, failureThreshold, resetTimeoutMs, now);
      ConsultHistory(now);
      if state == Open && now - openedAt >= resetTimeoutMs {
        state := HalfOpen;
      }
      s := state;
    }

    /** The first half of `exec`: decides whether the guarded function is called at all. */
    method Admit(now: int) returns (admitted: bool)
      requires Valid() && NotBeforeHistory(now)
      modifies this
      ensures Valid() && history == old(history) + [Consulted(now)]
      ensures admitted <==> !Rejects(old(history), failureThreshold, resetTimeoutMs, now)
    {
      var s := GetState(now);
      admitted := s != Open;
    }

    /** The second half of `exec`: an admitted call has settled. */
    method Settle(ok: bool, now: int)
      requires Valid() && NotBeforeHistory(now)
      modifies this
      ensures Valid() && history == old(history) + [Finished(ok, now)]
      ensures failures == TrailingFailures(history)
      ensures state == Closed <==> !Tripped(history, failureThreshold)
    {
      SettledState(history, failureThreshold, resetTimeoutMs, ok, now);
      history := history + [Finished(ok, now)];
      if ok {
        failures := 0;
        state := Closed;
      } else {
        failures := failures + 1;
        if state == HalfOpen || failures >= failureThreshold {
          state := Open;
          openedAt := now;
        }
      }
    }

    ghost method ConsultHistory(now: int)
      modifies this`history
      ensures history == old(history) + [Consulted(now)]
      ensures history[..|history| - 1] == old(history)
    {
      history := history + [Consulted(now)];
    }
  }
}
