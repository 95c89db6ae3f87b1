/**
 The Orchestrator's failover loop (services/inference-service/orchestrator/orchestrator.py): the
 requested service, then the Application's fallbacks in order. How a service resolves and what
 running it yields are oracles, one per service of the chain.
 */
module Failover {

  import opened Options

  /** One process() call; groups counts the payload groups it answered, each of them billed. */
  datatype Outcome<R, E> =
    | Answer(response: Option<R>, groups: nat)
    /** UpstreamUnavailableError: timeout, connection error or 5xx. */
    | Unreachable(reason: string, groups: nat)
    | Error(error: E, groups: nat)

  /** _get_task_service raises when the model has no usable class_instance. */
  datatype Build<R, E> = NoClass(error: E) | Service(outcome: Outcome<R, E>)

  datatype Candidate<R, E> =
    Candidate(id: string, modelId: string, resolves: bool, tiers: set<string>, build: Build<R, E>)

  datatype Result<R, E> =
    /** Served by the requested service, or by fallback number index. */
    | ByRequested(response: Option<R>)
    | ByFallback(index: nat, answer: R)
    | Raised(error: E)
    /** The requested service's own UpstreamUnavailableError, re-raised. */
    | Reraised
    | AllUnavailable(tried: seq<string>)

  datatype Attempt = Attempt(id: string, groups: nat)

  /** A caller without a tier, and a service without tiers, pass. */
  predicate PassesGate<R, E>(c: Candidate<R, E>, tier: string) {
    tier == "" || c.tiers == {} || tier in c.tiers
  }

  predicate Eligible<R, E>(c: Candidate<R, E>, tier: string) { c.resolves && PassesGate(c, tier) }

  /** The loop goes on after this fallback: skipped, unreachable with nothing billed, or an empty answer. */
  predicate Passed<R, E>(c: Candidate<R, E>, tier: string) {
    || !Eligible(c, tier)
    || (c.build.Service? && c.build.outcome.Unreachable? && c.build.outcome.groups == 0)
    || (c.build.Service? && c.build.outcome.Answer? && c.build.outcome.response.None?)
  }

  /** Fallback k is the first the loop does not pass; k is the number of fallbacks when it passes all. */
  predicate Decides<R, E>(fallbacks: seq<Candidate<R, E>>, tier: string, k: nat) {
    && k <= |fallbacks|
    && (forall j :: 0 <= j < k ==> Passed(fallbacks[j], tier))
    && (k < |fallbacks| ==> !Passed(fallbacks[k], tier))
  }

  /** The requested service and the first n fallbacks, the skipped ones included. */
  function Tried<R, E>(requested: string, fallbacks: seq<Candidate<R, E>>, n: nat): seq<string>
    requires n <= |fallbacks|
  {
    if n == 0 then [requested] else Tried(requested, fallbacks, n - 1) + [fallbacks[n - 1].id]
  }

  function Reached<R, E>(fallbacks: seq<Candidate<R, E>>, k: nat): nat
    requires k <= |fallbacks|
  {
    if k < |fallbacks| then k + 1 else k
  }

  /** What the deciding fallback makes of the request. */
  function Decision<R, E>(requested: string, fallbacks: seq<Candidate<R, E>>, tier: string, k: nat): Result<R, E>
    requires Decides(fallbacks, tier, k)
  {
    if k == |fallbacks| then AllUnavailable(Tried(requested, fallbacks, Reached(fallbacks, k)))
    else
      match fallbacks[k].build
      case NoClass(e) => Raised(e)
      case Service(Answer(Some(r), _)) => ByFallback(k, r)
      case Service(Error(e, _)) => Raised(e)
      case Service(_) => AllUnavailable(Tried(requested, fallbacks, Reached(fallbacks, k)))
  }

  /** The calls made to fallbacks up to and including fallback n - 1. */
  function Attempts<R, E>(fallbacks: seq<Candidate<R, E>>, tier: string, n: nat): seq<Attempt>
    requires n <= |fallbacks|
  {
    if n == 0 then []
    else
      var c := fallbacks[n - 1];
      Attempts(fallbacks, tier, n - 1) +
      if Eligible(c, tier) && c.build.Service? then [Attempt(c.id, c.build.outcome.groups)] else []
  }

  /** Why the loop moves on to fallback n: the failure of the service called last. */
  function ReasonAt<R, E>(fallbacks: seq<Candidate<R, E>>, tier: string, first: string, n: nat): Option<string>
    requires n <= |fallbacks|
  {
    if n == 0 then Some(first)
    else
      var c := fallbacks[n - 1];
      if Eligible(c, tier) && c.build.Service? then
        if c.build.outcome.Unreachable? then Some(c.build.outcome.reason) else None
      else ReasonAt(fallbacks, tier, first, n - 1)
  }

  datatype LogEntry = Failover(fallback: string, reason: Option<string>)

  function Log<R, E>(fallbacks: seq<Candidate<R, E>>, tier: string, first: string, n: nat): seq<LogEntry>
    requires n <= |fallbacks|
  {
    if n == 0 then []
    else Log(fallbacks, tier, first, n - 1) + [Failover(fallbacks[n - 1].id, ReasonAt(fallbacks, tier, first, n - 1))]
  }

  /** The chain is walked only when the requested service is unreachable and has billed nothing. */
  predicate FailsOver<R, E>(primary: Build<R, E>, fallbacks: seq<Candidate<R, E>>) {
    primary.Service? && primary.outcome.Unreachable? && primary.outcome.groups == 0 && fallbacks != []
  }

  function FirstAttempt<R, E>(requested: string, primary: Build<R, E>): seq<Attempt> {
    if primary.Service? then [Attempt(requested, primary.outcome.groups)] else []
  }

  /** _run_fallback_service: (response, reason, stop), or the exception it lets through. */
  function RunFallback<R, E>(outcome: Outcome<R, E>): (Option<R>, Option<string>, bool) {
    match outcome
    case Answer(r, _) => (r, None, false)
    case Unreachable(reason, groups) => (None, Some(reason), groups > 0)
    case Error(_, _) => (None, None, true)
  }

  /** The loop over the fallbacks. */
  method WalkFallbacks<R, E>(requested: string, first: string, fallbacks: seq<Candidate<R, E>>, tier: string)
    returns (r: Result<R, E>, k: nat, attempts: seq<Attempt>, log: seq<LogEntry>)
    ensures Decides(fallbacks, tier, k)
    ensures r == Decision(requested, fallbacks, tier, k)
    ensures attempts == Attempts(fallbacks, tier, Reached(fallbacks, k))
    ensures log == Log(fallbacks, tier, first, Reached(fallbacks, k))
  {
    k, attempts, log := 0, [], [];
    var reason, tried := Some(first), [requested];
    while k < |fallbacks|
      invariant k <= |fallbacks|
      invariant forall j :: 0 <= j < k ==> Passed(fallbacks[j], tier)
      invariant tried == Tried(requested, fallbacks, k)
      invariant attempts == Attempts(fallbacks, tier, k)
      invariant reason == ReasonAt(fallbacks, tier, first, k)
      invariant log == Log(fallbacks, tier, first, k)
    {
      var c := fallbacks[k];
      log := log + [Failover(c.id, reason)];
      tried := tried + [c.id];
      if Eligible(c, tier) {
        if c.build.NoClass? {
          return Raised(c.build.error), k, attempts, log;
        }
        attempts := attempts + [Attempt(c.id, c.build.outcome.groups)];
        if c.build.outcome.Error? {
          return Raised(c.build.outcome.error), k, attempts, log;
        }
        var (response, why, stop) := RunFallback(c.build.outcome);
        reason := why;
        if response.Some? {
          return ByFallback(k, response.value), k, attempts, log;
        }
        if stop {
          return AllUnavailable(tried), k, attempts, log;
        }
      }
      k := k + 1;
    }
    return AllUnavailable(tried), k, attempts, log;
  }

  /** _run_with_fallbacks. k is the deciding fallback when the chain is walked. */
  method RunWithFallbacks<R, E>(requested: string, primary: Build<R, E>, fallbacks: seq<Candidate<R, E>>, tier: string)
    returns (r: Result<R, E>, k: nat, attempts: seq<Attempt>, log: seq<LogEntry>)
    ensures primary.NoClass? ==> r == Raised(primary.error) && attempts == [] && log == []
    ensures primary.Service? && primary.outcome.Answer? ==> r == ByRequested(primary.outcome.response)
    ensures primary.Service? && primary.outcome.Error? ==> r == Raised(primary.outcome.error)
    ensures primary.Service? && primary.outcome.Unreachable? ==>
      (r == Reraised <==> primary.outcome.groups > 0 || fallbacks == [])
    ensures primary.Service? && !FailsOver(primary, fallbacks) ==>
      attempts == [Attempt(requested, primary.outcome.groups)] && log == []
    ensures FailsOver(primary, fallbacks) ==>
      && Decides(fallbacks, tier, k)
      && r == Decision(requested, fallbacks, tier, k)
      && (k < |fallbacks| && fallbacks[k].build.NoClass? ==> r == Raised(fallbacks[k].build.error))
      && (k < |fallbacks| && fallbacks[k].build.Service? ==>
            var outcome := fallbacks[k].build.outcome;
            && (outcome.Answer? ==> outcome.response.Some? && r == ByFallback(k, outcome.response.value))
            && (outcome.Error? ==> r == Raised(outcome.error)))
      && attempts == FirstAttempt(requested, primary) + Attempts(fallbacks, tier, Reached(fallbacks, k))
      && log == Log(fallbacks, tier, primary.outcome.reason, Reached(fallbacks, k))
  {
    k, attempts, log := 0, [], [];
    if primary.NoClass? {
      return Raised(primary.error), k, attempts, log;
    }
    attempts := FirstAttempt(requested, primary);
    match primary.outcome {
      case Answer(response, _) => return ByRequested(response), k, attempts, log;
      case Error(e, _) => return Raised(e), k, attempts, log;
      case Unreachable(_, groups) =>
        if groups > 0 || fallbacks == [] {
          return Reraised, k, attempts, log;
        }
    }
    r, k, attempts, log := WalkFallbacks(requested, primary.outcome.reason, fallbacks, tier);
    attempts := FirstAttempt(requested, primary) + attempts;
  }

  // ---------------------------------------------------------------------------------------
  // What is called and what is logged
  // ---------------------------------------------------------------------------------------

  /** The error lists the requested service and the fallbacks reached, the skipped ones included. */
  lemma {:induction false} TriedExactly<R, E>(requested: string, fallbacks: seq<Candidate<R, E>>, n: nat)
    requires n <= |fallbacks|
    ensures
      var tried := Tried(requested, fallbacks, n);
      |tried| == n + 1 && tried[0] == requested && forall j :: 0 <= j < n ==> tried[j + 1] == fallbacks[j].id
  {
    if n > 0 {
      TriedExactly(requested, fallbacks, n - 1);
    }
  }

  /** Called at all: it resolves, the caller may use it, and its model has a class. */
  predicate IsCalled<R, E>(c: Candidate<R, E>, tier: string) {
    c.resolves && (tier != "" && c.tiers != {} ==> tier in c.tiers) && c.build.Service?
  }

  function CallsBefore<R, E>(fallbacks: seq<Candidate<R, E>>, tier: string, n: nat): nat
    requires n <= |fallbacks|
  {
    if n == 0 then 0 else CallsBefore(fallbacks, tier, n - 1) + if IsCalled(fallbacks[n - 1], tier) then 1 else 0
  }

  lemma {:induction false} CallsGrow<R, E>(fallbacks: seq<Candidate<R, E>>, tier: string, j: nat, n: nat)
    requires j <= n <= |fallbacks|
    ensures CallsBefore(fallbacks, tier, j) <= CallsBefore(fallbacks, tier, n)
  {
    if j < n {
      CallsGrow(fallbacks, tier, j, n - 1);
    }
  }

  /** Each fallback that can be called is called once, in the order of the chain, and nothing else is. */
  lemma {:induction false} AttemptsExactly<R, E>(fallbacks: seq<Candidate<R, E>>, tier: string, n: nat)
    requires n <= |fallbacks|
    ensures |Attempts(fallbacks, tier, n)| == CallsBefore(fallbacks, tier, n)
    ensures forall j :: 0 <= j < n && IsCalled(fallbacks[j], tier) ==>
      && CallsBefore(fallbacks, tier, j) < |Attempts(fallbacks, tier, n)|
      && Attempts(fallbacks, tier, n)[CallsBefore(fallbacks, tier, j)]
         == Attempt(fallbacks[j].id, fallbacks[j].build.outcome.groups)
  {
    if n > 0 {
      AttemptsExactly(fallbacks, tier, n - 1);
    }
  }

  /** Fallback i is the last one called before fallback j. */
  predicate LastCalled<R, E>(fallbacks: seq<Candidate<R, E>>, tier: string, i: nat, j: nat)
    requires j <= |fallbacks|
  {
    i < j && IsCalled(fallbacks[i], tier) && forall l :: i < l < j ==> !IsCalled(fallbacks[l], tier)
  }

  /** The reason the loop is in, when it comes to a fallback, is that of the service called last. */
  lemma {:induction false} ReasonExactly<R, E>(fallbacks: seq<Candidate<R, E>>, tier: string, first: string, n: nat)
    requires n <= |fallbacks|
    ensures (forall l :: 0 <= l < n ==> !IsCalled(fallbacks[l], tier)) ==>
      ReasonAt(fallbacks, tier, first, n) == Some(first)
    ensures forall i :: 0 <= i < n && LastCalled(fallbacks, tier, i, n) ==>
      var outcome := fallbacks[i].build.outcome;
      ReasonAt(fallbacks, tier, first, n) == if outcome.Unreachable? then Some(outcome.reason) else None
  {
    if n > 0 {
      ReasonExactly(fallbacks, tier, first, n - 1);
      if !IsCalled(fallbacks[n - 1], tier) {
        forall i | 0 <= i < n && LastCalled(fallbacks, tier, i, n)
          ensures LastCalled(fallbacks, tier, i, n - 1)
        {
        }
      }
    }
  }

  /** One entry for every fallback reached, with the reason it was turned to. */
  lemma {:induction false} LogExactly<R, E>(
      fallbacks: seq<Candidate<R, E>>, tier: string, first: string, n: nat, j: nat)
    requires j < n <= |fallbacks|
    ensures |Log(fallbacks, tier, first, n)| == n
    ensures Log(fallbacks, tier, first, n)[j] == Failover(fallbacks[j].id, ReasonAt(fallbacks, tier, first, j))
  {
    if j < n - 1 {
      LogExactly(fallbacks, tier, first, n - 1, j);
    } else if n > 1 {
      LogExactly(fallbacks, tier, first, n - 1, 0);
    }
  }

  // ---------------------------------------------------------------------------------------
  // The first service that can answer
  // ---------------------------------------------------------------------------------------

  lemma DecidesUniquely<R, E>(fallbacks: seq<Candidate<R, E>>, tier: string, k: nat, l: nat)
    requires Decides(fallbacks, tier, k) && Decides(fallbacks, tier, l)
    ensures k == l
  {
  }

  /** No answer of the chain is empty. */
  predicate NoEmptyAnswers<R, E>(fallbacks: seq<Candidate<R, E>>) {
    forall i :: 0 <= i < |fallbacks| && fallbacks[i].build.Service? && fallbacks[i].build.outcome.Answer? ==>
      fallbacks[i].build.outcome.response.Some?
  }

  predicate Unavailable<R, E>(c: Candidate<R, E>) { c.build.Service? && c.build.outcome.Unreachable? }

  /**
   With no empty answers, the chain is served by fallback i exactly when i answers and every
   eligible fallback before it is unreachable with nothing billed.
   */
  lemma ServedExactly<R, E>(requested: string, fallbacks: seq<Candidate<R, E>>, tier: string, k: nat, i: nat)
    requires Decides(fallbacks, tier, k) && NoEmptyAnswers(fallbacks) && i < |fallbacks|
    ensures
      var r := Decision(requested, fallbacks, tier, k);
      (r.ByFallback? && r.index == i) <==>
        && Eligible(fallbacks[i], tier) && fallbacks[i].build.Service? && fallbacks[i].build.outcome.Answer?
        && forall j :: 0 <= j < i && Eligible(fallbacks[j], tier) ==>
             Unavailable(fallbacks[j]) && fallbacks[j].build.outcome.groups == 0
  {
    if Eligible(fallbacks[i], tier) && fallbacks[i].build.Service? && fallbacks[i].build.outcome.Answer? {
      assert !Passed(fallbacks[i], tier);
      if forall j :: 0 <= j < i && Eligible(fallbacks[j], tier) ==>
           Unavailable(fallbacks[j]) && fallbacks[j].build.outcome.groups == 0 {
        assert forall j :: 0 <= j < i ==> Passed(fallbacks[j], tier);
        DecidesUniquely(fallbacks, tier, k, i);
      }
    }
  }

  /**
   AllServicesUnavailableError is raised exactly when the walk ends on an unreachable service: every
   eligible fallback was unreachable, up to the first that had already billed, or to the end.
   */
  lemma AllUnavailableExactly<R, E>(requested: string, fallbacks: seq<Candidate<R, E>>, tier: string, k: nat)
    requires Decides(fallbacks, tier, k) && NoEmptyAnswers(fallbacks)
    ensures Decision(requested, fallbacks, tier, k).AllUnavailable? <==>
      exists n :: 0 <= n <= |fallbacks| && EndsUnavailable(fallbacks, tier, n)
  {
    if n :| 0 <= n <= |fallbacks| && EndsUnavailable(fallbacks, tier, n) {
      assert k <= n;
      assert k < n ==> Unavailable(fallbacks[k]);
    }
    if Decision(requested, fallbacks, tier, k).AllUnavailable? {
      assert EndsUnavailable(fallbacks, tier, k);
    }
  }

  /** The eligible fallbacks before n were unreachable; n is the end, or was unreachable after billing. */
  predicate EndsUnavailable<R, E>(fallbacks: seq<Candidate<R, E>>, tier: string, n: nat) {
    && n <= |fallbacks|
    && (forall j :: 0 <= j < n && Eligible(fallbacks[j], tier) ==> Unavailable(fallbacks[j]))
    && (n < |fallbacks| ==>
          Eligible(fallbacks[n], tier) && Unavailable(fallbacks[n]) && fallbacks[n].build.outcome.groups > 0)
  }

  // ---------------------------------------------------------------------------------------
  // No group is billed by two services
  // ---------------------------------------------------------------------------------------

  predicate BilledTwice(attempts: seq<Attempt>) {
    exists i, j :: 0 <= i < j < |attempts| && attempts[i].groups > 0 && attempts[j].groups > 0
  }

  /** An empty answer that was billed: the chain moves on although the payload was answered. */
  predicate BilledInVain<R, E>(c: Candidate<R, E>, tier: string) {
    && Eligible(c, tier) && c.build.Service?
    && c.build.outcome.Answer? && c.build.outcome.response.None? && c.build.outcome.groups > 0
  }

  lemma {:induction false} PassedBillsNothing<R, E>(fallbacks: seq<Candidate<R, E>>, tier: string, n: nat)
    requires n <= |fallbacks|
    requires forall j :: 0 <= j < n ==> Passed(fallbacks[j], tier) && !BilledInVain(fallbacks[j], tier)
    ensures forall i :: 0 <= i < |Attempts(fallbacks, tier, n)| ==> Attempts(fallbacks, tier, n)[i].groups == 0
  {
    if n > 0 {
      PassedBillsNothing(fallbacks, tier, n - 1);
    }
  }

  /** Every attempt but the last has billed nothing, so no group is billed by two services. */
  lemma NoDoubleBilling<R, E>(requested: string, primary: Build<R, E>, fallbacks: seq<Candidate<R, E>>, tier: string,
                              k: nat)
    requires FailsOver(primary, fallbacks) && Decides(fallbacks, tier, k)
    requires forall j :: 0 <= j < k ==> !BilledInVain(fallbacks[j], tier)
    ensures
      var attempts := FirstAttempt(requested, primary) + Attempts(fallbacks, tier, Reached(fallbacks, k));
      !BilledTwice(attempts) && forall i :: 0 <= i < |attempts| - 1 ==> attempts[i].groups == 0
  {
    PassedBillsNothing(fallbacks, tier, k);
  }

  predicate Billed<R, E>(c: Candidate<R, E>, tier: string) {
    Eligible(c, tier) && c.build.Service? && c.build.outcome.groups > 0
  }

  predicate AnyBilled(attempts: seq<Attempt>) { exists i :: 0 <= i < |attempts| && attempts[i].groups > 0 }

  predicate BilledAmong<R, E>(fallbacks: seq<Candidate<R, E>>, tier: string, n: nat)
    requires n <= |fallbacks|
  {
    exists i :: 0 <= i < n && Billed(fallbacks[i], tier)
  }

  predicate PairBilled<R, E>(fallbacks: seq<Candidate<R, E>>, tier: string, n: nat)
    requires n <= |fallbacks|
  {
    exists i, j :: 0 <= i < j < n && Billed(fallbacks[i], tier) && Billed(fallbacks[j], tier)
  }

  lemma OneMoreAttempt(a: seq<Attempt>, x: Attempt)
    ensures AnyBilled(a + [x]) <==> AnyBilled(a) || x.groups > 0
    ensures BilledTwice(a + [x]) <==> BilledTwice(a) || (AnyBilled(a) && x.groups > 0)
  {
    var b := a + [x];
    assert forall i :: 0 <= i < |a| ==> b[i] == a[i];
    assert b[|a|] == x;
    if i :| 0 <= i < |a| && a[i].groups > 0 {
      assert b[i].groups > 0;
    }
    if i, j :| 0 <= i < j < |a| && a[i].groups > 0 && a[j].groups > 0 {
      assert b[i].groups > 0 && b[j].groups > 0;
    }
  }

  lemma OneBefore(x: Attempt, a: seq<Attempt>, i: int)
    requires 0 <= i < |a|
    ensures ([x] + a)[i + 1] == a[i]
  {
  }

  lemma FreeAttemptFirst(x: Attempt, a: seq<Attempt>)
    requires x.groups == 0
    ensures BilledTwice([x] + a) <==> BilledTwice(a)
  {
    if i, j :| 0 <= i < j < |a| && a[i].groups > 0 && a[j].groups > 0 {
      OneBefore(x, a, i);
      OneBefore(x, a, j);
    } else if i, j :| 0 <= i < j < |[x] + a| && ([x] + a)[i].groups > 0 && ([x] + a)[j].groups > 0 {
      OneBefore(x, a, i - 1);
      OneBefore(x, a, j - 1);
      assert false;
    }
  }

  lemma OneMoreFallback<R, E>(fallbacks: seq<Candidate<R, E>>, tier: string, n: nat)
    requires n < |fallbacks|
    ensures BilledAmong(fallbacks, tier, n + 1) <==> BilledAmong(fallbacks, tier, n) || Billed(fallbacks[n], tier)
    ensures PairBilled(fallbacks, tier, n + 1) <==>
      PairBilled(fallbacks, tier, n) || (BilledAmong(fallbacks, tier, n) && Billed(fallbacks[n], tier))
  {
  }

  lemma {:induction false} BilledAttempts<R, E>(fallbacks: seq<Candidate<R, E>>, tier: string, n: nat)
    requires n <= |fallbacks|
    ensures AnyBilled(Attempts(fallbacks, tier, n)) <==> BilledAmong(fallbacks, tier, n)
    ensures BilledTwice(Attempts(fallbacks, tier, n)) <==> PairBilled(fallbacks, tier, n)
  {
    if n > 0 {
      var c, earlier := fallbacks[n - 1], Attempts(fallbacks, tier, n - 1);
      BilledAttempts(fallbacks, tier, n - 1);
      OneMoreFallback(fallbacks, tier, n - 1);
      if Eligible(c, tier) && c.build.Service? {
        OneMoreAttempt(earlier, Attempt(c.id, c.build.outcome.groups));
      } else {
        assert earlier + [] == earlier;
      }
    }
  }

  /**
   Empty answers are the only way the rule breaks: a request is billed by two services exactly when
   one of them answered a billed group with an empty response and a fallback after it billed as well,
   whatever that one returned.
   */
  lemma EmptyAnswersDoubleBillExactly<R, E>(
      requested: string, primary: Build<R, E>, fallbacks: seq<Candidate<R, E>>, tier: string, k: nat)
    requires FailsOver(primary, fallbacks) && Decides(fallbacks, tier, k)
    ensures
      BilledTwice(FirstAttempt(requested, primary) + Attempts(fallbacks, tier, Reached(fallbacks, k))) <==>
      exists i, j :: 0 <= i < j < Reached(fallbacks, k) && BilledInVain(fallbacks[i], tier)
        && Billed(fallbacks[j], tier)
  {
    var n := Reached(fallbacks, k);
    FreeAttemptFirst(Attempt(requested, 0), Attempts(fallbacks, tier, n));
    BilledAttempts(fallbacks, tier, n);
    forall i | 0 <= i < k
      ensures Billed(fallbacks[i], tier) <==> BilledInVain(fallbacks[i], tier)
    {
      assert Passed(fallbacks[i], tier);
    }
  }

  /** A fallback bills a group, answers nothing, and the next one bills it again. */
  lemma BilledTwiceForOneAnswer()
    ensures
      var primary := Service(Unreachable("timeout", 0));
      var fallbacks := [
        Candidate("b", "m", true, {}, Service(Answer(None, 1))),
        Candidate("c", "m", true, {}, Service(Answer(Some("text"), 1)))];
      && FailsOver<string, string>(primary, fallbacks) && Decides(fallbacks, "", 1)
      && Decision("a", fallbacks, "", 1) == ByFallback(1, "text")
      && BilledTwice(FirstAttempt("a", primary) + Attempts(fallbacks, "", 2))
  {
    var primary: Build<string, string> := Service(Unreachable("timeout", 0));
    var fallbacks: seq<Candidate<string, string>> := [
      Candidate("b", "m", true, {}, Service(Answer(None, 1))),
      Candidate("c", "m", true, {}, Service(Answer(Some("text"), 1)))];
    assert Passed(fallbacks[0], "") && !Passed(fallbacks[1], "");
    assert BilledInVain(fallbacks[0], "") && Billed(fallbacks[1], "");
    EmptyAnswersDoubleBillExactly("a", primary, fallbacks, "", 1);
  }

  // ---------------------------------------------------------------------------------------
  // What the request is labelled with
  // ---------------------------------------------------------------------------------------

  class RequestState {
    var serviceId: string
    var modelId: string

    constructor ()
      ensures serviceId == "" && modelId == ""
    {
      serviceId, modelId := "", "";
    }
  }

  /** route_inference: labels for the requested service first, then _apply_fallback_state. */
  method Route<R, E>(requested: Candidate<R, E>, fallbacks: seq<Candidate<R, E>>, tier: string, state: RequestState)
    returns (r: Result<R, E>, denied: bool)
    modifies state
    ensures denied <==> tier != "" && requested.tiers != {} && tier !in requested.tiers
    ensures !denied && requested.build.Service? && requested.build.outcome.Answer? ==>
      r == ByRequested(requested.build.outcome.response)
    ensures !denied && requested.build.Service? && requested.build.outcome.Error? ==>
      r == Raised(requested.build.outcome.error)
    ensures !denied && requested.build.NoClass? ==> r == Raised(requested.build.error)
    ensures denied || !r.ByFallback? ==> state.serviceId == requested.id && state.modelId == requested.modelId
    ensures !denied && r.ByFallback? ==>
      && r.index < |fallbacks| && IsCalled(fallbacks[r.index], tier)
      && fallbacks[r.index].build.outcome.Answer? && fallbacks[r.index].build.outcome.response == Some(r.answer)
      && state.serviceId == fallbacks[r.index].id && state.modelId == fallbacks[r.index].modelId
  {
    state.serviceId, state.modelId := requested.id, requested.modelId;
    denied := !PassesGate(requested, tier);
    r := Reraised;
    if denied {
      return;
    }
    var k, attempts, log;
    r, k, attempts, log := RunWithFallbacks(requested.id, requested.build, fallbacks, tier);
    if r.ByFallback? {
      state.serviceId, state.modelId := fallbacks[r.index].id, fallbacks[r.index].modelId;
    }
  }
}
