/**
 From an exception to the response (services/inference-service/utils/http_status.py and
 _http_error_for in services/inference-service/routes/inference.py). Exceptions are records in a heap;
 __cause__ may lead anywhere in it, back to where it came from too.
 */
module HttpStatus {
  import opened Options
  import opened Finite

  /** What isinstance finds; exactLookup is type(e) is LookupError. */
  datatype Kind = AllServicesUnavailable | Permission | ValueKind | NotImplemented | Connection | Runtime

  datatype Exc = Exc(kinds: set<Kind>, exactLookup: bool, message: string, cause: Option<nat>)

  type Heap = seq<Exc>

  predicate ValidHeap(h: Heap) { forall i :: 0 <= i < |h| && h[i].cause.Some? ==> h[i].cause.value < |h| }

  const BOUND := 16

  /** The n-th exception of the chain that starts at e. */
  function Nth(h: Heap, e: nat, n: nat): (r: Option<nat>)
    requires ValidHeap(h) && e < |h|
    ensures r.Some? ==> r.value < |h|
  {
    if n == 0 then Some(e)
    else
      var before := Nth(h, e, n - 1);
      if before.None? then None else h[before.value].cause
  }

  /** The status one exception stands for on its own. */
  function StatusOf(x: Exc): Option<int> {
    if AllServicesUnavailable in x.kinds then Some(503)
    else if Permission in x.kinds then Some(403)
    else if ValueKind in x.kinds then Some(400)
    else if NotImplemented in x.kinds then Some(501)
    else if x.exactLookup then Some(404)
    else None
  }

  /**
   Each status by the kinds it stands for: a permission error that is none of the unavailable services
   gives 403, and so on down to a bare LookupError; anything else decides nothing.
   */
  lemma StatusExactly(x: Exc)
    ensures StatusOf(x) == Some(503) <==> AllServicesUnavailable in x.kinds
    ensures StatusOf(x) == Some(403) <==> Permission in x.kinds && AllServicesUnavailable !in x.kinds
    ensures StatusOf(x) == Some(400) <==> ValueKind in x.kinds && x.kinds !! {AllServicesUnavailable, Permission}
    ensures StatusOf(x) == Some(501) <==>
      NotImplemented in x.kinds && x.kinds !! {AllServicesUnavailable, Permission, ValueKind}
    ensures StatusOf(x) == Some(404) <==>
      x.exactLookup && x.kinds !! {AllServicesUnavailable, Permission, ValueKind, NotImplemented}
    ensures StatusOf(x).None? <==>
      !x.exactLookup && x.kinds !! {AllServicesUnavailable, Permission, ValueKind, NotImplemented}
  {
  }

  predicate Decides(h: Heap, e: nat, n: nat)
    requires ValidHeap(h) && e < |h|
  {
    Nth(h, e, n).Some? && StatusOf(h[Nth(h, e, n).value]).Some?
  }

  /** Exception n is the first within the bound that decides. */
  predicate FirstDecides(h: Heap, e: nat, n: nat)
    requires ValidHeap(h) && e < |h|
  {
    n < BOUND && Decides(h, e, n) && forall k: nat :: k < n ==> !Decides(h, e, k)
  }

  /** Which exception of the chain decides, if one within the bound does. */
  ghost function DeciderOf(h: Heap, e: nat): Option<nat>
    requires ValidHeap(h) && e < |h|
  {
    if exists n: nat :: FirstDecides(h, e, n) then
      var n: nat :| FirstDecides(h, e, n);
      Some(n)
    else None
  }

  lemma FirstIsUnique(h: Heap, e: nat, m: nat, n: nat)
    requires ValidHeap(h) && e < |h| && FirstDecides(h, e, m) && FirstDecides(h, e, n)
    ensures m == n
  {
  }

  lemma DeciderIs(h: Heap, e: nat, n: nat)
    requires ValidHeap(h) && e < |h| && FirstDecides(h, e, n)
    ensures DeciderOf(h, e) == Some(n)
  {
    FirstIsUnique(h, e, DeciderOf(h, e).value, n);
  }

  /** The deciding exception itself. */
  ghost function Deciding(h: Heap, e: nat): Exc
    requires ValidHeap(h) && e < |h| && DeciderOf(h, e).Some?
  {
    h[Nth(h, e, DeciderOf(h, e).value).value]
  }

  predicate IsBackendFailure(x: Exc) { Runtime in x.kinds || Connection in x.kinds }

  /** RuntimeError and ConnectionError, whatever else the exception is. */
  lemma BackendFailures(x: Exc)
    ensures IsBackendFailure(x) <==> x.kinds * {Runtime, Connection} != {}
  {
    assert forall k :: k in x.kinds * {Runtime, Connection} <==> k in x.kinds && (k == Runtime || k == Connection);
  }

  /** A backend failure stands at place k of the chain. */
  predicate FailsAt(h: Heap, e: nat, k: nat)
    requires ValidHeap(h) && e < |h|
  {
    Nth(h, e, k).Some? && IsBackendFailure(h[Nth(h, e, k).value])
  }

  // ---------------------------------------------------------------------------------------
  // http_status_for
  // ---------------------------------------------------------------------------------------

  ghost predicate IsChain(h: Heap, e: nat, chain: seq<nat>)
    requires ValidHeap(h) && e < |h|
  {
    && |chain| <= BOUND && (forall k: nat :: k < |chain| ==> Nth(h, e, k) == Some(chain[k]))
    && (forall k: nat :: k < |chain| ==> chain[k] < |h|)
  }

  lemma {:induction false} NothingAfter(h: Heap, e: nat, n: nat, k: nat)
    requires ValidHeap(h) && e < |h| && Nth(h, e, n).None? && n <= k
    ensures Nth(h, e, k).None?
  {
    if n < k {
      NothingAfter(h, e, n, k - 1);
    }
  }

  /** _cause_chain: e, then each exception's cause, until there is none or sixteen are found. */
  method CauseChain(h: Heap, e: nat) returns (chain: seq<nat>)
    requires ValidHeap(h) && e < |h|
    ensures IsChain(h, e, chain)
    ensures forall k: nat :: |chain| <= k < BOUND ==> Nth(h, e, k).None?
    ensures 1 <= |chain| <= 16 && chain[0] == e && forall k :: 0 <= k < |chain| ==> chain[k] < |h|
    ensures forall k :: 0 < k < |chain| ==> h[chain[k - 1]].cause == Some(chain[k])
    ensures |chain| < 16 ==> h[chain[|chain| - 1]].cause.None?
  {
    chain := [];
    var cause := Some(e);
    while cause.Some? && |chain| < BOUND
      invariant IsChain(h, e, chain) && cause == Nth(h, e, |chain|)
      invariant if chain == [] then cause == Some(e) else chain[0] == e && cause == h[chain[|chain| - 1]].cause
      invariant forall k :: 0 < k < |chain| ==> h[chain[k - 1]].cause == Some(chain[k])
      decreases BOUND - |chain|
    {
      chain := chain + [cause.value];
      cause := h[cause.value].cause;
    }
    forall k: nat | |chain| <= k < BOUND
      ensures Nth(h, e, k).None?
    {
      NothingAfter(h, e, |chain|, k);
    }
  }

  lemma NoDecider(h: Heap, e: nat, chain: seq<nat>)
    requires ValidHeap(h) && e < |h| && IsChain(h, e, chain)
    requires forall k: nat :: |chain| <= k < BOUND ==> Nth(h, e, k).None?
    requires forall k: nat :: k < |chain| ==> !Decides(h, e, k)
    ensures DeciderOf(h, e).None?
  {
  }

  /** http_status_for. */
  method HttpStatusFor(h: Heap, e: nat) returns (status: int)
    requires ValidHeap(h) && e < |h|
    ensures DeciderOf(h, e).Some? ==> Some(status) == StatusOf(Deciding(h, e))
    ensures DeciderOf(h, e).None? ==>
      && status in {500, 502}
      && (status == 502 <==> exists k: nat :: k < 16 && FailsAt(h, e, k))
  {
    var chain := CauseChain(h, e);
    for i := 0 to |chain|
      invariant forall k: nat :: k < i ==> !Decides(h, e, k)
    {
      assert Nth(h, e, i) == Some(chain[i]);
      var x := h[chain[i]];
      if Decides(h, e, i) {
        DeciderIs(h, e, i);
      }
      if AllServicesUnavailable in x.kinds { return 503; }
      if Permission in x.kinds { return 403; }
      if ValueKind in x.kinds { return 400; }
      if NotImplemented in x.kinds { return 501; }
      if x.exactLookup { return 404; }
    }
    NoDecider(h, e, chain);
    for i := 0 to |chain|
      invariant forall k: nat :: k < i ==> !IsBackendFailure(h[chain[k]])
    {
      if IsBackendFailure(h[chain[i]]) {
        assert Nth(h, e, i) == Some(chain[i]);
        assert FailsAt(h, e, i);
        return 502;
      }
    }
    return 500;
  }

  // ---------------------------------------------------------------------------------------
  // _http_error_for
  // ---------------------------------------------------------------------------------------

  /** The test of the walk for one status. */
  predicate Matches(x: Exc, status: int) {
    if status == 404 then x.exactLookup
    else if status == 400 then ValueKind in x.kinds
    else if status == 403 then Permission in x.kinds
    else if status == 501 then NotImplemented in x.kinds
    else AllServicesUnavailable in x.kinds
  }

  lemma {:induction false} SomeBefore(h: Heap, e: nat, n: nat, k: nat)
    requires ValidHeap(h) && e < |h| && Nth(h, e, n).Some? && k <= n
    ensures Nth(h, e, k).Some?
  {
    if k < n {
      SomeBefore(h, e, n - 1, k);
    }
  }

  lemma DeciderMatches(x: Exc, status: int)
    requires StatusOf(x) == Some(status)
    ensures Matches(x, status)
  {
  }

  lemma OnlyDecidersMatch(x: Exc, status: int)
    requires Matches(x, status)
    ensures StatusOf(x).Some?
  {
  }

  /** The walk has no bound of its own; it ends where the status was decided. */
  method FindMatch(h: Heap, e: nat, status: int) returns (found: nat)
    requires ValidHeap(h) && e < |h|
    requires DeciderOf(h, e).Some? && StatusOf(Deciding(h, e)) == Some(status)
    ensures Nth(h, e, DeciderOf(h, e).value) == Some(found)
  {
    ghost var n := DeciderOf(h, e).value;
    assert FirstDecides(h, e, n);
    var cause := Some(e);
    ghost var i := 0;
    while cause.Some? && !Matches(h[cause.value], status)
      invariant 0 <= i <= n && cause == Nth(h, e, i) && cause.Some?
      decreases n - i
    {
      DeciderMatches(h[Nth(h, e, n).value], status);
      cause := h[cause.value].cause;
      i := i + 1;
      SomeBefore(h, e, n, i);
    }
    found := cause.value;
    OnlyDecidersMatch(h[found], status);
    assert Decides(h, e, i);
  }

  datatype HttpError = HttpError(status: int, detail: string)

  /**
   The detail is the message of the very exception that decided the status; a failure no exception
   decides gets a detail that quotes none.
   */
  method HttpErrorFor(h: Heap, e: nat, taskType: string) returns (r: HttpError)
    requires ValidHeap(h) && e < |h|
    ensures DeciderOf(h, e).Some? ==> Some(r.status) == StatusOf(Deciding(h, e)) && r.detail == Deciding(h, e).message
    ensures DeciderOf(h, e).None? ==>
      r == if exists k: nat :: k < 16 && FailsAt(h, e, k)
           then HttpError(502, taskType + ": upstream inference dependency failed")
           else HttpError(500, taskType + ": internal error")
  {
    var status := HttpStatusFor(h, e);
    if status in {400, 403, 404, 501} {
      var found := FindMatch(h, e, status);
      return HttpError(status, h[found].message);
    }
    if status == 503 {
      var found := FindMatch(h, e, status);
      return HttpError(503, h[found].message);
    }
    if status == 502 {
      return HttpError(502, taskType + ": upstream inference dependency failed");
    }
    return HttpError(500, taskType + ": internal error");
  }

  // ---------------------------------------------------------------------------------------
  // The bound of sixteen
  // ---------------------------------------------------------------------------------------

  /** From two equal places the chain goes on alike. */
  lemma {:induction false} ChainRepeats(h: Heap, e: nat, i: nat, j: nat, d: nat)
    requires ValidHeap(h) && e < |h| && Nth(h, e, i) == Nth(h, e, j)
    ensures Nth(h, e, i + d) == Nth(h, e, j + d)
  {
    if d > 0 {
      ChainRepeats(h, e, i, j, d - 1);
      assert Nth(h, e, i + d) == Next(h, Nth(h, e, i + (d - 1)));
      assert Nth(h, e, j + d) == Next(h, Nth(h, e, j + (d - 1)));
    }
  }

  function Next(h: Heap, x: Option<nat>): Option<nat>
    requires x.Some? ==> x.value < |h|
  {
    if x.None? then None else h[x.value].cause
  }

  /** Among the first |h| + 1 places of a chain two hold the same exception. */
  lemma ChainReturns(h: Heap, e: nat, n: nat) returns (i: nat, j: nat)
    requires ValidHeap(h) && e < |h| && Nth(h, e, n).Some? && n >= |h|
    ensures i < j <= |h| && Nth(h, e, i) == Nth(h, e, j)
  {
    var places := seq(|h| + 1, k requires 0 <= k <= |h| => Nth(h, e, k));
    forall k | 0 <= k <= |h|
      ensures Nth(h, e, k).Some?
    {
      SomeBefore(h, e, n, k);
    }
    var found := SomeIndexes(|h|);
    Pigeonhole(places, found);
    i, j :| 0 <= i < j < |places| && places[i] == places[j];
  }

  lemma {:induction false} SomeIndexes(n: nat) returns (s: set<Option<nat>>)
    ensures |s| == n && forall k: nat :: k < n ==> Some(k) in s
    ensures forall x :: x in s ==> x.Some? && x.value < n
  {
    if n == 0 {
      s := {};
    } else {
      var t := SomeIndexes(n - 1);
      s := t + {Some(n - 1)};
    }
  }

  /**
   The bound loses nothing on a chain over at most sixteen exceptions, cyclic or not: whatever decides
   anywhere along it decides within the bound.
   */
  lemma {:induction false} BoundLosesNothing(h: Heap, e: nat, n: nat)
    requires ValidHeap(h) && e < |h| && |h| <= 16 && Decides(h, e, n)
    ensures exists k: nat :: k < 16 && Decides(h, e, k)
    decreases n
  {
    if n >= BOUND {
      var i, j := ChainReturns(h, e, n);
      ChainRepeats(h, e, i, j, n - j);
      BoundLosesNothing(h, e, i + (n - j));
    }
  }
}
