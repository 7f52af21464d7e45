/** Waiting out a database at startup: the walk along an exception's causes, and the retry
    loop readiness depends on. */
module Startup {
  import opened Options
  import opened Sets

  // ----- exceptions ----------------------------------------------------------------------

  /** One exception object: what it links to, by identity, and what the tests ask of it. */
  datatype Fault = Fault(
    orig: Option<nat>,
    cause: Option<nat>,
    context: Option<nat>,
    suppress: bool,
    tls: bool,
    localFile: bool,
    transientKind: bool,
    invalidated: bool)

  /** The objects an exception can lead to, by identity. */
  type Memory = map<nat, Fault>

  /** `orig or __cause__ or context`, the context only where it is not suppressed. */
  function Next(mem: Memory, id: nat): Option<nat> {
    if id !in mem then None
    else
      var f := mem[id];
      var context := if f.suppress then None else f.context;
      var next := if f.orig.Some? then f.orig else if f.cause.Some? then f.cause else context;
      if next.Some? && next.value in mem then next else None
  }

  /** The exception `n` links away. */
  function Nth(mem: Memory, id: nat, n: nat): Option<nat> {
    if n == 0 then if id in mem then Some(id) else None
    else
      var before := Nth(mem, id, n - 1);
      if before.None? then None else Next(mem, before.value)
  }

  ghost predicate Reachable(mem: Memory, id: nat, e: nat) {
    exists n: nat :: Nth(mem, id, n) == Some(e)
  }

  predicate IsPath(mem: Memory, id: nat, chain: seq<nat>) {
    && (forall i | 0 <= i < |chain| :: Nth(mem, id, i) == Some(chain[i]) && chain[i] in mem)
    && (forall i, j | 0 <= i < j < |chain| :: chain[i] != chain[j])
  }

  /** A path that leads nowhere new holds everything reachable. */
  lemma {:induction false} PathIsComplete(mem: Memory, id: nat, chain: seq<nat>, n: nat)
    requires IsPath(mem, id, chain)
    requires var next := Nth(mem, id, |chain|); next.None? || next.value in chain
    ensures Nth(mem, id, n).None? || Nth(mem, id, n).value in chain
  {
    if n >= |chain| && n > 0 {
      PathIsComplete(mem, id, chain, n - 1);
      var before := Nth(mem, id, n - 1);
      if before.Some? {
        var i :| 0 <= i < |chain| && chain[i] == before.value;
        assert Nth(mem, id, i + 1) == Next(mem, before.value);
      }
    }
  }

  lemma Fits(seen: set<nat>, mem: Memory)
    requires seen <= mem.Keys
    ensures |seen| <= |mem|
  {
    SubsetIsSmaller(seen, mem.Keys);
    assert |mem.Keys| == |mem|;
  }

  /** What an exception leads to: the wrapped one, else its cause, else its context unless
      that is suppressed. */
  predicate Leads(f: Fault, e: nat) {
    || f.orig == Some(e)
    || (f.orig == None && f.cause == Some(e))
    || (f.orig == None && f.cause == None && !f.suppress && f.context == Some(e))
  }

  lemma LeadsIsNext(mem: Memory, id: nat, e: nat)
    requires id in mem && e in mem
    ensures Leads(mem[id], e) <==> Next(mem, id) == Some(e)
  {
  }

  lemma PathLeads(mem: Memory, exc: nat, chain: seq<nat>)
    requires IsPath(mem, exc, chain)
    ensures forall i | 0 <= i < |chain| - 1 :: Leads(mem[chain[i]], chain[i + 1])
  {
    forall i | 0 <= i < |chain| - 1 ensures Leads(mem[chain[i]], chain[i + 1]) {
      assert Nth(mem, exc, i) == Some(chain[i]) && Nth(mem, exc, i + 1) == Some(chain[i + 1]);
      LeadsIsNext(mem, chain[i], chain[i + 1]);
    }
  }

  lemma PathGrows(mem: Memory, exc: nat, chain: seq<nat>, e: nat)
    requires IsPath(mem, exc, chain) && Nth(mem, exc, |chain|) == Some(e) && e in mem && e !in chain
    ensures IsPath(mem, exc, chain + [e]) && Nth(mem, exc, |chain + [e]|) == Next(mem, e)
  {
  }

  lemma NextIsStored(mem: Memory, id: nat)
    ensures Next(mem, id).Some? ==> Next(mem, id).value in mem
  {
  }

  lemma LastLeadsBack(mem: Memory, exc: nat, chain: seq<nat>)
    requires IsPath(mem, exc, chain)
    requires var next := Nth(mem, exc, |chain|); next.None? || next.value in chain
    ensures chain != [] ==> forall e | e in mem && Leads(mem[chain[|chain| - 1]], e) :: e in chain
  {
    if chain != [] {
      forall e | e in mem && Leads(mem[chain[|chain| - 1]], e) ensures e in chain {
        assert Nth(mem, exc, |chain|) == Next(mem, chain[|chain| - 1]);
        LeadsIsNext(mem, chain[|chain| - 1], e);
      }
    }
  }

  lemma ChainIsReachable(mem: Memory, exc: nat, chain: seq<nat>)
    requires IsPath(mem, exc, chain)
    requires var next := Nth(mem, exc, |chain|); next.None? || next.value in chain
    ensures forall e :: e in chain <==> Reachable(mem, exc, e)
  {
    forall e ensures e in chain <==> Reachable(mem, exc, e) {
      if e in chain {
        var i :| 0 <= i < |chain| && chain[i] == e;
        assert Nth(mem, exc, i) == Some(e);
      }
      if Reachable(mem, exc, e) {
        var n: nat :| Nth(mem, exc, n) == Some(e);
        PathIsComplete(mem, exc, chain, n);
      }
    }
  }

  /** `_exception_chain`: it ends on cyclic chains too, and lists every reachable exception
      exactly once, in the order of the walk. */
  method ExceptionChain(mem: Memory, exc: nat) returns (chain: seq<nat>)
    ensures IsPath(mem, exc, chain)
    ensures forall e :: e in chain <==> Reachable(mem, exc, e)
    // It starts with the exception, each one leads to the next, and the last to nothing new.
    ensures exc in mem ==> chain != [] && chain[0] == exc
    ensures forall i | 0 <= i < |chain| - 1 :: Leads(mem[chain[i]], chain[i + 1])
    ensures chain != [] ==> forall e | e in mem && Leads(mem[chain[|chain| - 1]], e) :: e in chain
  {
    chain := [];
    var seen: set<nat> := {};
    var current := if exc in mem then Some(exc) else None;
    while current.Some? && current.value !in seen
      invariant IsPath(mem, exc, chain) && current == Nth(mem, exc, |chain|)
      invariant forall e :: e in seen <==> e in chain
      invariant current.Some? ==> current.value in mem
      invariant seen <= mem.Keys && |seen| == |chain|
      decreases |mem| - |seen|
    {
      Fits(seen + {current.value}, mem);
      PathGrows(mem, exc, chain, current.value);
      NextIsStored(mem, current.value);
      seen := seen + {current.value};
      chain := chain + [current.value];
      current := Next(mem, current.value);
    }
    PathLeads(mem, exc, chain);
    LastLeadsBack(mem, exc, chain);
    ChainIsReachable(mem, exc, chain);
  }

  ghost predicate Permanent(mem: Memory, exc: nat) {
    exists e | e in mem :: Reachable(mem, exc, e) && (mem[e].tls || mem[e].localFile)
  }

  ghost predicate Connectivity(mem: Memory, exc: nat) {
    exists e | e in mem :: Reachable(mem, exc, e) && (mem[e].transientKind || mem[e].invalidated)
  }

  /** `_is_transient_database_error`: something reachable is a connectivity failure and
      nothing reachable, however deep, is permanent. */
  method IsTransientDatabaseError(mem: Memory, exc: nat) returns (transient: bool)
    ensures transient <==> Connectivity(mem, exc) && !Permanent(mem, exc)
  {
    var chain := ExceptionChain(mem, exc);
    forall i | 0 <= i < |chain| ensures Reachable(mem, exc, chain[i]) {
      assert chain[i] in chain;
    }
    if exists e | e in chain :: e in mem && (mem[e].tls || mem[e].localFile) {
      return false;
    }
    assert !Permanent(mem, exc);
    for i := 0 to |chain|
      invariant forall j | 0 <= j < i :: !mem[chain[j]].transientKind && !mem[chain[j]].invalidated
    {
      if mem[chain[i]].transientKind {
        return true;
      }
      if mem[chain[i]].invalidated {
        return true;
      }
    }
    forall e | e in mem && Reachable(mem, exc, e) ensures !mem[e].transientKind && !mem[e].invalidated {
      assert e in chain;
    }
    return false;
  }

  // ----- attempts -------------------------------------------------------------------------------

  /** What one of the four startup steps did. */
  datatype StepResult = Passed | Failed(mem: Memory, exc: nat) | Cancelled

  /** `init_db`, the policy check, the column check and the index reconciliation, in order. */
  datatype Attempt = Attempt(init: StepResult, policies: StepResult, column: StepResult, indexes: StepResult)

  /** The first step that did not pass. */
  function Stopped(a: Attempt): StepResult {
    if !a.init.Passed? then a.init
    else if !a.policies.Passed? then a.policies
    else if !a.column.Passed? then a.column
    else a.indexes
  }

  /** It is the first of the four, in the order they run. */
  lemma StoppedIsFirst(a: Attempt) returns (k: nat)
    ensures var results := [a.init, a.policies, a.column, a.indexes];
            && k <= 4 && (forall j | 0 <= j < k :: results[j].Passed?)
            && (if k < 4 then Stopped(a) == results[k] && !results[k].Passed? else Stopped(a).Passed? && AllPassed(a))
  {
    k := if !a.init.Passed? then 0 else if !a.policies.Passed? then 1 else if !a.column.Passed? then 2 else if !a.indexes.Passed? then 3 else 4;
  }

  predicate AllPassed(a: Attempt) {
    a.init.Passed? && a.policies.Passed? && a.column.Passed? && a.indexes.Passed?
  }

  ghost predicate WorthWaiting(a: Attempt) {
    Stopped(a).Failed? && Connectivity(Stopped(a).mem, Stopped(a).exc) && !Permanent(Stopped(a).mem, Stopped(a).exc)
  }

  ghost predicate Deterministic(a: Attempt) {
    Stopped(a).Failed? && !WorthWaiting(a)
  }

  /** The first attempt that was not worth waiting out ends the loop. */
  ghost predicate Decides(attempts: seq<Attempt>, k: nat) {
    k < |attempts| && !WorthWaiting(attempts[k]) && forall j | 0 <= j < k :: WorthWaiting(attempts[j])
  }

  function Power(n: nat): nat { if n == 0 then 1 else 2 * Power(n - 1) }

  const RETRY_MAX_SECONDS: int := 30

  function Delay(attempt: nat): int {
    if Power(attempt) < RETRY_MAX_SECONDS then Power(attempt) else RETRY_MAX_SECONDS
  }

  /** From the fifth attempt on the delay is the cap; before, it doubles. */
  lemma {:induction false} DelayIsCapped(attempt: nat)
    ensures 1 <= Delay(attempt) <= 30 && (Delay(attempt) == 30 <==> attempt >= 5)
    ensures Delay(1) == 2 && (1 <= attempt < 4 ==> Delay(attempt + 1) == 2 * Delay(attempt))
  {
    PowerGrows(attempt);
    PowerGrows(attempt + 1);
    assert Power(1) == 2 * Power(0);
  }

  lemma {:induction false} PowerGrows(n: nat)
    ensures Power(n) >= 1 && (n >= 5 <==> Power(n) >= 32) && (n <= 4 ==> Power(n) <= 16)
  {
    if n > 0 {
      PowerGrows(n - 1);
    }
  }

  const LOOPS: seq<string> := ["outbox recovery", "connector sync", "webhook maintenance"]

  /** The process globals, the delays slept so far, and whether the process exited. `running`
      are the tasks that were created; `creatable` is how many creations succeed before one
      raises, if it is less than three. */
  class ApiProcess {
    const celery: bool
    const creatable: nat
    var bootstrapped: bool
    var inlineTasks: seq<string>
    var running: seq<string>
    var exited: bool
    var slept: seq<int>

    constructor (celery: bool, creatable: nat)
      ensures this.celery == celery && this.creatable == creatable
      ensures !bootstrapped && inlineTasks == [] && running == [] && !exited && slept == []
    {
      this.celery, this.creatable := celery, creatable;
      bootstrapped, inlineTasks, running, exited, slept := false, [], [], false, [];
    }

    /** `asyncio.create_task`; a task runs from its creation on. */
    method CreateTask(name: string) returns (created: bool)
      modifies this`running
      ensures created == (|old(running)| < creatable)
      ensures running == if created then old(running) + [name] else old(running)
    {
      created := |running| < creatable;
      if created {
        running := running + [name];
      }
    }

    /** `_start_inline_loops`; `started` is false where a creation raises. The list is only
        extended once all three exist: loops created before a failing one run unlisted. */
    method StartInlineLoops() returns (started: bool)
      requires running == []
      modifies this`inlineTasks, this`running
      ensures started == (celery || creatable >= |LOOPS|)
      ensures inlineTasks == if celery || !started then old(inlineTasks) else old(inlineTasks) + LOOPS
      ensures running == if celery then [] else if started then LOOPS else LOOPS[..creatable]
    {
      if celery {
        return true;
      }
      started := CreateTask(LOOPS[0]);
      if started {
        started := CreateTask(LOOPS[1]);
      }
      if started {
        started := CreateTask(LOOPS[2]);
      }
      if started {
        inlineTasks := inlineTasks + LOOPS;
      }
    }

    /** `_bootstrap_database`, as far as the given attempts take it; `waiting` says that it
        would go on with another attempt. */
    method BootstrapDatabase(attempts: seq<Attempt>) returns (waiting: bool)
      requires !bootstrapped && inlineTasks == [] && running == [] && !exited && slept == []
      modifies this
      // It goes on exactly while every attempt was worth waiting out, and then nothing starts.
      ensures waiting <==> forall j | 0 <= j < |attempts| :: WorthWaiting(attempts[j])
      ensures waiting ==> !bootstrapped && inlineTasks == [] && running == [] && !exited
      // The process is ready exactly when the deciding attempt passed all four steps and the
      // three loops could be started; only then are loops listed.
      ensures bootstrapped <==>
              (celery || creatable >= |LOOPS|) && exists k | 0 <= k < |attempts| :: Decides(attempts, k) && AllPassed(attempts[k])
      ensures inlineTasks == if bootstrapped && !celery then LOOPS else []
      // A loop that runs is listed, or it was started before one that could not be, and the
      // process exits.
      ensures running == inlineTasks || (exited && creatable < |LOOPS| && running == LOOPS[..creatable])
      // It exits exactly on a failure no waiting repairs, or when the loops cannot be started.
      ensures exited <==> exists k | 0 <= k < |attempts| :: Decides(attempts, k) &&
                            (Deterministic(attempts[k]) || (AllPassed(attempts[k]) && !celery && creatable < |LOOPS|))
      // It slept once after each attempt worth waiting out.
      ensures |slept| <= |attempts| && (waiting ==> |slept| == |attempts|)
      ensures forall j | 0 <= j < |slept| :: WorthWaiting(attempts[j]) && slept[j] == Delay(j + 1)
      ensures |slept| < |attempts| ==> Decides(attempts, |slept|)
    {
      for k := 0 to |attempts|
        invariant !bootstrapped && inlineTasks == [] && running == [] && !exited && |slept| == k
        invariant forall j | 0 <= j < k :: WorthWaiting(attempts[j]) && slept[j] == Delay(j + 1)
      {
        var stopped := Stopped(attempts[k]);
        if stopped.Cancelled? {
          OnlyDecider(attempts, k);
          return false;
        }
        if stopped.Failed? {
          var transient := IsTransientDatabaseError(stopped.mem, stopped.exc);
          if !transient {
            OnlyDecider(attempts, k);
            exited := true;
            return false;
          }
          slept := slept + [Delay(k + 1)];
          continue;
        }
        OnlyDecider(attempts, k);
        bootstrapped := true;
        var started := StartInlineLoops();
        if !started {
          bootstrapped := false;
          exited := true;
        }
        return false;
      }
      return true;
    }
  }

  lemma OnlyDecider(attempts: seq<Attempt>, k: nat)
    requires k < |attempts| && !WorthWaiting(attempts[k]) && forall j | 0 <= j < k :: WorthWaiting(attempts[j])
    ensures Decides(attempts, k) && forall l | 0 <= l < |attempts| :: Decides(attempts, l) ==> l == k
  {
  }
}
