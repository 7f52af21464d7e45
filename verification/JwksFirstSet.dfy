/** "Nothing fetched yet" is said only before the first set: what that answer means over every
    run, and that its opposite is not withheld. */
module JwksFirstSet {
  import opened Options
  import opened JwksCache
  import opened JwksSafety
  import opened JwksPromises

  /** An answer "nothing fetched yet" that no set was stamped before. */
  predicate BeforeStamps(log: seq<Fetch>, a: Answer) {
    a.verdict.NothingFetchedYet? ==> forall i | 0 <= i < |log| :: log[i].stampAt.Some? ==> a.ended <= log[i].stampAt.value
  }

  /** And that none is about to be stamped before. */
  predicate BeforeStampOf(p: Thread, a: Answer) {
    a.verdict.NothingFetchedYet? && p.StoreStamp? ==> a.ended <= p.now
  }

  predicate EarlyAnswer(st: State, a: Answer) {
    && a.ended <= st.core.clock && BeforeStamps(st.core.log, a)
    && forall t | 0 <= t < |st.threads| :: BeforeStampOf(st.threads[t], a)
  }

  predicate Early(st: State) {
    forall i | 0 <= i < |st.answers| :: EarlyAnswer(st, st.answers[i])
  }

  /** While no set is published, none was stamped and none is about to be. */
  lemma NothingStamped(cfg: Config, st: State, a: Answer)
    requires Inv(cfg, st) && st.core.keys.None? && a.ended <= st.core.clock
    ensures EarlyAnswer(st, a)
  {
    forall i | 0 <= i < |st.core.log| ensures st.core.log[i].stampAt.None? {
      assert FetchOk(st.core.clock, st.core.log[i]);
    }
    forall t | 0 <= t < |st.threads| ensures !st.threads[t].StoreStamp? {
      assert ThreadOk(cfg, st.core, st.threads[t]);
    }
  }

  /** Stamps of the first log stay, and a new one is that of a thread about to write it. */
  predicate StampsFrom(log: seq<Fetch>, log': seq<Fetch>, p: Thread) {
    forall i | 0 <= i < |log'| && log'[i].stampAt.Some? ::
      || (i < |log| && log[i].stampAt == log'[i].stampAt)
      || (p.StoreStamp? && log'[i].stampAt.value == p.now)
  }

  /** An earlier answer stays early in a step of one thread. */
  lemma StaysEarly(st: State, st': State, t: nat, a: Answer)
    requires EarlyAnswer(st, a) && t < |st.threads| == |st'.threads| && st.core.clock <= st'.core.clock
    requires st'.threads == st.threads[t := st'.threads[t]] && StampsFrom(st.core.log, st'.core.log, st.threads[t])
    requires st'.threads[t].StoreStamp? ==> st'.threads[t].now == st.core.clock || st'.threads[t] == st.threads[t]
    ensures EarlyAnswer(st', a)
  {
    assert BeforeStampOf(st.threads[t], a);
    forall u | 0 <= u < |st'.threads| ensures BeforeStampOf(st'.threads[u], a) {
      assert BeforeStampOf(st.threads[u], a);
    }
  }

  /** A step that answers nothing, or something else than "nothing fetched yet", or that
      while no set is published. */
  lemma StepStaysEarly(cfg: Config, st: State, st': State, t: nat)
    requires Inv(cfg, st) && Early(st) && t < |st.threads| && st.core.clock == st'.core.clock
    requires |st'.threads| == |st.threads| && st'.threads == st.threads[t := st'.threads[t]]
    requires StampsFrom(st.core.log, st'.core.log, st.threads[t])
    requires st'.threads[t].StoreStamp? ==> st'.threads[t].now == st.core.clock || st'.threads[t] == st.threads[t]
    requires st'.answers == st.answers ||
             (|st'.answers| == |st.answers| + 1 && st'.answers[..|st.answers|] == st.answers &&
              var a := st'.answers[|st.answers|]; a.ended == st.core.clock && (a.verdict.NothingFetchedYet? ==> st.core.keys.None?))
    ensures Early(st')
  {
    forall i | 0 <= i < |st'.answers| ensures EarlyAnswer(st', st'.answers[i]) {
      var a := st'.answers[i];
      if i < |st.answers| {
        assert a == st.answers[i];
        StaysEarly(st, st', t, a);
      } else if a.verdict.NothingFetchedYet? {
        NothingStamped(cfg, st, a);
        StaysEarly(st, st', t, a);
      }
    }
  }

  lemma OpenStaysEarly(cfg: Config, st: State, t: nat)
    requires Inv(cfg, st) && Early(st) && t < |st.threads| && !Critical(st.threads[t])
    ensures Early(OpenStep(cfg, st, t))
  {
    StepStaysEarly(cfg, st, OpenStep(cfg, st, t), t);
  }

  lemma LockedStaysEarly(cfg: Config, st: State, t: nat)
    requires Inv(cfg, st) && Early(st) && t < |st.threads| && Critical(st.threads[t]) && !Fetching(st.threads[t])
    ensures Early(LockedStep(cfg, st, t))
  {
    assert ThreadOk(cfg, st.core, st.threads[t]);
    StepStaysEarly(cfg, st, LockedStep(cfg, st, t), t);
  }

  lemma FetchStaysEarly(cfg: Config, st: State, t: nat)
    requires Inv(cfg, st) && Early(st) && t < |st.threads| && Fetching(st.threads[t])
    ensures Early(FetchStep(st, t))
  {
    StepStaysEarly(cfg, st, FetchStep(st, t), t);
  }

  lemma StaysEarlyInStep(cfg: Config, st: State, e: Event)
    requires cfg.Valid() && Inv(cfg, st) && Early(st)
    ensures Early(Step(cfg, st, e))
  {
    match e
    case Tick(seconds) =>
      forall i | 0 <= i < |st.answers| ensures EarlyAnswer(Step(cfg, st, e), st.answers[i]) {
        assert EarlyAnswer(st, st.answers[i]);
      }
    case Begin(t, kid) => if t < |st.threads| && st.threads[t].Idle? { StepStaysEarly(cfg, st, Step(cfg, st, e), t); }
    case Run(t) =>
      if t < |st.threads| {
        if Fetching(st.threads[t]) {
          FetchStaysEarly(cfg, st, t);
        } else if Critical(st.threads[t]) {
          LockedStaysEarly(cfg, st, t);
        } else {
          OpenStaysEarly(cfg, st, t);
        }
      }
    case Deliver(t, _) => if t < |st.threads| && st.threads[t].InFetch? { StepStaysEarly(cfg, st, Step(cfg, st, e), t); }
    case Fail(t) => if t < |st.threads| && st.threads[t].InFetch? { StepStaysEarly(cfg, st, Step(cfg, st, e), t); }
  }

  lemma {:induction false} EveryRunIsEarly(cfg: Config, threads: nat, clock: real, events: seq<Event>)
    requires cfg.Valid()
    ensures Early(After(cfg, Start(threads, clock), events))
  {
    if events != [] {
      var before := events[..|events| - 1];
      EveryRunIsEarly(cfg, threads, clock, before);
      EveryRunIsSafe(cfg, threads, clock, before);
      StaysEarlyInStep(cfg, After(cfg, Start(threads, clock), before), events[|events| - 1]);
    }
  }

  /** Over every run "nothing fetched yet" is only answered before the first set is stamped:
      once a set is there, no call is told that there is none. */
  lemma NothingMeansNoSet(cfg: Config, threads: nat, clock: real, events: seq<Event>, a: Answer, i: nat)
    requires cfg.Valid() && a in After(cfg, Start(threads, clock), events).answers && a.verdict.NothingFetchedYet?
    requires i < |LogOf(cfg, threads, clock, events)| && LogOf(cfg, threads, clock, events)[i].stampAt.Some?
    ensures a.ended <= LogOf(cfg, threads, clock, events)[i].stampAt.value
  {
    EveryRunIsEarly(cfg, threads, clock, events);
    var st := After(cfg, Start(threads, clock), events);
    var k :| 0 <= k < |st.answers| && st.answers[k] == a;
    assert EarlyAnswer(st, st.answers[k]);
  }

  /** And in a step it is only added while no set is published at all. */
  lemma NothingIsSaidWithoutKeys(cfg: Config, st: State, e: Event)
    requires cfg.Valid() && Inv(cfg, st) && |Step(cfg, st, e).answers| > |st.answers|
    requires Step(cfg, st, e).answers[|st.answers|].verdict.NothingFetchedYet?
    ensures st.core.keys.None?
  {
    assert ThreadOk(cfg, st.core, st.threads[e.thread]);
  }

  /** Of every run: the moment a call is told that nothing was fetched, no set is published. */
  lemma NothingIsTrue(cfg: Config, threads: nat, clock: real, events: seq<Event>, e: Event)
    requires cfg.Valid()
    ensures var before, after := After(cfg, Start(threads, clock), events), After(cfg, Start(threads, clock), events + [e]);
            |after.answers| > |before.answers| && after.answers[|before.answers|].verdict.NothingFetchedYet? ==> before.core.keys.None?
  {
    var before := After(cfg, Start(threads, clock), events);
    assert (events + [e])[..|events|] == events;
    EveryRunIsSafe(cfg, threads, clock, events);
    if |Step(cfg, before, e).answers| > |before.answers| && Step(cfg, before, e).answers[|before.answers|].verdict.NothingFetchedYet? {
      NothingIsSaidWithoutKeys(cfg, before, e);
    }
  }
}
