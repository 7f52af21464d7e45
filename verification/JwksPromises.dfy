/** The whole-run promises of the signing-key cache. */
module JwksPromises {
  import opened JwksCache
  import opened JwksSafety

  lemma {:induction false} EveryRunIsSafe(cfg: Config, threads: nat, clock: real, events: seq<Event>)
    requires cfg.Valid()
    ensures Inv(cfg, After(cfg, Start(threads, clock), events))
  {
    if events != [] {
      EveryRunIsSafe(cfg, threads, clock, events[..|events| - 1]);
      StepKeeps(cfg, After(cfg, Start(threads, clock), events[..|events| - 1]), events[|events| - 1]);
    }
  }

  function LogOf(cfg: Config, threads: nat, clock: real, events: seq<Event>): seq<Fetch> {
    After(cfg, Start(threads, clock), events).core.log
  }

  lemma EveryLogIsSpaced(cfg: Config, threads: nat, clock: real, events: seq<Event>)
    requires cfg.Valid()
    ensures Spaced(cfg.cooldown, LogOf(cfg, threads, clock, events))
  {
    EveryRunIsSafe(cfg, threads, clock, events);
  }

  // ----- the storm guard ----------------------------------------------------------

  /** How many fetches start in the half-open window [from, to). */
  function StartsIn(log: seq<Fetch>, from: real, to: real): nat {
    if log == [] then 0
    else
      var f := log[|log| - 1];
      StartsIn(log[..|log| - 1], from, to) + if from <= f.start < to then 1 else 0
  }

  lemma {:induction false} NoneStart(log: seq<Fetch>, from: real, to: real)
    requires forall i | 0 <= i < |log| :: !(from <= log[i].start < to)
    ensures StartsIn(log, from, to) == 0
  {
    if log != [] {
      NoneStart(log[..|log| - 1], from, to);
    }
  }

  /** A window of one cooldown that holds no refresh holds at most one fetch. */
  lemma {:induction false} OneExpiryPerCooldown(cooldown: real, log: seq<Fetch>, from: real)
    requires Spaced(cooldown, log)
    requires forall i | 0 <= i < |log| && log[i].forced :: !(from <= log[i].start < from + cooldown)
    ensures StartsIn(log, from, from + cooldown) <= 1
  {
    if log != [] {
      var n := |log| - 1;
      if from <= log[n].start < from + cooldown {
        NoneStart(log[..n], from, from + cooldown);
      } else {
        OneExpiryPerCooldown(cooldown, log[..n], from);
      }
    }
  }

  lemma {:induction false} TwoPerCooldown(cooldown: real, log: seq<Fetch>, from: real)
    requires Spaced(cooldown, log)
    ensures StartsIn(log, from, from + cooldown) <= 2
  {
    if log != [] {
      var n := |log| - 1;
      if !(from <= log[n].start < from + cooldown) {
        TwoPerCooldown(cooldown, log[..n], from);
      } else if log[n].forced {
        OneExpiryPerCooldown(cooldown, log[..n], from);
      } else {
        NoneStart(log[..n], from, from + cooldown);
      }
    }
  }

  lemma {:induction false} WindowsAdd(log: seq<Fetch>, a: real, b: real, c: real)
    requires a <= b <= c
    ensures StartsIn(log, a, c) == StartsIn(log, a, b) + StartsIn(log, b, c)
  {
    if log != [] {
      WindowsAdd(log[..|log| - 1], a, b, c);
    }
  }

  lemma {:induction false} TwoPerCooldowns(cooldown: real, log: seq<Fetch>, from: real, k: nat)
    requires Spaced(cooldown, log) && cooldown >= 0.0
    ensures StartsIn(log, from, from + k as real * cooldown) <= 2 * k
  {
    if k == 0 {
      NoneStart(log, from, from);
    } else {
      var mid := from + (k - 1) as real * cooldown;
      TwoPerCooldowns(cooldown, log, from, k - 1);
      TwoPerCooldown(cooldown, log, mid);
      assert k as real == (k - 1) as real + 1.0;
      assert mid + cooldown == from + k as real * cooldown;
      assert (k - 1) as real * cooldown >= 0.0;
      WindowsAdd(log, from, mid, mid + cooldown);
    }
  }

  /** Two fetches of one window: first an expiry refetch, then an unknown-kid refresh. */
  predicate ExpiryThenRefresh(log: seq<Fetch>, from: real, to: real) {
    forall i, j | 0 <= i < j < |log| && from <= log[i].start && log[j].start < to :: !log[i].forced && log[j].forced
  }

  lemma PairsInAWindow(cooldown: real, log: seq<Fetch>, from: real)
    requires Spaced(cooldown, log)
    ensures ExpiryThenRefresh(log, from, from + cooldown)
  {
  }

  /** At most two fetches start in the window of one cooldown from `from`; when two do, the
      first is an expiry refetch and the second an unknown-kid refresh; `k` cooldowns see at
      most 2k. */
  predicate Guarded(cooldown: real, log: seq<Fetch>, from: real, k: nat) {
    && StartsIn(log, from, from + cooldown) <= 2
    && ExpiryThenRefresh(log, from, from + cooldown)
    && StartsIn(log, from, from + k as real * cooldown) <= 2 * k
  }

  lemma SpacedIsGuarded(cooldown: real, log: seq<Fetch>, from: real, k: nat)
    requires Spaced(cooldown, log) && cooldown >= 0.0
    ensures Guarded(cooldown, log, from, k)
  {
    TwoPerCooldown(cooldown, log, from);
    TwoPerCooldowns(cooldown, log, from, k);
    PairsInAWindow(cooldown, log, from);
  }

  /** The storm guard: whatever the threads, the traffic and the failures. */
  lemma StormGuard(cfg: Config, threads: nat, clock: real, events: seq<Event>, from: real, k: nat)
    requires cfg.Valid()
    ensures Guarded(cfg.cooldown, LogOf(cfg, threads, clock, events), from, k)
  {
    EveryLogIsSpaced(cfg, threads, clock, events);
    SpacedIsGuarded(cfg.cooldown, LogOf(cfg, threads, clock, events), from, k);
  }

  // ----- what an answer means ----------------------------------------------------------

  /** The set was not past its lifetime at the time, or a fetch attempt had ended within the
      cooldown before it. A set not stamped yet ages from the start of its fetch. */
  predicate Current(cfg: Config, log: seq<Fetch>, served: nat, asOf: real)
    requires served < |log|
  {
    || asOf - (if log[served].stampAt.Some? then log[served].stampAt.value else log[served].start) < cfg.cacheSeconds
    || exists i | 0 <= i < |log| ::
         log[i].attemptAt.Some? && log[i].attemptAt.value <= asOf < log[i].attemptAt.value + cfg.cooldown
  }

  lemma SupportedIsCurrent(cfg: Config, core: Core, why: Reason, served: nat)
    requires LogOk(core) && served < |core.log| && Supports(cfg, core, why, served)
    ensures Current(cfg, core.log, served, why.asOf)
  {
    if why.ByAge? && why.fetch < served {
      assert Precedes(core.log[why.fetch], core.log[served]) && FetchOk(core.clock, core.log[served]);
    }
  }

  /** Every key handed out carries the requested id, comes from a set that was fetched, and
      that set was current at some moment of the call. */
  lemma FoundKeysAreCurrent(cfg: Config, threads: nat, clock: real, events: seq<Event>, a: Answer)
    requires cfg.Valid() && a in After(cfg, Start(threads, clock), events).answers && a.verdict.Found?
    ensures var log := After(cfg, Start(threads, clock), events).core.log;
            var Found(key, served, why) := a.verdict;
            && key.kid == a.kid && served < |log| && log[served].result.Some? && key in log[served].result.value
            && a.began <= why.asOf <= a.ended && Current(cfg, log, served, why.asOf)
  {
    EveryRunIsSafe(cfg, threads, clock, events);
    var core := After(cfg, Start(threads, clock), events).core;
    assert AnswerOk(cfg, core, a);
    SupportedIsCurrent(cfg, core, a.verdict.why, a.verdict.served);
  }

  /** "Unknown" is only said when an unknown-kid refresh was recorded during the call or
      within the cooldown before a moment of it, and of a fetched set without that id which
      is no older than what that refresh delivered. */
  lemma UnknownIsChecked(cfg: Config, threads: nat, clock: real, events: seq<Event>, a: Answer)
    requires cfg.Valid() && a in After(cfg, Start(threads, clock), events).answers && a.verdict.Unknown?
    ensures var log := After(cfg, Start(threads, clock), events).core.log;
            var Unknown(consulted, sight) := a.verdict;
            && consulted.Some? && consulted.value < |log| && log[consulted.value].result.Some?
            && (forall key | key in log[consulted.value].result.value :: key.kid != a.kid)
            && sight.fetch < |log| && log[sight.fetch].forced && log[sight.fetch].refreshAt.Some?
            && a.began <= sight.asOf <= a.ended
            && (a.began <= log[sight.fetch].refreshAt.value || sight.asOf - log[sight.fetch].refreshAt.value < cfg.cooldown)
            && (log[sight.fetch].result.Some? ==> sight.fetch <= consulted.value)
  {
    EveryRunIsSafe(cfg, threads, clock, events);
    var core := After(cfg, Start(threads, clock), events).core;
    assert AnswerOk(cfg, core, a);
    assert FetchOk(core.clock, core.log[a.verdict.sight.fetch]);
  }

  /** "Unavailable" is only said by a call whose own fetch failed, or while an attempt that
      ended within the cooldown keeps the next one back. */
  lemma UnavailableIsExplained(cfg: Config, threads: nat, clock: real, events: seq<Event>, a: Answer)
    requires cfg.Valid() && a in After(cfg, Start(threads, clock), events).answers
    requires a.verdict.FetchFailed? || a.verdict.NothingFetchedYet?
    ensures var log := After(cfg, Start(threads, clock), events).core.log;
            if a.verdict.FetchFailed?
            then a.verdict.fetch < |log| && log[a.verdict.fetch].failed && a.began <= log[a.verdict.fetch].start
            else exists i | 0 <= i < |log| :: log[i].attemptAt.Some? && a.ended >= log[i].attemptAt.value &&
                   a.began < log[i].attemptAt.value + cfg.cooldown
  {
    EveryRunIsSafe(cfg, threads, clock, events);
    var core := After(cfg, Start(threads, clock), events).core;
    assert AnswerOk(cfg, core, a);
    if a.verdict.NothingFetchedYet? {
      assert core.log[a.verdict.why.fetch].attemptAt.Some?;
    }
  }

  // ----- a published set ---------------------------------------------------------------

  predicate NotOlder(a: Core, b: Core) {
    a.keys.Some? ==> b.keys.Some? && (b.keys == a.keys || a.keys.value.fetch < b.keys.value.fetch)
  }

  lemma OthersLeaveTheKeys(cfg: Config, st: State, t: nat)
    requires t < |st.threads|
    ensures OpenStep(cfg, st, t).core == st.core
    ensures LockedStep(cfg, st, t).core == st.core
  {
  }

  lemma FetchAdvancesKeys(cfg: Config, st: State, t: nat)
    requires Inv(cfg, st) && t < |st.threads|
    ensures NotOlder(st.core, FetchStep(st, t).core)
  {
    if st.threads[t].Publish? {
      assert ThreadOk(cfg, st.core, st.threads[t]);
    }
  }

  lemma StepAdvancesKeys(cfg: Config, st: State, e: Event)
    requires cfg.Valid() && Inv(cfg, st)
    ensures NotOlder(st.core, Step(cfg, st, e).core)
  {
    if e.Run? && e.thread < |st.threads| {
      OthersLeaveTheKeys(cfg, st, e.thread);
      FetchAdvancesKeys(cfg, st, e.thread);
    }
  }

  lemma NotOlderIsTransitive(a: Core, b: Core, c: Core)
    requires NotOlder(a, b) && NotOlder(b, c)
    ensures NotOlder(a, c)
  {
  }

  lemma OneEventMore(cfg: Config, threads: nat, clock: real, events: seq<Event>, e: Event)
    requires cfg.Valid()
    ensures NotOlder(After(cfg, Start(threads, clock), events).core, After(cfg, Start(threads, clock), events + [e]).core)
  {
    assert (events + [e])[..|events|] == events;
    EveryRunIsSafe(cfg, threads, clock, events);
    StepAdvancesKeys(cfg, After(cfg, Start(threads, clock), events), e);
  }

  /** Over every run, a key set once published is kept until a later fetch replaces it. */
  lemma {:induction false} PublishedSetsAreKept(cfg: Config, threads: nat, clock: real, events: seq<Event>, more: seq<Event>)
    requires cfg.Valid()
    ensures NotOlder(After(cfg, Start(threads, clock), events).core, After(cfg, Start(threads, clock), events + more).core)
  {
    if more == [] {
      assert events + more == events;
    } else {
      var n := |more| - 1;
      assert events + more == events + more[..n] + [more[n]];
      PublishedSetsAreKept(cfg, threads, clock, events, more[..n]);
      OneEventMore(cfg, threads, clock, events + more[..n], more[n]);
      NotOlderIsTransitive(
        After(cfg, Start(threads, clock), events).core,
        After(cfg, Start(threads, clock), events + more[..n]).core,
        After(cfg, Start(threads, clock), events + more).core);
    }
  }
}
