/** Concrete runs of the signing-key cache, and what they settle: how long after its reading a
    key set may be answered from, and that the storm guard's bound is met. */
module JwksRuns {
  import opened Options
  import opened JwksCache
  import opened JwksSafety
  import opened JwksPromises

  /** One thread can come to stand here. */
  ghost predicate Reachable(cfg: Config, clock: real, st: State) {
    exists events :: After(cfg, Start(1, clock), events) == st
  }

  lemma Takes(cfg: Config, clock: real, st: State, e: Event, st': State)
    requires Reachable(cfg, clock, st) && Step(cfg, st, e) == st'
    ensures Reachable(cfg, clock, st')
  {
    var events :| After(cfg, Start(1, clock), events) == st;
    assert (events + [e])[..|events|] == events;
    assert After(cfg, Start(1, clock), events + [e]) == st';
  }

  /** One thread, at `p`. */
  function Solo(core: Core, lock: Option<nat>, p: Thread, answers: seq<Answer>): State {
    State(core, lock, [p], answers)
  }

  /** A step that moves the one thread. */
  lemma Moves(cfg: Config, clock: real, st: State, e: Event, st': State)
    requires Reachable(cfg, clock, st) && |st.threads| == |st'.threads| == 1
    requires Step(cfg, st, e) == st'.(threads := st.threads[0 := st'.threads[0]])
    ensures Reachable(cfg, clock, st')
  {
    assert st.threads[0 := st'.threads[0]] == st'.threads;
    Takes(cfg, clock, st, e, st');
  }

  /** The same for a step outside the lock, under it, and of a fetch. */
  lemma Opens(cfg: Config, clock: real, core: Core, lock: Option<nat>, p: Thread, answers: seq<Answer>, st': State)
    requires Reachable(cfg, clock, Solo(core, lock, p, answers)) && !Critical(p) && !Fetching(p) && |st'.threads| == 1
    requires OpenStep(cfg, Solo(core, lock, p, answers), 0) == st'.(threads := [p][0 := st'.threads[0]])
    ensures Reachable(cfg, clock, st')
  {
    Moves(cfg, clock, Solo(core, lock, p, answers), Run(0), st');
  }

  lemma Locks(cfg: Config, clock: real, core: Core, lock: Option<nat>, p: Thread, answers: seq<Answer>, st': State)
    requires Reachable(cfg, clock, Solo(core, lock, p, answers)) && Critical(p) && !Fetching(p) && |st'.threads| == 1
    requires LockedStep(cfg, Solo(core, lock, p, answers), 0) == st'.(threads := [p][0 := st'.threads[0]])
    ensures Reachable(cfg, clock, st')
  {
    Moves(cfg, clock, Solo(core, lock, p, answers), Run(0), st');
  }

  lemma Fetches(cfg: Config, clock: real, core: Core, lock: Option<nat>, p: Thread, answers: seq<Answer>, st': State)
    requires Reachable(cfg, clock, Solo(core, lock, p, answers)) && Fetching(p) && |st'.threads| == 1
    requires FetchStep(Solo(core, lock, p, answers), 0) == st'.(threads := [p][0 := st'.threads[0]])
    ensures Reachable(cfg, clock, st')
  {
    Moves(cfg, clock, Solo(core, lock, p, answers), Run(0), st');
  }

  // ----- the first call fetches ------------------------------------------------------------

  /** Before any fetch. */
  function Fresh0(clock: real): Core { Core(clock, None, None, None, None, []) }

  /** While the first fetch is out. */
  function Fetching0(clock: real): Core {
    Core(clock, None, None, None, None, [Fetch(false, clock, false, None, None, None, None)])
  }

  /** Once the first fetch, begun and over at `at`, has delivered `keys`. */
  function Fetched(clock: real, at: real, keys: seq<Key>): Core {
    Core(clock, Some(KeySet(keys, 0)), Some(Timed(at, 0)), Some(Timed(at, 0)), None,
         [Fetch(false, at, false, Some(keys), Some(at), Some(at), None)])
  }

  lemma BeginsFirst(cfg: Config, clock: real, kid: string)
    ensures Reachable(cfg, clock, Solo(Fresh0(clock), None, ReadClock(Call(kid, clock, None)), []))
  {
    assert After(cfg, Start(1, clock), []) == Start(1, clock);
    Moves(cfg, clock, Start(1, clock), Begin(0, kid), Solo(Fresh0(clock), None, ReadClock(Call(kid, clock, None)), []));
  }

  lemma ReadsTheAttempt(cfg: Config, clock: real, kid: string)
    ensures Reachable(cfg, clock, Solo(Fresh0(clock), None, CheckCooling(Call(kid, clock, None), None), []))
  {
    var core, c := Fresh0(clock), Call(kid, clock, None);
    BeginsFirst(cfg, clock, kid);
    Opens(cfg, clock, core, None, ReadClock(c), [], Solo(core, None, CheckFresh(c, clock), []));
    Opens(cfg, clock, core, None, CheckFresh(c, clock), [], Solo(core, None, ReadAttempt(c), []));
    Opens(cfg, clock, core, None, ReadAttempt(c), [], Solo(core, None, CheckCooling(c, None), []));
  }

  lemma TakesTheLock(cfg: Config, clock: real, kid: string)
    ensures Reachable(cfg, clock, Solo(Fresh0(clock), Some(0), LockedFresh(Call(kid, clock, None)), []))
  {
    var core, c := Fresh0(clock), Call(kid, clock, None);
    ReadsTheAttempt(cfg, clock, kid);
    var p := CheckCooling(c, None);
    var q := AwaitLock(c);
    Opens(cfg, clock, core, None, p, [], Solo(core, None, q, []));
    Opens(cfg, clock, core, None, q, [], Solo(core, Some(0), LockedFresh(c), []));
  }

  lemma SendsTheFetch(cfg: Config, clock: real, kid: string)
    ensures Reachable(cfg, clock, Solo(Fetching0(clock), Some(0), InFetch(Call(kid, clock, None), Expiry), []))
  {
    var core, c := Fresh0(clock), Call(kid, clock, None);
    TakesTheLock(cfg, clock, kid);
    Locks(cfg, clock, core, Some(0), LockedFresh(c), [], Solo(core, Some(0), LockedCooling(c), []));
    Locks(cfg, clock, core, Some(0), LockedCooling(c), [], Solo(core, Some(0), StartFetch(c, Expiry), []));
    Fetches(cfg, clock, core, Some(0), StartFetch(c, Expiry), [], Solo(Fetching0(clock), Some(0), InFetch(c, Expiry), []));
  }

  lemma RecordsTheAttempt(cfg: Config, clock: real, kid: string, keys: seq<Key>)
    ensures Reachable(cfg, clock,
              Solo(Core(clock, None, None, Some(Timed(clock, 0)), None, [Fetch(false, clock, false, None, Some(clock), None, None)]),
                   Some(0), Publish(Call(kid, clock, None), Expiry, keys), []))
  {
    var core, c := Fetching0(clock), Call(kid, clock, None);
    var core' := Core(clock, None, None, Some(Timed(clock, 0)), None, [Fetch(false, clock, false, None, Some(clock), None, None)]);
    SendsTheFetch(cfg, clock, kid);
    Moves(cfg, clock, Solo(core, Some(0), InFetch(c, Expiry), []), Deliver(0, keys), Solo(core, Some(0), EndClock(c, Expiry, Some(keys)), []));
    Fetches(cfg, clock, core, Some(0), EndClock(c, Expiry, Some(keys)), [], Solo(core, Some(0), StoreAttempt(c, Expiry, Some(keys), clock), []));
    assert Amend(core.log, Latest(core.log).(attemptAt := Some(clock), failed := false)) == core'.log;
    Fetches(cfg, clock, core, Some(0), StoreAttempt(c, Expiry, Some(keys), clock), [], Solo(core', Some(0), Publish(c, Expiry, keys), []));
  }

  /** Published and not stamped yet. */
  function Published(clock: real, keys: seq<Key>): Core {
    Core(clock, Some(KeySet(keys, 0)), None, Some(Timed(clock, 0)), None, [Fetch(false, clock, false, Some(keys), Some(clock), None, None)])
  }

  lemma PublishesTheSet(cfg: Config, clock: real, kid: string, keys: seq<Key>)
    ensures Reachable(cfg, clock, Solo(Published(clock, keys), Some(0), StampClock(Call(kid, clock, None), Expiry, keys), []))
  {
    var c := Call(kid, clock, None);
    var core := Core(clock, None, None, Some(Timed(clock, 0)), None, [Fetch(false, clock, false, None, Some(clock), None, None)]);
    RecordsTheAttempt(cfg, clock, kid, keys);
    assert Amend(core.log, Latest(core.log).(result := Some(keys))) == Published(clock, keys).log;
    Fetches(cfg, clock, core, Some(0), Publish(c, Expiry, keys), [], Solo(Published(clock, keys), Some(0), StampClock(c, Expiry, keys), []));
  }

  /** The first call holds the set it has just fetched, and the lock is free again. */
  lemma HoldsTheSet(cfg: Config, clock: real, kid: string, keys: seq<Key>)
    ensures Reachable(cfg, clock,
              Solo(Fetched(clock, clock, keys), None, Match(Call(kid, clock, None), KeySet(keys, 0), ByAge(clock, 0)), []))
  {
    var c, core := Call(kid, clock, None), Published(clock, keys);
    PublishesTheSet(cfg, clock, kid, keys);
    Fetches(cfg, clock, core, Some(0), StampClock(c, Expiry, keys), [], Solo(core, Some(0), StoreStamp(c, Expiry, keys, clock), []));
    assert Amend(core.log, Latest(core.log).(stampAt := Some(clock))) == Fetched(clock, clock, keys).log;
    Fetches(cfg, clock, core, Some(0), StoreStamp(c, Expiry, keys, clock), [],
            Solo(Fetched(clock, clock, keys), None, Match(c, KeySet(keys, 0), ByAge(clock, 0)), []));
  }

  /** A pause passes before the thread answers with the key it has found. */
  lemma AnswersAfterPause(cfg: Config, clock: real, now: real, keys: seq<Key>, c: Call, why: Reason, answers: seq<Answer>, pause: real)
    requires Reachable(cfg, clock, Solo(Fetched(now, clock, keys), None, Match(c, KeySet(keys, 0), why), answers))
    requires MatchKid(keys, c.kid).Some? && pause > 0.0
    ensures var a := Answer(c.kid, c.began, now + pause, Found(MatchKid(keys, c.kid).value, 0, why));
            Reachable(cfg, clock, Solo(Fetched(now + pause, clock, keys), None, Idle, answers + [a]))
  {
    var a := Answer(c.kid, c.began, now + pause, Found(MatchKid(keys, c.kid).value, 0, why));
    var p := Match(c, KeySet(keys, 0), why);
    Takes(cfg, clock, Solo(Fetched(now, clock, keys), None, p, answers), Tick(pause), Solo(Fetched(now + pause, clock, keys), None, p, answers));
    Opens(cfg, clock, Fetched(now + pause, clock, keys), None, p, answers, Solo(Fetched(now + pause, clock, keys), None, Idle, answers + [a]));
  }

  lemma OneKey(kid: string)
    ensures MatchKid([Key(kid, "")], kid) == Some(Key(kid, ""))
  {
  }

  // ----- how late an answer may come ---------------------------------------------------------

  /** The set of the answer is current when it is given. */
  predicate CurrentAtReturn(cfg: Config, log: seq<Fetch>, a: Answer)
    requires a.verdict.Found?
  {
    a.verdict.served < |log| && Current(cfg, log, a.verdict.served, a.ended)
  }

  /** How long after the reading that justifies it an answer is given. */
  function Lateness(a: Answer): real
    requires a.verdict.Found?
  {
    a.ended - a.verdict.why.asOf
  }

  function Prolonged(cfg: Config, e: real): Config { Config(cfg.cooldown + e, cfg.cacheSeconds + e) }

  /** Every key found over any run is current at its return, once lifetime and cooldown are
      prolonged by the lateness of the answer. */
  lemma CurrentWithinLateness(cfg: Config, threads: nat, clock: real, events: seq<Event>, a: Answer)
    requires cfg.Valid() && a in After(cfg, Start(threads, clock), events).answers && a.verdict.Found?
    ensures Lateness(a) >= 0.0 && CurrentAtReturn(Prolonged(cfg, Lateness(a)), LogOf(cfg, threads, clock, events), a)
  {
    FoundKeysAreCurrent(cfg, threads, clock, events, a);
    var log, served, asOf := LogOf(cfg, threads, clock, events), a.verdict.served, a.verdict.why.asOf;
    if asOf - (if log[served].stampAt.Some? then log[served].stampAt.value else log[served].start) >= cfg.cacheSeconds {
      var i :| 0 <= i < |log| && log[i].attemptAt.Some? && log[i].attemptAt.value <= asOf < log[i].attemptAt.value + cfg.cooldown;
      assert log[i].attemptAt.value <= a.ended < log[i].attemptAt.value + (cfg.cooldown + Lateness(a));
    }
  }

  lemma LongerStaysCurrent(cfg: Config, log: seq<Fetch>, a: Answer, d: real, e: real)
    requires a.verdict.Found? && d <= e && CurrentAtReturn(Prolonged(cfg, d), log, a)
    ensures CurrentAtReturn(Prolonged(cfg, e), log, a)
  {
    var served := a.verdict.served;
    if a.ended - (if log[served].stampAt.Some? then log[served].stampAt.value else log[served].start) >= cfg.cacheSeconds + d {
      var i :| 0 <= i < |log| && log[i].attemptAt.Some? && log[i].attemptAt.value <= a.ended < log[i].attemptAt.value + (cfg.cooldown + d);
      assert log[i].attemptAt.value <= a.ended < log[i].attemptAt.value + (cfg.cooldown + e);
    }
  }

  /** On every run, an answer that is at most `d` late is current at its return once lifetime
      and cooldown are prolonged by `e`. */
  ghost predicate SafeLateness(cfg: Config, d: real, e: real) {
    forall threads: nat, clock: real, events: seq<Event>, a: Answer |
      a in After(cfg, Start(threads, clock), events).answers && a.verdict.Found? && Lateness(a) <= d ::
      CurrentAtReturn(Prolonged(cfg, e), LogOf(cfg, threads, clock, events), a)
  }

  /** Some run gives this answer from the first set fetched, which is out of date by more
      than `e`. */
  ghost predicate OutOfDate(cfg: Config, e: real, clock: real, a: Answer) {
    && a.verdict.Found? && a.verdict.served == 0
    && exists st :: Reachable(cfg, clock, st) && a in st.answers && |st.core.log| == 1 &&
                    !Current(Prolonged(cfg, e), st.core.log, 0, a.ended)
  }

  /** A call that pauses for lifetime and cooldown after its own fetch. */
  lemma LongPauseIsOutOfDate(cfg: Config, clock: real, kid: string, pause: real) returns (a: Answer)
    requires cfg.Valid() && pause >= cfg.cacheSeconds && pause >= cfg.cooldown
    ensures a.kid == kid && a.began == clock && a.ended == clock + pause && OutOfDate(cfg, 0.0, clock, a)
  {
    var keys := [Key(kid, "")];
    OneKey(kid);
    HoldsTheSet(cfg, clock, kid, keys);
    var c := Call(kid, clock, None);
    AnswersAfterPause(cfg, clock, clock, keys, c, ByAge(clock, 0), [], pause);
    a := Answer(kid, clock, clock + pause, Found(MatchKid(keys, kid).value, 0, ByAge(clock, 0)));
    OldAnswer(cfg, 0.0, clock, clock + pause, keys, [] + [a], a);
  }

  lemma OldAnswer(cfg: Config, e: real, clock: real, now: real, keys: seq<Key>, answers: seq<Answer>, a: Answer)
    requires Reachable(cfg, clock, Solo(Fetched(now, clock, keys), None, Idle, answers))
    requires a in answers && a.verdict.Found? && a.verdict.served == 0
    requires a.ended - clock >= cfg.cacheSeconds + e && a.ended - clock >= cfg.cooldown + e
    ensures OutOfDate(cfg, e, clock, a)
  {
    var st := Solo(Fetched(now, clock, keys), None, Idle, answers);
    assert st.core.log[0].attemptAt == Some(clock) == st.core.log[0].stampAt;
    assert !Current(Prolonged(cfg, e), st.core.log, 0, a.ended);
  }

  /** The first call is over, and some time passes. */
  lemma FirstCallEnds(cfg: Config, clock: real, kid: string, wait: real) returns (answers: seq<Answer>)
    requires wait >= 0.0
    ensures Reachable(cfg, clock, Solo(Fetched(clock + wait, clock, [Key(kid, "")]), None, Idle, answers))
  {
    var keys, first := [Key(kid, "")], Call(kid, clock, None);
    OneKey(kid);
    HoldsTheSet(cfg, clock, kid, keys);
    answers := [Answer(kid, clock, clock, Found(Key(kid, ""), 0, ByAge(clock, 0)))];
    Opens(cfg, clock, Fetched(clock, clock, keys), None, Match(first, KeySet(keys, 0), ByAge(clock, 0)), [],
          Solo(Fetched(clock, clock, keys), None, Idle, answers));
    if wait > 0.0 {
      Takes(cfg, clock, Solo(Fetched(clock, clock, keys), None, Idle, answers), Tick(wait),
            Solo(Fetched(clock + wait, clock, keys), None, Idle, answers));
    }
  }

  /** Then a second one begins. */
  lemma SecondCallBegins(cfg: Config, clock: real, kid: string, wait: real) returns (answers: seq<Answer>)
    requires wait >= 0.0
    ensures Reachable(cfg, clock,
              Solo(Fetched(clock + wait, clock, [Key(kid, "")]), None, CheckFresh(Call(kid, clock + wait, None), clock + wait), answers))
  {
    answers := FirstCallEnds(cfg, clock, kid, wait);
    var now := clock + wait;
    var core, c := Fetched(now, clock, [Key(kid, "")]), Call(kid, now, None);
    Moves(cfg, clock, Solo(core, None, Idle, answers), Begin(0, kid), Solo(core, None, ReadClock(c), answers));
    Opens(cfg, clock, core, None, ReadClock(c), answers, Solo(core, None, CheckFresh(c, now), answers));
  }

  /** While the set is fresh it is served for its age. */
  lemma ServedByAge(cfg: Config, clock: real, core: Core, keys: seq<Key>, c: Call, answers: seq<Answer>)
    requires core == Fetched(core.clock, clock, keys) && core.clock - clock < cfg.cacheSeconds
    requires Reachable(cfg, clock, Solo(core, None, CheckFresh(c, core.clock), answers))
    ensures Reachable(cfg, clock, Solo(core, None, ReturnKeys(c, ByAge(core.clock, 0)), answers))
  {
    Opens(cfg, clock, core, None, CheckFresh(c, core.clock), answers, Solo(core, None, ReturnKeys(c, ByAge(core.clock, 0)), answers));
  }

  /** And after that for the attempt, while it cools down. */
  lemma ServedByAttempt(cfg: Config, clock: real, core: Core, keys: seq<Key>, c: Call, answers: seq<Answer>)
    requires core == Fetched(core.clock, clock, keys) && cfg.cacheSeconds <= core.clock - clock < cfg.cooldown
    requires Reachable(cfg, clock, Solo(core, None, CheckFresh(c, core.clock), answers))
    ensures Reachable(cfg, clock, Solo(core, None, ReturnKeys(c, ByAttempt(core.clock, 0)), answers))
  {
    var last, why := Some(Timed(clock, 0)), ByAttempt(core.clock, 0);
    Opens(cfg, clock, core, None, CheckFresh(c, core.clock), answers, Solo(core, None, ReadAttempt(c), answers));
    Opens(cfg, clock, core, None, ReadAttempt(c), answers, Solo(core, None, CheckCooling(c, last), answers));
    Opens(cfg, clock, core, None, CheckCooling(c, last), answers, Solo(core, None, TestStale(c, why), answers));
    Opens(cfg, clock, core, None, TestStale(c, why), answers, Solo(core, None, ReturnKeys(c, why), answers));
  }

  lemma SecondCallIsServed(cfg: Config, clock: real, kid: string, wait: real) returns (answers: seq<Answer>, why: Reason)
    requires 0.0 <= wait && (wait < cfg.cacheSeconds || wait < cfg.cooldown)
    ensures why.asOf == clock + wait
    ensures Reachable(cfg, clock,
              Solo(Fetched(clock + wait, clock, [Key(kid, "")]), None,
                   Match(Call(kid, clock + wait, None), KeySet([Key(kid, "")], 0), why), answers))
  {
    answers := SecondCallBegins(cfg, clock, kid, wait);
    var keys, now := [Key(kid, "")], clock + wait;
    var core, c := Fetched(now, clock, keys), Call(kid, now, None);
    if wait < cfg.cacheSeconds {
      why := ByAge(now, 0);
      ServedByAge(cfg, clock, core, keys, c, answers);
    } else {
      why := ByAttempt(now, 0);
      ServedByAttempt(cfg, clock, core, keys, c, answers);
    }
    Opens(cfg, clock, core, None, ReturnKeys(c, why), answers, Solo(core, None, Match(c, KeySet(keys, 0), why), answers));
  }

  /** A call served just before the set is past both lifetime and cooldown, and answered as
      late as it may be. */
  lemma LaterThanProlonged(cfg: Config, d: real, e: real) returns (a: Answer)
    requires cfg.Valid() && 0.0 <= e < d
    ensures OutOfDate(cfg, e, 0.0, a) && Lateness(a) == d
  {
    var longer := if cfg.cacheSeconds < cfg.cooldown then cfg.cooldown else cfg.cacheSeconds;
    var wait := if longer < d - e then 0.0 else longer - (d - e);
    var answers, why := SecondCallIsServed(cfg, 0.0, "k", wait);
    var keys, c := [Key("k", "")], Call("k", wait, None);
    OneKey("k");
    AnswersAfterPause(cfg, 0.0, wait, keys, c, why, answers, d);
    a := Answer("k", wait, wait + d, Found(MatchKid(keys, "k").value, 0, why));
    OldAnswer(cfg, e, 0.0, wait + d, keys, answers + [a], a);
  }

  /** Answers at most `d` late are current at their return on every run exactly when lifetime
      and cooldown are prolonged by at least `d`. With nothing added, currency at the return
      is promised for no positive lateness. */
  lemma SafeLatenessIff(cfg: Config, d: real, e: real)
    requires cfg.Valid() && e >= 0.0
    ensures SafeLateness(cfg, d, e) <==> d <= e
  {
    if d <= e {
      forall threads: nat, clock: real, events: seq<Event>, a: Answer |
        a in After(cfg, Start(threads, clock), events).answers && a.verdict.Found? && Lateness(a) <= d
        ensures CurrentAtReturn(Prolonged(cfg, e), LogOf(cfg, threads, clock, events), a)
      {
        CurrentWithinLateness(cfg, threads, clock, events, a);
        LongerStaysCurrent(cfg, LogOf(cfg, threads, clock, events), a, Lateness(a), e);
      }
    } else {
      var a := LaterThanProlonged(cfg, d, e);
      var st :| Reachable(cfg, 0.0, st) && a in st.answers && |st.core.log| == 1 && !Current(Prolonged(cfg, e), st.core.log, 0, a.ended);
      var events :| After(cfg, Start(1, 0.0), events) == st;
      assert LogOf(cfg, 1, 0.0, events) == st.core.log;
      assert !CurrentAtReturn(Prolonged(cfg, e), LogOf(cfg, 1, 0.0, events), a);
    }
  }

  // ----- two fetches in one cooldown -------------------------------------------------------------

  /** The call whose fetch delivers a set without its key goes on to a refresh. */
  lemma FindsNoKey(cfg: Config, clock: real, kid: string)
    ensures Reachable(cfg, clock, Solo(Fetched(clock, clock, []), None, CheckForced(Call(kid, clock, None), None), []))
  {
    var core, c := Fetched(clock, clock, []), Call(kid, clock, None);
    HoldsTheSet(cfg, clock, kid, []);
    Opens(cfg, clock, core, None, Match(c, KeySet([], 0), ByAge(clock, 0)), [], Solo(core, None, ReadForced(c), []));
    Opens(cfg, clock, core, None, ReadForced(c), [], Solo(core, None, CheckForced(c, None), []));
  }

  lemma GoesForTheLock(cfg: Config, clock: real, kid: string)
    ensures Reachable(cfg, clock, Solo(Fetched(clock, clock, []), Some(0), KeyLocked(Call(kid, clock, None)), []))
  {
    var core, c := Fetched(clock, clock, []), Call(kid, clock, None);
    FindsNoKey(cfg, clock, kid);
    Opens(cfg, clock, core, None, CheckForced(c, None), [], Solo(core, None, AwaitKeyLock(c), []));
    Opens(cfg, clock, core, None, AwaitKeyLock(c), [], Solo(core, Some(0), KeyLocked(c), []));
  }

  lemma StillFindsNoKey(cfg: Config, clock: real, kid: string)
    requires cfg.Valid()
    ensures Reachable(cfg, clock, Solo(Fetched(clock, clock, []), Some(0), LockedForced(Call(kid, clock, None)), []))
  {
    var core, c, why := Fetched(clock, clock, []), Call(kid, clock, None), ByAge(clock, 0);
    GoesForTheLock(cfg, clock, kid);
    Locks(cfg, clock, core, Some(0), KeyLocked(c), [], Solo(core, Some(0), LockedMatch(c, why), []));
    Locks(cfg, clock, core, Some(0), LockedMatch(c, why), [], Solo(core, Some(0), LockedForced(c), []));
  }

  /** While the refresh is out. */
  function Refreshing(clock: real): Core {
    Fetched(clock, clock, []).(log := Fetched(clock, clock, []).log + [Fetch(true, clock, false, None, None, None, None)])
  }

  lemma RefreshStarts(cfg: Config, clock: real, kid: string)
    requires cfg.Valid()
    ensures Reachable(cfg, clock, Solo(Refreshing(clock), Some(0), InFetch(Call(kid, clock, None), Forced), []))
  {
    var core, c := Fetched(clock, clock, []), Call(kid, clock, None);
    StillFindsNoKey(cfg, clock, kid);
    Locks(cfg, clock, core, Some(0), LockedForced(c), [], Solo(core, Some(0), StartFetch(c, Forced), []));
    Fetches(cfg, clock, core, Some(0), StartFetch(c, Forced), [], Solo(Refreshing(clock), Some(0), InFetch(c, Forced), []));
  }

  /** The storm guard's bound is met: an expiry refetch and an unknown-kid refresh do start
      within one cooldown. */
  lemma TwoFetchesInOneCooldown(cfg: Config, clock: real) returns (events: seq<Event>)
    requires cfg.Valid() && cfg.cooldown > 0.0
    ensures var log := LogOf(cfg, 1, clock, events);
            StartsIn(log, clock, clock + cfg.cooldown) == 2 == |log| && !log[0].forced && log[1].forced
  {
    RefreshStarts(cfg, clock, "k");
    events :| After(cfg, Start(1, clock), events) == Solo(Refreshing(clock), Some(0), InFetch(Call("k", clock, None), Forced), []);
    var one, two := Fetched(clock, clock, []).log, Refreshing(clock).log;
    assert two[..1] == one && one[..0] == [];
    assert StartsIn(one, clock, clock + cfg.cooldown) == StartsIn([], clock, clock + cfg.cooldown) + 1;
  }
}
