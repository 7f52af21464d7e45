/** What every step of the signing-key cache keeps, and the whole-run promises that follow:
    the limit on outbound fetches and the freshness of every answer. */
module JwksSafety {
  import opened Options
  import opened JwksCache

  // ----- the invariant ------------------------------------------------------------

  /** Times written down lie between the start of their fetch and the present, and a fetch
      starts after everything written down for earlier ones. */
  predicate LogOk(core: Core) {
    && (forall i | 0 <= i < |core.log| :: FetchOk(core.clock, core.log[i]))
    && (forall i, j | 0 <= i < j < |core.log| :: Precedes(core.log[i], core.log[j]))
  }

  predicate FetchOk(clock: real, f: Fetch) {
    && f.start <= clock
    && (f.attemptAt.Some? ==> f.start <= f.attemptAt.value <= clock)
    && (f.stampAt.Some? ==> f.result.Some? && f.start <= f.stampAt.value <= clock)
    && (f.refreshAt.Some? ==> f.forced && f.start <= f.refreshAt.value <= clock)
    && (f.failed ==> f.result.None?)
  }

  predicate Precedes(f: Fetch, g: Fetch) {
    f.start <= g.start && (f.stampAt.Some? ==> f.stampAt.value <= g.start)
  }

  predicate FieldsOk(core: Core) {
    && (core.keys.Some? ==>
          core.keys.value.fetch < |core.log| && core.log[core.keys.value.fetch].result == Some(core.keys.value.keys))
    && (core.keysAt.Some? ==>
          && core.keys.Some? && core.keysAt.value.fetch <= core.keys.value.fetch
          && core.log[core.keysAt.value.fetch].stampAt == Some(core.keysAt.value.at))
    && (core.lastAttempt.Some? ==> AttemptSeen(core, core.lastAttempt.value))
    && (core.lastForced.Some? ==> RefreshSeen(core, core.lastForced.value))
  }

  predicate AttemptSeen(core: Core, at: Timed) {
    at.fetch < |core.log| && core.log[at.fetch].attemptAt == Some(at.at)
  }

  predicate RefreshSeen(core: Core, at: Timed) {
    at.fetch < |core.log| && core.log[at.fetch].refreshAt == Some(at.at)
  }

  /** No published set is lost, or replaced by an older one. */
  predicate KeysKept(core: Core) {
    forall i | 0 <= i < |core.log| && core.log[i].result.Some? :: core.keys.Some? && i <= core.keys.value.fetch
  }

  /** The storm guard: an expiry refetch starts a full cooldown after every earlier fetch,
      and an unknown-kid refresh a full cooldown after every earlier refresh. */
  predicate Spaced(cooldown: real, log: seq<Fetch>) {
    forall i, j | 0 <= i < j < |log| && (!log[j].forced || log[i].forced) :: log[i].start + cooldown <= log[j].start
  }

  predicate CoreOk(cfg: Config, core: Core) {
    LogOk(core) && FieldsOk(core) && KeysKept(core) && Spaced(cfg.cooldown, core.log)
  }

  predicate AttemptGate(core: Core) {
    forall i | 0 <= i < |core.log| :: core.lastAttempt.Some? && core.log[i].start <= core.lastAttempt.value.at
  }

  predicate ForcedGate(core: Core) {
    forall i | 0 <= i < |core.log| && core.log[i].forced ::
      core.lastForced.Some? && core.log[i].start <= core.lastForced.value.at
  }

  predicate AttemptPending(p: Thread) {
    p.InFetch? || p.EndClock? || p.StoreAttempt?
  }

  predicate ForcedPending(p: Thread) {
    || p.ForcedClock? || p.StoreForced?
    || ((p.InFetch? || p.EndClock? || p.StoreAttempt? || p.Publish? || p.StampClock? || p.StoreStamp?) && p.purpose.Forced?)
  }

  /** Both cooldown clocks cover the whole log, except what the thread in the lock has
      started and not yet written down. */
  predicate Gates(core: Core, holder: Thread) {
    && (!AttemptPending(holder) ==> AttemptGate(core))
    && (!ForcedPending(holder) ==> ForcedGate(core))
  }

  /** The reason holds for serving the set of this fetch. */
  predicate Supports(cfg: Config, core: Core, why: Reason, served: nat) {
    why.fetch < |core.log| &&
    match why
    case ByAge(asOf, s) =>
      s <= served && core.log[s].stampAt.Some? && asOf - core.log[s].stampAt.value < cfg.cacheSeconds
    case ByAttempt(asOf, i) =>
      core.log[i].attemptAt.Some? && core.log[i].attemptAt.value <= asOf < core.log[i].attemptAt.value + cfg.cooldown
  }

  predicate During(began: real, t: real, ended: real) { began <= t <= ended }

  /** The refresh a thread saw: recorded during the call or within the cooldown before, and
      any set it delivered is current or already superseded. */
  predicate SightOk(cfg: Config, core: Core, began: real, sight: Sighting) {
    && sight.fetch < |core.log| && core.log[sight.fetch].refreshAt.Some?
    && During(began, sight.asOf, core.clock)
    && (began <= core.log[sight.fetch].refreshAt.value || sight.asOf - core.log[sight.fetch].refreshAt.value < cfg.cooldown)
  }

  predicate CallOk(cfg: Config, core: Core, call: Call) {
    call.began <= core.clock && (call.sight.Some? ==> SightOk(cfg, core, call.began, call.sight.value))
  }

  predicate ReasonOk(cfg: Config, core: Core, call: Call, why: Reason, served: nat) {
    During(call.began, why.asOf, core.clock) && Supports(cfg, core, why, served)
  }

  /** A set is at least as new as the one delivered by the refresh a call has seen. */
  predicate NewEnough(core: Core, call: Call, served: nat) {
    call.sight.Some? && call.sight.value.fetch < |core.log| && core.log[call.sight.value.fetch].result.Some? ==>
      call.sight.value.fetch <= served
  }

  predicate Mine(core: Core, call: Call, purpose: Purpose) {
    && core.log != [] && Latest(core.log).forced == purpose.Forced? && call.began <= Latest(core.log).start
    && Latest(core.log).refreshAt.None?
  }

  /** Nothing has come back from the fetch yet. */
  predicate Untouched(f: Fetch) {
    f.result.None? && f.attemptAt.None? && f.stampAt.None? && !f.failed
  }

  predicate Between(core: Core, now: real) { Latest(core.log).start <= now <= core.clock }

  predicate ThreadOk(cfg: Config, core: Core, p: Thread) {
    (!p.Idle? ==> CallOk(cfg, core, p.call)) &&
    match p
    case Idle => true
    case ReadClock(c) => c.sight.Some? ==> core.keys.Some?
    case CheckFresh(c, now) => During(c.began, now, core.clock)
    case ReturnKeys(c, why) => core.keys.Some? && ReasonOk(cfg, core, c, why, core.keys.value.fetch)
    case ReadAttempt(c) => true
    case CheckCooling(c, last) => last.Some? ==> AttemptSeen(core, last.value)
    case TestStale(c, why) => why.ByAttempt? && ReasonOk(cfg, core, c, why, 0)
    case AwaitLock(c) => true
    case LockedFresh(c) => true
    case LockedCooling(c) => true
    case StartFetch(c, purpose) =>
      forall i | 0 <= i < |core.log| && (!purpose.Forced? || core.log[i].forced) :: core.log[i].start + cfg.cooldown <= core.clock
    case InFetch(c, purpose) => Mine(core, c, purpose) && Untouched(Latest(core.log))
    case EndClock(c, purpose, _) => Mine(core, c, purpose) && Untouched(Latest(core.log))
    case StoreAttempt(c, purpose, _, now) =>
      Mine(core, c, purpose) && Untouched(Latest(core.log)) && Between(core, now)
    case Publish(c, purpose, _) =>
      Mine(core, c, purpose) && !Latest(core.log).failed && Latest(core.log).result.None? && Latest(core.log).stampAt.None?
    case StampClock(c, purpose, keys) =>
      Mine(core, c, purpose) && core.keys == Some(KeySet(keys, Last(core))) && Latest(core.log).stampAt.None?
    case StoreStamp(c, purpose, keys, now) =>
      && Mine(core, c, purpose) && core.keys == Some(KeySet(keys, Last(core))) && Latest(core.log).stampAt.None?
      && Between(core, now)
    case Match(c, served, why) =>
      && served.fetch < |core.log| && core.log[served.fetch].result == Some(served.keys)
      && ReasonOk(cfg, core, c, why, served.fetch) && NewEnough(core, c, served.fetch)
    case ReadForced(c) => core.keys.Some?
    case CheckForced(c, last) => core.keys.Some? && (last.Some? ==> RefreshSeen(core, last.value))
    case AwaitKeyLock(c) => core.keys.Some?
    case KeyLocked(c) => core.keys.Some?
    case KeyLockedCooling(c) => core.keys.Some?
    case LockedMatch(c, why) => core.keys.Some? && ReasonOk(cfg, core, c, why, core.keys.value.fetch)
    case LockedForced(c) => core.keys.Some? && MatchKid(core.keys.value.keys, c.kid).None?
    case ForcedClock(c, fetched) => Mine(core, c, Forced) && FetchedOk(core, c, fetched)
    case StoreForced(c, fetched, now) => Mine(core, c, Forced) && FetchedOk(core, c, fetched) && Between(core, now)
  }

  predicate FetchedOk(core: Core, call: Call, fetched: Option<Stamped>) {
    if fetched.None? then Latest(core.log).failed
    else
      && core.keys == Some(KeySet(fetched.value.keys, Last(core)))
      && Latest(core.log).stampAt == Some(fetched.value.at)
  }

  predicate AnswerOk(cfg: Config, core: Core, a: Answer) {
    During(a.began, a.ended, core.clock) &&
    match a.verdict
    case Found(key, served, why) =>
      && served < |core.log| && core.log[served].result.Some? && key in core.log[served].result.value && key.kid == a.kid
      && During(a.began, why.asOf, a.ended) && Supports(cfg, core, why, served)
    case Unknown(consulted, sight) =>
      && consulted.Some? && consulted.value < |core.log| && core.log[consulted.value].result.Some?
      && (forall k | k in core.log[consulted.value].result.value :: k.kid != a.kid)
      && SightOk(cfg, core, a.began, sight) && sight.asOf <= a.ended
      && (core.log[sight.fetch].result.Some? ==> sight.fetch <= consulted.value)
    case FetchFailed(i) => i < |core.log| && core.log[i].failed && a.began <= core.log[i].start
    case NothingFetchedYet(why) => why.ByAttempt? && During(a.began, why.asOf, a.ended) && Supports(cfg, core, why, 0)
  }

  predicate MutexOk(st: State) {
    && (st.lock.Some? ==> st.lock.value < |st.threads| && Critical(st.threads[st.lock.value]))
    && (forall t | 0 <= t < |st.threads| && Critical(st.threads[t]) :: st.lock == Some(t))
  }

  function Holder(st: State): Thread {
    if st.lock.Some? && st.lock.value < |st.threads| then st.threads[st.lock.value] else Idle
  }

  predicate Inv(cfg: Config, st: State) {
    && CoreOk(cfg, st.core) && MutexOk(st) && Gates(st.core, Holder(st))
    && (forall t | 0 <= t < |st.threads| :: ThreadOk(cfg, st.core, st.threads[t]))
    && (forall i | 0 <= i < |st.answers| :: AnswerOk(cfg, st.core, st.answers[i]))
  }

  // ----- what other threads may rely on -------------------------------------------------

  predicate Kept(f: Fetch, g: Fetch) {
    && f.forced == g.forced && f.start == g.start && (f.failed ==> g.failed)
    && (f.result.Some? ==> g.result == f.result)
    && (f.attemptAt.Some? ==> g.attemptAt == f.attemptAt)
    && (f.stampAt.Some? ==> g.stampAt == f.stampAt)
    && (f.refreshAt.Some? ==> g.refreshAt == f.refreshAt && g.result == f.result)
  }

  /** The verifier moved on: nothing written down is taken back. */
  predicate Grows(a: Core, b: Core) {
    && a.clock <= b.clock && |a.log| <= |b.log|
    && (forall i | 0 <= i < |a.log| :: Kept(a.log[i], b.log[i]))
    && (a.keys.Some? ==> b.keys.Some? && a.keys.value.fetch <= b.keys.value.fetch)
  }

  lemma SupportsStable(cfg: Config, a: Core, b: Core, why: Reason, served: nat, served': nat)
    requires Grows(a, b) && Supports(cfg, a, why, served) && served <= served'
    ensures Supports(cfg, b, why, served')
  {
    assert Kept(a.log[why.fetch], b.log[why.fetch]);
  }

  lemma CallStable(cfg: Config, a: Core, b: Core, call: Call)
    requires Grows(a, b) && CallOk(cfg, a, call)
    ensures CallOk(cfg, b, call)
    ensures forall n: nat | NewEnough(a, call, n) :: NewEnough(b, call, n)
  {
    if call.sight.Some? {
      assert Kept(a.log[call.sight.value.fetch], b.log[call.sight.value.fetch]);
    }
  }

  lemma OpenThreadStable(cfg: Config, a: Core, b: Core, p: Thread)
    requires Grows(a, b) && ThreadOk(cfg, a, p) && !Critical(p)
    ensures ThreadOk(cfg, b, p)
  {
    if !p.Idle? {
      CallStable(cfg, a, b, p.call);
    }
    match p
    case ReturnKeys(c, why) => SupportsStable(cfg, a, b, why, a.keys.value.fetch, b.keys.value.fetch);
    case TestStale(c, why) => SupportsStable(cfg, a, b, why, 0, 0);
    case CheckCooling(c, last) => if last.Some? { assert Kept(a.log[last.value.fetch], b.log[last.value.fetch]); }
    case CheckForced(c, last) => if last.Some? { assert Kept(a.log[last.value.fetch], b.log[last.value.fetch]); }
    case Match(c, served, why) =>
      SupportsStable(cfg, a, b, why, served.fetch, served.fetch);
      assert Kept(a.log[served.fetch], b.log[served.fetch]);
    case _ =>
  }

  lemma AnswerStable(cfg: Config, a: Core, b: Core, ans: Answer)
    requires Grows(a, b) && AnswerOk(cfg, a, ans)
    ensures AnswerOk(cfg, b, ans)
  {
    match ans.verdict
    case Found(key, served, why) =>
      SupportsStable(cfg, a, b, why, served, served);
      assert Kept(a.log[served], b.log[served]);
    case Unknown(consulted, sight) =>
      assert Kept(a.log[consulted.value], b.log[consulted.value]);
      assert Kept(a.log[sight.fetch], b.log[sight.fetch]);
    case FetchFailed(i) => assert Kept(a.log[i], b.log[i]);
    case NothingFetchedYet(why) => SupportsStable(cfg, a, b, why, 0, 0);
  }

  // ----- every step keeps the invariant ---------------------------------------------------

  /** What is left to show of a step once the moving thread is dealt with. */
  lemma Assemble(cfg: Config, st: State, st': State, t: nat)
    requires Inv(cfg, st) && t < |st.threads| == |st'.threads|
    requires forall u | 0 <= u < |st.threads| && u != t :: st'.threads[u] == st.threads[u]
    requires Grows(st.core, st'.core) && CoreOk(cfg, st'.core)
    requires st'.core == st.core || Critical(st.threads[t])
    requires ThreadOk(cfg, st'.core, st'.threads[t])
    requires MutexOk(st') && Gates(st'.core, Holder(st'))
    requires st'.answers == st.answers ||
             (|st'.answers| == |st.answers| + 1 && st'.answers[..|st.answers|] == st.answers &&
              AnswerOk(cfg, st'.core, st'.answers[|st.answers|]))
    ensures Inv(cfg, st')
  {
    forall u | 0 <= u < |st.threads| && u != t
      ensures ThreadOk(cfg, st'.core, st'.threads[u])
    {
      if st'.core != st.core {
        OpenThreadStable(cfg, st.core, st'.core, st.threads[u]);
      }
    }
    forall i | 0 <= i < |st'.answers|
      ensures AnswerOk(cfg, st'.core, st'.answers[i])
    {
      if i < |st.answers| {
        assert st'.answers[i] == st.answers[i];
        AnswerStable(cfg, st.core, st'.core, st.answers[i]);
      }
    }
  }

  lemma GotoKeeps(cfg: Config, st: State, t: nat, p: Thread)
    requires Inv(cfg, st) && t < |st.threads| && !Critical(st.threads[t]) && !Critical(p) && ThreadOk(cfg, st.core, p)
    ensures Inv(cfg, Goto(st, t, p))
  {
    Assemble(cfg, st, Goto(st, t, p), t);
  }

  lemma AcquireKeeps(cfg: Config, st: State, t: nat, p: Thread)
    requires Inv(cfg, st) && t < |st.threads| && st.lock.None? && Critical(p) && !Fetching(p) && ThreadOk(cfg, st.core, p)
    ensures Inv(cfg, Goto(st.(lock := Some(t)), t, p))
  {
    Assemble(cfg, st, Goto(st.(lock := Some(t)), t, p), t);
  }

  lemma ReplyKeeps(cfg: Config, st: State, t: nat, call: Call, verdict: Verdict)
    requires Inv(cfg, st) && t < |st.threads| && !Critical(st.threads[t])
    requires AnswerOk(cfg, st.core, Answer(call.kid, call.began, st.core.clock, verdict))
    ensures Inv(cfg, Reply(st, t, call, verdict))
  {
    Assemble(cfg, st, Reply(st, t, call, verdict), t);
  }

  /** The core after a step of the lock holder. */
  predicate Progress(cfg: Config, st: State, core: Core, t: nat) {
    Inv(cfg, st) && t < |st.threads| && Critical(st.threads[t]) && Grows(st.core, core) && CoreOk(cfg, core)
  }

  lemma StayKeeps(cfg: Config, st: State, core: Core, t: nat, p: Thread)
    requires Progress(cfg, st, core, t) && Critical(p) && ThreadOk(cfg, core, p) && Gates(core, p)
    ensures Inv(cfg, Goto(st.(core := core), t, p))
  {
    Assemble(cfg, st, Goto(st.(core := core), t, p), t);
  }

  lemma LeaveKeeps(cfg: Config, st: State, core: Core, t: nat, p: Thread)
    requires Progress(cfg, st, core, t) && !Critical(p) && ThreadOk(cfg, core, p) && Gates(core, Idle)
    ensures Inv(cfg, Leave(st.(core := core), t, p))
  {
    Assemble(cfg, st, Leave(st.(core := core), t, p), t);
  }

  lemma LeaveAndReplyKeeps(cfg: Config, st: State, core: Core, t: nat, call: Call, verdict: Verdict)
    requires Progress(cfg, st, core, t) && Gates(core, Idle)
    requires AnswerOk(cfg, core, Answer(call.kid, call.began, core.clock, verdict))
    ensures Inv(cfg, LeaveAndReply(st.(core := core), t, call, verdict))
  {
    Assemble(cfg, st, LeaveAndReply(st.(core := core), t, call, verdict), t);
  }

  lemma FreshKeeps(cfg: Config, st: State, t: nat)
    requires Inv(cfg, st) && t < |st.threads|
    requires st.threads[t].ReadClock? || st.threads[t].CheckFresh? || st.threads[t].ReturnKeys?
    ensures Inv(cfg, OpenStep(cfg, st, t))
  {
    var core, p := st.core, st.threads[t];
    assert ThreadOk(cfg, core, p);
    var p' :=
      if p.ReadClock? then CheckFresh(p.call, core.clock)
      else if p.ReturnKeys? then Match(p.call, core.keys.value, p.why)
      else if Fresh(cfg, core, p.now) then ReturnKeys(p.call, ByAge(p.now, core.keysAt.value.fetch))
      else ReadAttempt(p.call);
    GotoKeeps(cfg, st, t, p');
  }

  lemma CoolingKeeps(cfg: Config, st: State, t: nat)
    requires Inv(cfg, st) && t < |st.threads|
    requires st.threads[t].ReadAttempt? || st.threads[t].CheckCooling?
    ensures Inv(cfg, OpenStep(cfg, st, t))
  {
    var core, p := st.core, st.threads[t];
    assert ThreadOk(cfg, core, p);
    if p.CheckCooling? && p.last.Some? {
      assert FetchOk(core.clock, core.log[p.last.value.fetch]);
    }
    var p' :=
      if p.ReadAttempt? then CheckCooling(p.call, core.lastAttempt)
      else if Cooling(core, p.last, cfg.cooldown) then TestStale(p.call, ByAttempt(core.clock, p.last.value.fetch))
      else AwaitLock(p.call);
    GotoKeeps(cfg, st, t, p');
  }

  lemma StaleKeeps(cfg: Config, st: State, t: nat)
    requires Inv(cfg, st) && t < |st.threads| && st.threads[t].TestStale?
    ensures Inv(cfg, OpenStep(cfg, st, t))
  {
    var TestStale(c, why) := st.threads[t];
    assert ThreadOk(cfg, st.core, st.threads[t]);
    if st.core.keys.None? {
      ReplyKeeps(cfg, st, t, c, NothingFetchedYet(why));
    } else {
      SupportsStable(cfg, st.core, st.core, why, 0, st.core.keys.value.fetch);
      GotoKeeps(cfg, st, t, ReturnKeys(c, why));
    }
  }

  lemma ForcedKeeps(cfg: Config, st: State, t: nat)
    requires Inv(cfg, st) && t < |st.threads|
    requires st.threads[t].ReadForced? || st.threads[t].CheckForced?
    ensures Inv(cfg, OpenStep(cfg, st, t))
  {
    var core, p := st.core, st.threads[t];
    assert ThreadOk(cfg, core, p);
    if p.CheckForced? && p.last.Some? {
      assert FetchOk(core.clock, core.log[p.last.value.fetch]);
    }
    var p' :=
      if p.ReadForced? then CheckForced(p.call, core.lastForced)
      else if Cooling(core, p.last, cfg.cooldown)
      then ReadClock(p.call.(sight := Some(Sighting(core.clock, p.last.value.fetch))))
      else AwaitKeyLock(p.call);
    GotoKeeps(cfg, st, t, p');
  }

  lemma MatchKeeps(cfg: Config, st: State, t: nat)
    requires Inv(cfg, st) && t < |st.threads| && st.threads[t].Match?
    ensures Inv(cfg, OpenStep(cfg, st, t))
  {
    var Match(c, served, why) := st.threads[t];
    assert ThreadOk(cfg, st.core, st.threads[t]);
    var key := MatchKid(served.keys, c.kid);
    if key.Some? {
      ReplyKeeps(cfg, st, t, c, Found(key.value, served.fetch, why));
    } else if c.sight.Some? {
      ReplyKeeps(cfg, st, t, c, Unknown(Some(served.fetch), c.sight.value));
    } else {
      GotoKeeps(cfg, st, t, ReadForced(c));
    }
  }

  lemma OpenKeeps(cfg: Config, st: State, t: nat)
    requires cfg.Valid() && Inv(cfg, st) && t < |st.threads| && !Critical(st.threads[t])
    ensures Inv(cfg, OpenStep(cfg, st, t))
  {
    var p := st.threads[t];
    if p.ReadClock? || p.CheckFresh? || p.ReturnKeys? {
      FreshKeeps(cfg, st, t);
    } else if p.ReadAttempt? || p.CheckCooling? {
      CoolingKeeps(cfg, st, t);
    } else if p.TestStale? {
      StaleKeeps(cfg, st, t);
    } else if p.ReadForced? || p.CheckForced? {
      ForcedKeeps(cfg, st, t);
    } else if p.Match? {
      MatchKeeps(cfg, st, t);
    } else if p.AwaitLock? && st.lock.None? {
      assert ThreadOk(cfg, st.core, p);
      AcquireKeeps(cfg, st, t, LockedFresh(p.call));
    } else if p.AwaitKeyLock? && st.lock.None? {
      assert ThreadOk(cfg, st.core, p);
      AcquireKeeps(cfg, st, t, KeyLocked(p.call));
    }
  }

  // ----- the lock holder --------------------------------------------------------------------

  lemma LockedFreshKeeps(cfg: Config, st: State, t: nat)
    requires Inv(cfg, st) && t < |st.threads| && (st.threads[t].LockedFresh? || st.threads[t].KeyLocked?)
    ensures Inv(cfg, LockedStep(cfg, st, t))
  {
    if Fresh(cfg, st.core, st.core.clock) {
      if st.threads[t].LockedFresh? {
        ServeFreshKeeps(cfg, st, t);
      } else {
        MatchFreshKeeps(cfg, st, t);
      }
    } else {
      var p := st.threads[t];
      assert ThreadOk(cfg, st.core, p);
      StayKeeps(cfg, st, st.core, t, if p.LockedFresh? then LockedCooling(p.call) else KeyLockedCooling(p.call));
    }
  }

  /** Within its lifetime the published set may be served. */
  lemma FreshSupports(cfg: Config, core: Core)
    requires FieldsOk(core) && Fresh(cfg, core, core.clock)
    ensures Supports(cfg, core, ByAge(core.clock, core.keysAt.value.fetch), core.keys.value.fetch)
  {
  }

  lemma ServeFreshKeeps(cfg: Config, st: State, t: nat)
    requires Inv(cfg, st) && t < |st.threads| && st.threads[t].LockedFresh? && Fresh(cfg, st.core, st.core.clock)
    ensures Inv(cfg, LockedStep(cfg, st, t))
  {
    assert ThreadOk(cfg, st.core, st.threads[t]);
    FreshSupports(cfg, st.core);
    LeaveKeeps(cfg, st, st.core, t, Match(st.threads[t].call, st.core.keys.value, ByAge(st.core.clock, st.core.keysAt.value.fetch)));
  }

  lemma MatchFreshKeeps(cfg: Config, st: State, t: nat)
    requires Inv(cfg, st) && t < |st.threads| && st.threads[t].KeyLocked? && Fresh(cfg, st.core, st.core.clock)
    ensures Inv(cfg, LockedStep(cfg, st, t))
  {
    assert ThreadOk(cfg, st.core, st.threads[t]);
    FreshSupports(cfg, st.core);
    StayKeeps(cfg, st, st.core, t, LockedMatch(st.threads[t].call, ByAge(st.core.clock, st.core.keysAt.value.fetch)));
  }

  /** Once the attempt clock is not cooling, an expiry refetch keeps its distance. */
  lemma ExpiryMayStart(cfg: Config, core: Core, i: nat)
    requires AttemptGate(core) && !Cooling(core, core.lastAttempt, cfg.cooldown) && i < |core.log|
    ensures core.log[i].start + cfg.cooldown <= core.clock
  {
  }

  lemma AttemptReason(cfg: Config, core: Core, call: Call) returns (why: Reason)
    requires CoreOk(cfg, core) && Cooling(core, core.lastAttempt, cfg.cooldown) && CallOk(cfg, core, call)
    ensures why == ByAttempt(core.clock, core.lastAttempt.value.fetch)
    ensures forall n: nat :: ReasonOk(cfg, core, call, why, n)
  {
    why := ByAttempt(core.clock, core.lastAttempt.value.fetch);
    assert FetchOk(core.clock, core.log[why.fetch]);
  }

  lemma ExpiryKeeps(cfg: Config, st: State, t: nat)
    requires Inv(cfg, st) && t < |st.threads| && (st.threads[t].LockedCooling? || st.threads[t].KeyLockedCooling?)
    requires !Cooling(st.core, st.core.lastAttempt, cfg.cooldown)
    ensures Inv(cfg, LockedStep(cfg, st, t))
  {
    var core, p := st.core, st.threads[t];
    assert ThreadOk(cfg, core, p);
    forall i | 0 <= i < |core.log| ensures core.log[i].start + cfg.cooldown <= core.clock {
      ExpiryMayStart(cfg, core, i);
    }
    StayKeeps(cfg, st, core, t, StartFetch(p.call, if p.LockedCooling? then Expiry else ExpiryInKeyFor));
  }

  lemma ServeStaleKeeps(cfg: Config, st: State, t: nat)
    requires Inv(cfg, st) && t < |st.threads| && st.threads[t].LockedCooling?
    requires Cooling(st.core, st.core.lastAttempt, cfg.cooldown)
    ensures Inv(cfg, LockedStep(cfg, st, t))
  {
    var core, p := st.core, st.threads[t];
    assert ThreadOk(cfg, core, p);
    var why := AttemptReason(cfg, core, p.call);
    if core.keys.None? {
      LeaveAndReplyKeeps(cfg, st, core, t, p.call, NothingFetchedYet(why));
    } else {
      LeaveKeeps(cfg, st, core, t, Match(p.call, core.keys.value, why));
    }
  }

  lemma MatchStaleKeeps(cfg: Config, st: State, t: nat)
    requires Inv(cfg, st) && t < |st.threads| && st.threads[t].KeyLockedCooling?
    requires Cooling(st.core, st.core.lastAttempt, cfg.cooldown)
    ensures Inv(cfg, LockedStep(cfg, st, t))
  {
    var core, p := st.core, st.threads[t];
    assert ThreadOk(cfg, core, p);
    var why := AttemptReason(cfg, core, p.call);
    StayKeeps(cfg, st, core, t, LockedMatch(p.call, why));
  }

  lemma LockedMatchKeeps(cfg: Config, st: State, t: nat)
    requires Inv(cfg, st) && t < |st.threads| && st.threads[t].LockedMatch?
    ensures Inv(cfg, LockedStep(cfg, st, t))
  {
    var core := st.core;
    var LockedMatch(c, why) := st.threads[t];
    assert ThreadOk(cfg, core, st.threads[t]);
    var key := MatchKid(core.keys.value.keys, c.kid);
    if key.Some? {
      LeaveAndReplyKeeps(cfg, st, core, t, c, Found(key.value, core.keys.value.fetch, why));
    } else {
      StayKeeps(cfg, st, core, t, LockedForced(c));
    }
  }

  lemma LockedForcedKeeps(cfg: Config, st: State, t: nat)
    requires Inv(cfg, st) && t < |st.threads| && st.threads[t].LockedForced?
    ensures Inv(cfg, LockedStep(cfg, st, t))
  {
    var core := st.core;
    var LockedForced(c) := st.threads[t];
    assert ThreadOk(cfg, core, st.threads[t]);
    if Cooling(core, core.lastForced, cfg.cooldown) {
      var sight := Sighting(core.clock, core.lastForced.value.fetch);
      assert FetchOk(core.clock, core.log[sight.fetch]);
      LeaveAndReplyKeeps(cfg, st, core, t, c, Unknown(Some(core.keys.value.fetch), sight));
    } else {
      StayKeeps(cfg, st, core, t, StartFetch(c, Forced));
    }
  }

  lemma LockedKeeps(cfg: Config, st: State, t: nat)
    requires Inv(cfg, st) && t < |st.threads| && Critical(st.threads[t]) && !Fetching(st.threads[t])
    ensures Inv(cfg, LockedStep(cfg, st, t))
  {
    var p := st.threads[t];
    if p.LockedFresh? || p.KeyLocked? {
      LockedFreshKeeps(cfg, st, t);
    } else if p.LockedCooling? || p.KeyLockedCooling? {
      if !Cooling(st.core, st.core.lastAttempt, cfg.cooldown) {
        ExpiryKeeps(cfg, st, t);
      } else if p.LockedCooling? {
        ServeStaleKeeps(cfg, st, t);
      } else {
        MatchStaleKeeps(cfg, st, t);
      }
    } else if p.LockedMatch? {
      LockedMatchKeeps(cfg, st, t);
    } else {
      LockedForcedKeeps(cfg, st, t);
    }
  }

  // ----- inside `_fetch_keys` -----------------------------------------------------------------

  /** Writing a time or a result into the record of the fetch in progress. */
  lemma AmendKeeps(cfg: Config, core: Core, f: Fetch, core': Core)
    requires CoreOk(cfg, core) && core.log != [] && Kept(Latest(core.log), f) && FetchOk(core.clock, f)
    requires core'.clock == core.clock && core'.log == Amend(core.log, f)
    requires core'.keys == core.keys || (core'.keys.Some? && core'.keys.value.fetch == Last(core))
    ensures LogOk(core') && Spaced(cfg.cooldown, core'.log) && Grows(core, core')
    ensures Latest(core'.log) == f && Last(core') == Last(core)
    ensures forall i | 0 <= i < Last(core) :: core'.log[i] == core.log[i]
  {
  }

  /** A fetch that has just started. */
  function Launched(core: Core, forced: bool): Core {
    core.(log := core.log + [Fetch(forced, core.clock, false, None, None, None, None)])
  }

  lemma LaunchKeeps(cfg: Config, core: Core, forced: bool)
    requires CoreOk(cfg, core)
    requires forall i | 0 <= i < |core.log| && (!forced || core.log[i].forced) :: core.log[i].start + cfg.cooldown <= core.clock
    ensures CoreOk(cfg, Launched(core, forced)) && Grows(core, Launched(core, forced))
    ensures !forced && ForcedGate(core) ==> ForcedGate(Launched(core, forced))
  {
    assert forall i | 0 <= i < |core.log| :: Launched(core, forced).log[i] == core.log[i];
  }

  lemma StartFetchKeeps(cfg: Config, st: State, t: nat)
    requires Inv(cfg, st) && t < |st.threads| && st.threads[t].StartFetch?
    ensures Inv(cfg, FetchStep(st, t))
  {
    var StartFetch(c, p) := st.threads[t];
    assert ThreadOk(cfg, st.core, st.threads[t]);
    LaunchKeeps(cfg, st.core, p.Forced?);
    var core' := Launched(st.core, p.Forced?);
    CallStable(cfg, st.core, core', c);
    StayKeeps(cfg, st, core', t, InFetch(c, p));
  }

  lemma EndClockKeeps(cfg: Config, st: State, t: nat)
    requires Inv(cfg, st) && t < |st.threads|
    requires st.threads[t].EndClock? || st.threads[t].StampClock? || st.threads[t].ForcedClock?
    ensures Inv(cfg, FetchStep(st, t))
  {
    var core, p := st.core, st.threads[t];
    assert ThreadOk(cfg, core, p);
    assert FetchOk(core.clock, Latest(core.log));
    var p' :=
      if p.EndClock? then StoreAttempt(p.call, p.purpose, p.delivered, core.clock)
      else if p.StampClock? then StoreStamp(p.call, p.purpose, p.keys, core.clock)
      else StoreForced(p.call, p.fetched, core.clock);
    StayKeeps(cfg, st, core, t, p');
  }

  lemma StoreAttemptKeeps(cfg: Config, st: State, t: nat)
    requires Inv(cfg, st) && t < |st.threads| && st.threads[t].StoreAttempt?
    ensures Inv(cfg, FetchStep(st, t))
  {
    var core := st.core;
    var StoreAttempt(c, p, delivered, now) := st.threads[t];
    assert ThreadOk(cfg, core, st.threads[t]);
    var f := Latest(core.log).(attemptAt := Some(now), failed := delivered.None?);
    var core' := core.(lastAttempt := Some(Timed(now, Last(core))), log := Amend(core.log, f));
    AttemptStored(cfg, core, now, delivered.None?, core');
    CallStable(cfg, core, core', c);
    assert !p.Forced? ==> ForcedGate(core');
    if delivered.Some? {
      StayKeeps(cfg, st, core', t, Publish(c, p, delivered.value));
    } else if p.Forced? {
      StayKeeps(cfg, st, core', t, ForcedClock(c, None));
    } else {
      LeaveAndReplyKeeps(cfg, st, core', t, c, FetchFailed(Last(core)));
    }
  }

  lemma AttemptStored(cfg: Config, core: Core, now: real, failed: bool, core': Core)
    requires CoreOk(cfg, core) && core.log != [] && Between(core, now)
    requires Untouched(Latest(core.log))
    requires core' == core.(lastAttempt := Some(Timed(now, Last(core))),
                            log := Amend(core.log, Latest(core.log).(attemptAt := Some(now), failed := failed)))
    ensures CoreOk(cfg, core') && Grows(core, core') && AttemptGate(core')
    ensures ForcedGate(core) ==> ForcedGate(core')
    ensures Latest(core'.log) == Latest(core.log).(attemptAt := Some(now), failed := failed)
  {
    AmendKeeps(cfg, core, Latest(core.log).(attemptAt := Some(now), failed := failed), core');
  }

  lemma PublishKeeps(cfg: Config, st: State, t: nat)
    requires Inv(cfg, st) && t < |st.threads| && st.threads[t].Publish?
    ensures Inv(cfg, FetchStep(st, t))
  {
    var core := st.core;
    var Publish(c, p, keys) := st.threads[t];
    assert ThreadOk(cfg, core, st.threads[t]);
    var core' := core.(keys := Some(KeySet(keys, Last(core))),
                       log := Amend(core.log, Latest(core.log).(result := Some(keys))));
    Published(cfg, core, keys, core');
    CallStable(cfg, core, core', c);
    StayKeeps(cfg, st, core', t, StampClock(c, p, keys));
  }

  lemma Published(cfg: Config, core: Core, keys: seq<Key>, core': Core)
    requires CoreOk(cfg, core) && core.log != []
    requires var f := Latest(core.log); f.result.None? && !f.failed && f.stampAt.None? && f.refreshAt.None?
    requires core' == core.(keys := Some(KeySet(keys, Last(core))),
                            log := Amend(core.log, Latest(core.log).(result := Some(keys))))
    ensures CoreOk(cfg, core') && Grows(core, core')
    ensures AttemptGate(core) ==> AttemptGate(core')
    ensures ForcedGate(core) ==> ForcedGate(core')
    ensures Latest(core'.log) == Latest(core.log).(result := Some(keys))
  {
    AmendKeeps(cfg, core, Latest(core.log).(result := Some(keys)), core');
  }

  lemma StoreStampKeeps(cfg: Config, st: State, t: nat)
    requires cfg.Valid() && Inv(cfg, st) && t < |st.threads| && st.threads[t].StoreStamp?
    ensures Inv(cfg, FetchStep(st, t))
  {
    var core := st.core;
    var StoreStamp(c, p, keys, now) := st.threads[t];
    assert ThreadOk(cfg, core, st.threads[t]);
    var i := Last(core);
    var core' := core.(keysAt := Some(Timed(now, i)), log := Amend(core.log, Latest(core.log).(stampAt := Some(now))));
    StampStored(cfg, core, now, core');
    CallStable(cfg, core, core', c);
    assert Supports(cfg, core', ByAge(now, i), i);
    match p
    case Expiry => LeaveKeeps(cfg, st, core', t, Match(c, KeySet(keys, i), ByAge(now, i)));
    case ExpiryInKeyFor => StayKeeps(cfg, st, core', t, LockedMatch(c, ByAge(now, i)));
    case Forced => StayKeeps(cfg, st, core', t, ForcedClock(c, Some(Stamped(keys, now))));
  }

  lemma StampStored(cfg: Config, core: Core, now: real, core': Core)
    requires CoreOk(cfg, core) && core.log != [] && Between(core, now)
    requires core.keys.Some? && core.keys.value.fetch == Last(core)
    requires Latest(core.log).stampAt.None? && Latest(core.log).refreshAt.None?
    requires core' == core.(keysAt := Some(Timed(now, Last(core))),
                            log := Amend(core.log, Latest(core.log).(stampAt := Some(now))))
    ensures CoreOk(cfg, core') && Grows(core, core')
    ensures AttemptGate(core) ==> AttemptGate(core')
    ensures ForcedGate(core) ==> ForcedGate(core')
    ensures Latest(core'.log) == Latest(core.log).(stampAt := Some(now))
  {
    AmendKeeps(cfg, core, Latest(core.log).(stampAt := Some(now)), core');
  }

  lemma StoreForcedKeeps(cfg: Config, st: State, t: nat)
    requires cfg.Valid() && Inv(cfg, st) && t < |st.threads| && st.threads[t].StoreForced?
    ensures Inv(cfg, FetchStep(st, t))
  {
    var core := st.core;
    var StoreForced(c, fetched, now) := st.threads[t];
    assert ThreadOk(cfg, core, st.threads[t]);
    var i := Last(core);
    var core' := core.(lastForced := Some(Timed(now, i)), log := Amend(core.log, Latest(core.log).(refreshAt := Some(now))));
    RefreshStored(cfg, core, now, core');
    CallStable(cfg, core, core', c);
    assert core'.log[i] == Latest(core'.log);
    assert FetchOk(core.clock, Latest(core.log));
    if fetched.None? {
      LeaveAndReplyKeeps(cfg, st, core', t, c, FetchFailed(i));
    } else {
      var key := MatchKid(fetched.value.keys, c.kid);
      if key.Some? {
        assert Supports(cfg, core', ByAge(fetched.value.at, i), i);
        LeaveAndReplyKeeps(cfg, st, core', t, c, Found(key.value, i, ByAge(fetched.value.at, i)));
      } else {
        LeaveAndReplyKeeps(cfg, st, core', t, c, Unknown(Some(i), Sighting(now, i)));
      }
    }
  }

  lemma RefreshStored(cfg: Config, core: Core, now: real, core': Core)
    requires CoreOk(cfg, core) && core.log != [] && Between(core, now)
    requires Latest(core.log).forced && Latest(core.log).refreshAt.None?
    requires core' == core.(lastForced := Some(Timed(now, Last(core))),
                            log := Amend(core.log, Latest(core.log).(refreshAt := Some(now))))
    ensures CoreOk(cfg, core') && Grows(core, core') && ForcedGate(core')
    ensures AttemptGate(core) ==> AttemptGate(core')
    ensures Latest(core'.log) == Latest(core.log).(refreshAt := Some(now))
  {
    AmendKeeps(cfg, core, Latest(core.log).(refreshAt := Some(now)), core');
  }

  lemma FetchKeeps(cfg: Config, st: State, t: nat)
    requires cfg.Valid() && Inv(cfg, st) && t < |st.threads| && Fetching(st.threads[t])
    ensures Inv(cfg, FetchStep(st, t))
  {
    var p := st.threads[t];
    if p.StartFetch? {
      StartFetchKeeps(cfg, st, t);
    } else if p.EndClock? || p.StampClock? || p.ForcedClock? {
      EndClockKeeps(cfg, st, t);
    } else if p.StoreAttempt? {
      StoreAttemptKeeps(cfg, st, t);
    } else if p.Publish? {
      PublishKeeps(cfg, st, t);
    } else if p.StoreStamp? {
      StoreStampKeeps(cfg, st, t);
    } else if p.StoreForced? {
      StoreForcedKeeps(cfg, st, t);
    }
  }

  lemma ClockKeeps(cfg: Config, a: Core, b: Core, holder: Thread)
    requires CoreOk(cfg, a) && a.clock <= b.clock && b == a.(clock := b.clock) && Gates(a, holder)
    ensures CoreOk(cfg, b) && Grows(a, b) && Gates(b, holder)
  {
    assert forall i | 0 <= i < |b.log| :: FetchOk(a.clock, b.log[i]);
  }

  lemma TickKeeps(cfg: Config, st: State, seconds: real)
    requires Inv(cfg, st) && seconds > 0.0
    ensures Inv(cfg, st.(core := st.core.(clock := st.core.clock + seconds)))
  {
    var core' := st.core.(clock := st.core.clock + seconds);
    ClockKeeps(cfg, st.core, core', Holder(st));
    forall t | 0 <= t < |st.threads| ensures ThreadOk(cfg, core', st.threads[t]) {
      if Critical(st.threads[t]) {
        HolderWaits(cfg, st.core, core', st.threads[t]);
      } else {
        OpenThreadStable(cfg, st.core, core', st.threads[t]);
      }
    }
    forall i | 0 <= i < |st.answers| ensures AnswerOk(cfg, core', st.answers[i]) {
      AnswerStable(cfg, st.core, core', st.answers[i]);
    }
  }

  lemma HolderWaits(cfg: Config, a: Core, b: Core, p: Thread)
    requires Grows(a, b) && b == a.(clock := b.clock) && ThreadOk(cfg, a, p) && Critical(p)
    ensures ThreadOk(cfg, b, p)
  {
    CallStable(cfg, a, b, p.call);
  }

  lemma DeliverKeeps(cfg: Config, st: State, t: nat, delivered: Option<seq<Key>>)
    requires Inv(cfg, st) && t < |st.threads| && st.threads[t].InFetch?
    ensures Inv(cfg, Goto(st, t, EndClock(st.threads[t].call, st.threads[t].purpose, delivered)))
  {
    assert ThreadOk(cfg, st.core, st.threads[t]);
    StayKeeps(cfg, st, st.core, t, EndClock(st.threads[t].call, st.threads[t].purpose, delivered));
  }

  lemma BeginKeeps(cfg: Config, st: State, t: nat, kid: string)
    requires Inv(cfg, st) && t < |st.threads| && st.threads[t].Idle?
    ensures Inv(cfg, Goto(st, t, ReadClock(Call(kid, st.core.clock, None))))
  {
    GotoKeeps(cfg, st, t, ReadClock(Call(kid, st.core.clock, None)));
  }

  lemma RunKeeps(cfg: Config, st: State, t: nat)
    requires cfg.Valid() && Inv(cfg, st) && t < |st.threads|
    ensures Inv(cfg, Step(cfg, st, Run(t)))
  {
    if Fetching(st.threads[t]) {
      FetchKeeps(cfg, st, t);
    } else if Critical(st.threads[t]) {
      LockedKeeps(cfg, st, t);
    } else {
      OpenKeeps(cfg, st, t);
    }
  }

  lemma StepKeeps(cfg: Config, st: State, e: Event)
    requires cfg.Valid() && Inv(cfg, st)
    ensures Inv(cfg, Step(cfg, st, e))
  {
    match e
    case Tick(seconds) => if seconds > 0.0 { TickKeeps(cfg, st, seconds); }
    case Begin(t, kid) => if t < |st.threads| && st.threads[t].Idle? { BeginKeeps(cfg, st, t, kid); }
    case Run(t) => if t < |st.threads| { RunKeeps(cfg, st, t); }
    case Deliver(t, keys) => if t < |st.threads| && st.threads[t].InFetch? { DeliverKeeps(cfg, st, t, Some(keys)); }
    case Fail(t) => if t < |st.threads| && st.threads[t].InFetch? { DeliverKeeps(cfg, st, t, None); }
  }
}
