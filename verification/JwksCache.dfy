/** The signing-key cache of the Access JWT verifier, as threads interleaving over one
    verifier object and one monotone clock. Every clock read, every unlocked read of a
    shared attribute and every write is a step of its own. */
module JwksCache {
  import opened Options

  datatype Key = Key(kid: string, material: string)

  /** `PyJWKClient.match_kid`: the first key that carries the id. */
  function MatchKid(keys: seq<Key>, kid: string): (r: Option<Key>)
    ensures r.Some? ==> r.value in keys && r.value.kid == kid
    ensures r.None? <==> forall k | k in keys :: k.kid != kid
  {
    if keys == [] then None
    else if keys[0].kid == kid then Some(keys[0])
    else MatchKid(keys[1..], kid)
  }

  /** And no key before it carries the id. */
  lemma {:induction false} MatchKidIsFirst(keys: seq<Key>, kid: string) returns (i: nat)
    requires exists k | k in keys :: k.kid == kid
    ensures i < |keys| && MatchKid(keys, kid) == Some(keys[i]) && keys[i].kid == kid
    ensures forall j | 0 <= j < i :: keys[j].kid != kid
  {
    if keys[0].kid == kid {
      i := 0;
    } else {
      assert keys == [keys[0]] + keys[1..];
      var j := MatchKidIsFirst(keys[1..], kid);
      i := j + 1;
    }
  }

  /** The constructor refuses a negative cooldown and a cache lifetime that is not positive. */
  datatype Config = Config(cooldown: real, cacheSeconds: real) {
    predicate Valid() { cooldown >= 0.0 && cacheSeconds > 0.0 }
  }

  // ----- state ---------------------------------------------------------------------

  /** What history keeps of one outbound fetch: why and when it started, what it delivered,
      and the times the verifier wrote down for it. */
  datatype Fetch = Fetch(
    forced: bool, start: real, failed: bool, result: Option<seq<Key>>,
    attemptAt: Option<real>, stampAt: Option<real>, refreshAt: Option<real>)

  /** A time stored in an attribute, with the number of the fetch it was written for. */
  datatype Timed = Timed(at: real, fetch: nat)

  datatype Stamped = Stamped(keys: seq<Key>, at: real)

  datatype KeySet = KeySet(keys: seq<Key>, fetch: nat)

  /** The verifier's attributes, the clock and the history of fetches. */
  datatype Core = Core(
    clock: real, keys: Option<KeySet>, keysAt: Option<Timed>,
    lastAttempt: Option<Timed>, lastForced: Option<Timed>, log: seq<Fetch>)

  /** Why a key set may be served: at `asOf` a set no newer than it was within its lifetime,
      or a fetch attempt had ended less than a cooldown before. */
  datatype Reason = ByAge(asOf: real, fetch: nat) | ByAttempt(asOf: real, fetch: nat)

  /** An unknown-kid refresh that a thread saw recorded, and when it looked. */
  datatype Sighting = Sighting(asOf: real, fetch: nat)

  /** One call of `_key_for`. `sight` is set once the call re-reads the current keys because
      a refresh is cooling down. */
  datatype Call = Call(kid: string, began: real, sight: Option<Sighting>)

  datatype Purpose = Expiry | ExpiryInKeyFor | Forced

  /** Where a thread stands and the locals it holds. */
  datatype Thread =
    | Idle
    // _current_keys, before the lock
    | ReadClock(call: Call)
    | CheckFresh(call: Call, now: real)
    | ReturnKeys(call: Call, why: Reason)
    | ReadAttempt(call: Call)
    | CheckCooling(call: Call, last: Option<Timed>)
    | TestStale(call: Call, why: Reason)
    | AwaitLock(call: Call)
    // _current_keys, holding the lock
    | LockedFresh(call: Call)
    | LockedCooling(call: Call)
    // _fetch_keys, holding the lock
    | StartFetch(call: Call, purpose: Purpose)
    | InFetch(call: Call, purpose: Purpose)
    | EndClock(call: Call, purpose: Purpose, delivered: Option<seq<Key>>)
    | StoreAttempt(call: Call, purpose: Purpose, delivered: Option<seq<Key>>, now: real)
    | Publish(call: Call, purpose: Purpose, keys: seq<Key>)
    | StampClock(call: Call, purpose: Purpose, keys: seq<Key>)
    | StoreStamp(call: Call, purpose: Purpose, keys: seq<Key>, now: real)
    // _key_for, before the lock
    | Match(call: Call, served: KeySet, why: Reason)
    | ReadForced(call: Call)
    | CheckForced(call: Call, last: Option<Timed>)
    | AwaitKeyLock(call: Call)
    // _key_for, holding the lock
    | KeyLocked(call: Call)
    | KeyLockedCooling(call: Call)
    | LockedMatch(call: Call, why: Reason)
    | LockedForced(call: Call)
    | ForcedClock(call: Call, fetched: Option<Stamped>)
    | StoreForced(call: Call, fetched: Option<Stamped>, now: real)

  predicate Critical(p: Thread) {
    p.LockedFresh? || p.LockedCooling? || p.StartFetch? || p.InFetch? || p.EndClock? || p.StoreAttempt? || p.Publish? ||
    p.StampClock? || p.StoreStamp? || p.KeyLocked? || p.KeyLockedCooling? || p.LockedMatch? || p.LockedForced? ||
    p.ForcedClock? || p.StoreForced?
  }

  datatype Verdict =
    | Found(key: Key, served: nat, why: Reason)
    | Unknown(consulted: Option<nat>, sight: Sighting)
    | FetchFailed(fetch: nat)
    | NothingFetchedYet(why: Reason)

  datatype Answer = Answer(kid: string, began: real, ended: real, verdict: Verdict)

  datatype State = State(core: Core, lock: Option<nat>, threads: seq<Thread>, answers: seq<Answer>)

  datatype Event =
    | Tick(seconds: real)
    | Begin(thread: nat, kid: string)
    | Run(thread: nat)
    | Deliver(thread: nat, keys: seq<Key>)
    | Fail(thread: nat)

  // ----- steps ---------------------------------------------------------------------

  predicate Cooling(core: Core, last: Option<Timed>, cooldown: real) {
    last.Some? && core.clock - last.value.at < cooldown
  }

  predicate Fresh(cfg: Config, core: Core, now: real) {
    core.keys.Some? && core.keysAt.Some? && now - core.keysAt.value.at < cfg.cacheSeconds
  }

  function Last(core: Core): nat {
    if core.log == [] then 0 else |core.log| - 1
  }

  function Goto(st: State, t: nat, p: Thread): State
    requires t < |st.threads|
  {
    st.(threads := st.threads[t := p])
  }

  /** Leave the lock and carry on. */
  function Leave(st: State, t: nat, p: Thread): State
    requires t < |st.threads|
  {
    Goto(st.(lock := None), t, p)
  }

  function Reply(st: State, t: nat, call: Call, verdict: Verdict): State
    requires t < |st.threads|
  {
    Goto(st, t, Idle).(answers := st.answers + [Answer(call.kid, call.began, st.core.clock, verdict)])
  }

  function LeaveAndReply(st: State, t: nat, call: Call, verdict: Verdict): State
    requires t < |st.threads|
  {
    Reply(st.(lock := None), t, call, verdict)
  }

  /** One step of a thread outside the lock, or taking it. */
  function OpenStep(cfg: Config, st: State, t: nat): State
    requires t < |st.threads|
  {
    var core := st.core;
    match st.threads[t]
    case ReadClock(c) => Goto(st, t, CheckFresh(c, core.clock))
    case CheckFresh(c, now) =>
      if Fresh(cfg, core, now) then Goto(st, t, ReturnKeys(c, ByAge(now, core.keysAt.value.fetch)))
      else Goto(st, t, ReadAttempt(c))
    case ReturnKeys(c, why) =>
      if core.keys.Some? then Goto(st, t, Match(c, core.keys.value, why)) else st
    case ReadAttempt(c) => Goto(st, t, CheckCooling(c, core.lastAttempt))
    case CheckCooling(c, last) =>
      if Cooling(core, last, cfg.cooldown) then Goto(st, t, TestStale(c, ByAttempt(core.clock, last.value.fetch)))
      else Goto(st, t, AwaitLock(c))
    case TestStale(c, why) =>
      if core.keys.None? then Reply(st, t, c, NothingFetchedYet(why)) else Goto(st, t, ReturnKeys(c, why))
    case AwaitLock(c) =>
      if st.lock.None? then Goto(st.(lock := Some(t)), t, LockedFresh(c)) else st
    case Match(c, served, why) =>
      var key := MatchKid(served.keys, c.kid);
      if key.Some? then Reply(st, t, c, Found(key.value, served.fetch, why))
      else if c.sight.Some? then Reply(st, t, c, Unknown(Some(served.fetch), c.sight.value))
      else Goto(st, t, ReadForced(c))
    case ReadForced(c) => Goto(st, t, CheckForced(c, core.lastForced))
    case CheckForced(c, last) =>
      if Cooling(core, last, cfg.cooldown)
      then Goto(st, t, ReadClock(c.(sight := Some(Sighting(core.clock, last.value.fetch)))))
      else Goto(st, t, AwaitKeyLock(c))
    case AwaitKeyLock(c) =>
      if st.lock.None? then Goto(st.(lock := Some(t)), t, KeyLocked(c)) else st
    case _ => st
  }

  /** One step of the thread that holds the lock, outside `_fetch_keys`. */
  function LockedStep(cfg: Config, st: State, t: nat): State
    requires t < |st.threads|
  {
    var core := st.core;
    match st.threads[t]
    case LockedFresh(c) =>
      if Fresh(cfg, core, core.clock)
      then Leave(st, t, Match(c, core.keys.value, ByAge(core.clock, core.keysAt.value.fetch)))
      else Goto(st, t, LockedCooling(c))
    case LockedCooling(c) =>
      if !Cooling(core, core.lastAttempt, cfg.cooldown) then Goto(st, t, StartFetch(c, Expiry))
      else
        var why := ByAttempt(core.clock, core.lastAttempt.value.fetch);
        if core.keys.None? then LeaveAndReply(st, t, c, NothingFetchedYet(why))
        else Leave(st, t, Match(c, core.keys.value, why))
    case KeyLocked(c) =>
      if Fresh(cfg, core, core.clock) then Goto(st, t, LockedMatch(c, ByAge(core.clock, core.keysAt.value.fetch)))
      else Goto(st, t, KeyLockedCooling(c))
    case KeyLockedCooling(c) =>
      if Cooling(core, core.lastAttempt, cfg.cooldown)
      then Goto(st, t, LockedMatch(c, ByAttempt(core.clock, core.lastAttempt.value.fetch)))
      else Goto(st, t, StartFetch(c, ExpiryInKeyFor))
    case LockedMatch(c, why) =>
      var current := if core.keys.Some? then core.keys.value.keys else [];
      var key := MatchKid(current, c.kid);
      if key.Some? then LeaveAndReply(st, t, c, Found(key.value, core.keys.value.fetch, why))
      else Goto(st, t, LockedForced(c))
    case LockedForced(c) =>
      if Cooling(core, core.lastForced, cfg.cooldown)
      then
        var served := if core.keys.Some? then Some(core.keys.value.fetch) else None;
        LeaveAndReply(st, t, c, Unknown(served, Sighting(core.clock, core.lastForced.value.fetch)))
      else Goto(st, t, StartFetch(c, Forced))
    case _ => st
  }

  /** Writes into the record of the fetch in progress. */
  function Amend(log: seq<Fetch>, f: Fetch): seq<Fetch> {
    if log == [] then log else log[|log| - 1 := f]
  }

  function Latest(log: seq<Fetch>): Fetch {
    if log == [] then Fetch(false, 0.0, false, None, None, None, None) else log[|log| - 1]
  }

  /** What a call that started a refresh answers once it is over. */
  function Outcome(kid: string, fetched: Option<Stamped>, now: real, i: nat): (v: Verdict)
    ensures fetched.None? <==> v.FetchFailed?
    ensures v.FetchFailed? || v.Found? || v.Unknown?
    ensures v.Found? ==> fetched.Some? && v.key in fetched.value.keys && v.key.kid == kid
    ensures v.Unknown? <==> fetched.Some? && forall k | k in fetched.value.keys :: k.kid != kid
  {
    if fetched.None? then FetchFailed(i)
    else
      var key := MatchKid(fetched.value.keys, kid);
      if key.Some? then Found(key.value, i, ByAge(fetched.value.at, i)) else Unknown(Some(i), Sighting(now, i))
  }

  /** One step inside `_fetch_keys`, and of the `finally` around a forced refresh. */
  function FetchStep(st: State, t: nat): State
    requires t < |st.threads|
  {
    var core := st.core;
    var log := core.log;
    var i := Last(core);
    match st.threads[t]
    case StartFetch(c, p) =>
      Goto(st.(core := core.(log := log + [Fetch(p.Forced?, core.clock, false, None, None, None, None)])), t, InFetch(c, p))
    case EndClock(c, p, delivered) => Goto(st, t, StoreAttempt(c, p, delivered, core.clock))
    case StoreAttempt(c, p, delivered, now) =>
      var f := Latest(log).(attemptAt := Some(now), failed := delivered.None?);
      var st' := st.(core := core.(lastAttempt := Some(Timed(now, i)), log := Amend(log, f)));
      if delivered.Some? then Goto(st', t, Publish(c, p, delivered.value))
      else if p.Forced? then Goto(st', t, ForcedClock(c, None))
      else LeaveAndReply(st', t, c, FetchFailed(i))
    case Publish(c, p, keys) =>
      Goto(st.(core := core.(keys := Some(KeySet(keys, i)), log := Amend(log, Latest(log).(result := Some(keys))))), t,
           StampClock(c, p, keys))
    case StampClock(c, p, keys) => Goto(st, t, StoreStamp(c, p, keys, core.clock))
    case StoreStamp(c, p, keys, now) =>
      var st' := st.(core := core.(keysAt := Some(Timed(now, i)), log := Amend(log, Latest(log).(stampAt := Some(now)))));
      (match p
       case Expiry => Leave(st', t, Match(c, KeySet(keys, i), ByAge(now, i)))
       case ExpiryInKeyFor => Goto(st', t, LockedMatch(c, ByAge(now, i)))
       case Forced => Goto(st', t, ForcedClock(c, Some(Stamped(keys, now)))))
    case ForcedClock(c, fetched) => Goto(st, t, StoreForced(c, fetched, core.clock))
    case StoreForced(c, fetched, now) =>
      var st' := st.(core := core.(lastForced := Some(Timed(now, i)), log := Amend(log, Latest(log).(refreshAt := Some(now)))));
      LeaveAndReply(st', t, c, Outcome(c.kid, fetched, now, i))
    case _ => st
  }

  predicate Fetching(p: Thread) {
    p.StartFetch? || p.InFetch? || p.EndClock? || p.StoreAttempt? || p.Publish? || p.StampClock? || p.StoreStamp? ||
    p.ForcedClock? || p.StoreForced?
  }

  /** What one event does. An event that does not apply changes nothing. */
  function Step(cfg: Config, st: State, e: Event): State {
    match e
    case Tick(seconds) => if seconds > 0.0 then st.(core := st.core.(clock := st.core.clock + seconds)) else st
    case Begin(t, kid) =>
      if t < |st.threads| && st.threads[t].Idle? then Goto(st, t, ReadClock(Call(kid, st.core.clock, None))) else st
    case Run(t) =>
      if t >= |st.threads| then st
      else if Fetching(st.threads[t]) then FetchStep(st, t)
      else if Critical(st.threads[t]) then LockedStep(cfg, st, t)
      else OpenStep(cfg, st, t)
    case Deliver(t, keys) =>
      if t < |st.threads| && st.threads[t].InFetch?
      then Goto(st, t, EndClock(st.threads[t].call, st.threads[t].purpose, Some(keys))) else st
    case Fail(t) =>
      if t < |st.threads| && st.threads[t].InFetch?
      then Goto(st, t, EndClock(st.threads[t].call, st.threads[t].purpose, None)) else st
  }

  function Start(n: nat, clock: real): State {
    State(Core(clock, None, None, None, None, []), None, seq(n, _ => Idle), [])
  }

  function After(cfg: Config, st: State, events: seq<Event>): State {
    if events == [] then st
    else Step(cfg, After(cfg, st, events[..|events| - 1]), events[|events| - 1])
  }
}
