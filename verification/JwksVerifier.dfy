/** The verifier object and its threads, updated in place: each method is one step of the
    code, and leaves the object exactly where the model's step does. */
module JwksVerifier {
  import opened Options
  import opened JwksCache
  import opened JwksSafety

  class AccessJwtVerifier {
    const cfg: Config
    var keys: Option<KeySet>
    var keysAt: Option<Timed>
    var lastFetchAttempt: Option<Timed>
    var lastForcedRefresh: Option<Timed>
    var lock: Option<nat>
    var threads: seq<Thread>
    /** What `time.monotonic()` reads now, and the history of fetches and answers. */
    var clock: real
    var log: seq<Fetch>
    var answers: seq<Answer>

    function View(): State
      reads this
    {
      State(Core(clock, keys, keysAt, lastFetchAttempt, lastForcedRefresh, log), lock, threads, answers)
    }

    constructor (cfg: Config, size: nat, now: real)
      ensures View() == Start(size, now) && this.cfg == cfg
    {
      this.cfg := cfg;
      keys, keysAt, lastFetchAttempt, lastForcedRefresh := None, None, None, None;
      lock, threads, clock, log, answers := None, seq(size, _ => Idle), now, [], [];
    }

    method Goto(t: nat, p: Thread)
      requires t < |threads|
      modifies this`threads
      ensures threads == old(threads)[t := p]
    {
      threads := threads[t := p];
    }

    method Reply(t: nat, call: Call, verdict: Verdict)
      requires t < |threads|
      modifies this`threads, this`answers
      ensures threads == old(threads)[t := Idle]
      ensures answers == old(answers) + [Answer(call.kid, call.began, clock, verdict)]
    {
      answers := answers + [Answer(call.kid, call.began, clock, verdict)];
      Goto(t, Idle);
    }

    /** Writes into the record of the fetch in progress. */
    method Record(f: Fetch)
      modifies this`log
      ensures log == Amend(old(log), f)
    {
      if log != [] {
        log := log[|log| - 1 := f];
      }
    }

    /** Everything but thread `t` is as it was. */
    twostate predicate OnlyThread(t: nat)
      requires t < old(|threads|)
      reads this
    {
      && |threads| == old(|threads|) && clock == old(clock)
      && forall u | 0 <= u < |threads| && u != t :: threads[u] == old(threads)[u]
    }

    twostate predicate SameKeys()
      reads this
    {
      keys == old(keys) && keysAt == old(keysAt)
    }

    /** The call ends with this answer, given now. */
    twostate predicate Answered(t: nat, c: Call, verdict: Verdict)
      reads this
    {
      t < |threads| && threads[t] == Idle && answers == old(answers) + [Answer(c.kid, c.began, clock, verdict)]
    }

    /** No attribute is written and no fetch started; an answer is given exactly where the
        thread comes to rest, and none is taken back. */
    twostate predicate Quiet(t: nat)
      requires t < old(|threads|)
      reads this
    {
      && SameKeys() && SameClocks() && log == old(log) && OnlyThread(t)
      && (threads[t].Idle? ==> |answers| == |old(answers)| + 1 && answers[..|old(answers)|] == old(answers))
      && (!threads[t].Idle? ==> answers == old(answers))
    }

    twostate predicate SameClocks()
      reads this
    {
      lastFetchAttempt == old(lastFetchAttempt) && lastForcedRefresh == old(lastForcedRefresh)
    }

    /** `_keys_at`, the last write of `_fetch_keys`; an expiry refetch then leaves the lock. */
    method WriteStamp(t: nat)
      requires t < |threads| && threads[t].StoreStamp?
      modifies this
      ensures View() == FetchStep(old(View()), t)
      ensures keysAt == Some(Timed(old(threads)[t].now, Last(old(View()).core)))
      ensures keys == old(keys) && SameClocks() && answers == old(answers) && OnlyThread(t)
      ensures lock == if old(threads)[t].purpose.Expiry? then None else old(lock)
      ensures var StoreStamp(c, p, fetched, now) := old(threads)[t];
              var i := Last(old(View()).core);
              threads[t] == match p
                            case Expiry => Match(c, KeySet(fetched, i), ByAge(now, i))
                            case ExpiryInKeyFor => LockedMatch(c, ByAge(now, i))
                            case Forced => ForcedClock(c, Some(Stamped(fetched, now)))
    {
      var i := if log == [] then 0 else |log| - 1;
      var StoreStamp(c, p, fetched, now) := threads[t];
      keysAt := Some(Timed(now, i));
      Record(Latest(log).(stampAt := Some(now)));
      match p
      case Expiry =>
        lock := None;
        Goto(t, Match(c, KeySet(fetched, i), ByAge(now, i)));
      case ExpiryInKeyFor => Goto(t, LockedMatch(c, ByAge(now, i)));
      case Forced => Goto(t, ForcedClock(c, Some(Stamped(fetched, now))));
    }

    method StampRefresh(now: real, i: nat)
      modifies this`lastForcedRefresh, this`log
      ensures lastForcedRefresh == Some(Timed(now, i))
      ensures log == Amend(old(log), Latest(old(log)).(refreshAt := Some(now)))
    {
      lastForcedRefresh := Some(Timed(now, i));
      Record(Latest(log).(refreshAt := Some(now)));
    }

    /** `_last_forced_refresh`, in the `finally` around a forced refresh, and the answer. */
    method WriteForcedRefresh(t: nat) returns (a: Answer)
      requires t < |threads| && threads[t].StoreForced?
      modifies this
      ensures View() == FetchStep(old(View()), t)
      ensures lastForcedRefresh == Some(Timed(old(threads)[t].now, Last(old(View()).core)))
      ensures SameKeys() && lastFetchAttempt == old(lastFetchAttempt) && OnlyThread(t)
      ensures lock == None && threads[t].Idle? && answers == old(answers) + [a]
      ensures var StoreForced(c, fetched, now) := old(threads)[t];
              a == Answer(c.kid, c.began, clock, Outcome(c.kid, fetched, now, Last(old(View()).core)))
    {
      var i := if log == [] then 0 else |log| - 1;
      var StoreForced(c, fetched, now) := threads[t];
      StampRefresh(now, i);
      lock := None;
      a := Answer(c.kid, c.began, clock, Outcome(c.kid, fetched, now, i));
      Reply(t, c, a.verdict);
    }

    /** `_last_fetch_attempt`, in the `finally` of `_fetch_keys`. */
    method WriteAttempt(t: nat)
      requires t < |threads| && threads[t].StoreAttempt?
      modifies this
      ensures View() == FetchStep(old(View()), t)
      ensures lastFetchAttempt == Some(Timed(old(threads)[t].now, Last(old(View()).core)))
      ensures SameKeys() && lastForcedRefresh == old(lastForcedRefresh) && OnlyThread(t)
      ensures var StoreAttempt(c, p, delivered, _) := old(threads)[t];
              if delivered.None? && !p.Forced?
              then lock == None && threads[t].Idle? &&
                   answers == old(answers) + [Answer(c.kid, c.began, clock, FetchFailed(Last(old(View()).core)))]
              else lock == old(lock) && answers == old(answers) &&
                   threads[t] == if delivered.Some? then Publish(c, p, delivered.value) else ForcedClock(c, None)
    {
      var i := if log == [] then 0 else |log| - 1;
      var StoreAttempt(c, p, delivered, now) := threads[t];
      lastFetchAttempt := Some(Timed(now, i));
      Record(Latest(log).(attemptAt := Some(now), failed := delivered.None?));
      if delivered.Some? {
        Goto(t, Publish(c, p, delivered.value));
      } else if p.Forced? {
        Goto(t, ForcedClock(c, None));
      } else {
        lock := None;
        Reply(t, c, FetchFailed(i));
      }
    }

    /** `_keys`, the only write that publishes a set; its stamp is still that of the set before. */
    method WriteKeys(t: nat)
      requires t < |threads| && threads[t].Publish?
      modifies this
      ensures View() == FetchStep(old(View()), t)
      ensures keys == Some(KeySet(old(threads)[t].keys, Last(old(View()).core)))
      ensures keysAt == old(keysAt) && SameClocks() && lock == old(lock) && answers == old(answers) && OnlyThread(t)
      ensures var Publish(c, p, fetched) := old(threads)[t]; threads[t] == StampClock(c, p, fetched)
    {
      var i := if log == [] then 0 else |log| - 1;
      var Publish(c, p, fetched) := threads[t];
      keys := Some(KeySet(fetched, i));
      Record(Latest(log).(result := Some(fetched)));
      Goto(t, StampClock(c, p, fetched));
    }

    /** The outbound request goes out, under the number it has in the history. */
    method BeginFetch(t: nat)
      requires t < |threads| && threads[t].StartFetch?
      modifies this
      ensures View() == FetchStep(old(View()), t)
      ensures SameKeys() && SameClocks() && lock == old(lock) && answers == old(answers) && OnlyThread(t) && Critical(threads[t])
      ensures log == old(log) + [Fetch(old(threads)[t].purpose.Forced?, clock, false, None, None, None, None)]
      ensures var StartFetch(c, p) := old(threads)[t]; threads[t] == InFetch(c, p)
    {
      var StartFetch(c, p) := threads[t];
      log := log + [Fetch(p.Forced?, clock, false, None, None, None, None)];
      Goto(t, InFetch(c, p));
    }

    /** Reading the clock for the write that follows. */
    method ReadTime(t: nat)
      requires t < |threads| && (threads[t].EndClock? || threads[t].StampClock? || threads[t].ForcedClock?)
      modifies this
      ensures View() == FetchStep(old(View()), t)
      ensures SameKeys() && SameClocks() && log == old(log) && lock == old(lock) && answers == old(answers) && OnlyThread(t)
      ensures threads[t] == match old(threads)[t]
                            case EndClock(c, p, delivered) => StoreAttempt(c, p, delivered, clock)
                            case StampClock(c, p, fetched) => StoreStamp(c, p, fetched, clock)
                            case ForcedClock(c, fetched) => StoreForced(c, fetched, clock)
                            case other => other
    {
      match threads[t]
      case EndClock(c, p, delivered) => Goto(t, StoreAttempt(c, p, delivered, clock));
      case StampClock(c, p, fetched) => Goto(t, StoreStamp(c, p, fetched, clock));
      case ForcedClock(c, fetched) => Goto(t, StoreForced(c, fetched, clock));
    }

    /** The writes of `_fetch_keys` and of the `finally` around a forced refresh. Each attribute
        changes in one of them alone. */
    method WriteField(t: nat)
      requires t < |threads| && (threads[t].StoreAttempt? || threads[t].Publish? || threads[t].StoreStamp? || threads[t].StoreForced?)
      modifies this
      ensures View() == FetchStep(old(View()), t)
      ensures OnlyThread(t) && |log| == |old(log)|
      ensures keys != old(keys) ==> old(threads)[t].Publish?
      ensures keysAt != old(keysAt) ==> old(threads)[t].StoreStamp?
      ensures lastFetchAttempt != old(lastFetchAttempt) ==> old(threads)[t].StoreAttempt?
      ensures lastForcedRefresh != old(lastForcedRefresh) ==> old(threads)[t].StoreForced?
      ensures lock == if Critical(threads[t]) then old(lock) else None
    {
      match threads[t]
      case StoreAttempt(_, _, _, _) => WriteAttempt(t);
      case Publish(_, _, _) => WriteKeys(t);
      case StoreStamp(_, _, _, _) => WriteStamp(t);
      case StoreForced(_, _, _) => var _ := WriteForcedRefresh(t);
    }

    /** One statement of `_fetch_keys`, or of that `finally`. */
    method FetchKeys(t: nat)
      requires t < |threads| && Fetching(threads[t])
      modifies this
      ensures View() == FetchStep(old(View()), t)
      ensures OnlyThread(t)
      ensures keys != old(keys) ==> old(threads)[t].Publish?
      ensures keysAt != old(keysAt) ==> old(threads)[t].StoreStamp?
      ensures lastFetchAttempt != old(lastFetchAttempt) ==> old(threads)[t].StoreAttempt?
      ensures lastForcedRefresh != old(lastForcedRefresh) ==> old(threads)[t].StoreForced?
      ensures |log| == |old(log)| + if old(threads)[t].StartFetch? then 1 else 0
      ensures lock == if Critical(threads[t]) then old(lock) else None
    {
      if threads[t].StartFetch? {
        BeginFetch(t);
      } else if threads[t].EndClock? || threads[t].StampClock? || threads[t].ForcedClock? {
        ReadTime(t);
      } else if !threads[t].InFetch? {
        WriteField(t);
      }
    }

    /** The published set was stamped, and less than its lifetime ago. */
    predicate IsFresh(): (yes: bool)
      reads this
      ensures yes ==> keys.Some? && keysAt.Some? && clock < keysAt.value.at + cfg.cacheSeconds
      ensures !yes ==> keys.None? || keysAt.None? || keysAt.value.at + cfg.cacheSeconds <= clock
    {
      keys.Some? && keysAt.Some? && clock - keysAt.value.at < cfg.cacheSeconds
    }

    /** The time was recorded, and less than a cooldown ago. */
    predicate IsCooling(last: Option<Timed>): (yes: bool)
      reads this
      ensures yes ==> last.Some? && clock < last.value.at + cfg.cooldown
      ensures !yes ==> last.None? || last.value.at + cfg.cooldown <= clock
    {
      last.Some? && clock - last.value.at < cfg.cooldown
    }

    /** One statement of `_current_keys` under the lock. Only what is neither fresh nor cooling
        is fetched again. */
    method LockedCurrentKeys(t: nat)
      requires t < |threads| && (threads[t].LockedFresh? || threads[t].LockedCooling?)
      modifies this
      ensures View() == LockedStep(cfg, old(View()), t)
      ensures Quiet(t) && lock == if Critical(threads[t]) then old(lock) else None
      ensures old(threads)[t].LockedFresh? ==>
                var c := old(threads)[t].call;
                threads[t] == if IsFresh() then Match(c, keys.value, ByAge(clock, keysAt.value.fetch)) else LockedCooling(c)
      ensures old(threads)[t].LockedCooling? && !IsCooling(lastFetchAttempt) ==> threads[t] == StartFetch(old(threads)[t].call, Expiry)
      ensures old(threads)[t].LockedCooling? && IsCooling(lastFetchAttempt) ==>
                var c, why := old(threads)[t].call, ByAttempt(clock, lastFetchAttempt.value.fetch);
                if keys.Some? then threads[t] == Match(c, keys.value, why) else Answered(t, c, NothingFetchedYet(why))
    {
      match threads[t]
      case LockedFresh(c) =>
        if IsFresh() {
          lock := None;
          Goto(t, Match(c, keys.value, ByAge(clock, keysAt.value.fetch)));
        } else {
          Goto(t, LockedCooling(c));
        }
      case LockedCooling(c) =>
        if !IsCooling(lastFetchAttempt) {
          Goto(t, StartFetch(c, Expiry));
        } else {
          lock := None;
          var why := ByAttempt(clock, lastFetchAttempt.value.fetch);
          if keys.None? {
            Reply(t, c, NothingFetchedYet(why));
          } else {
            Goto(t, Match(c, keys.value, why));
          }
        }
    }

    /** `_key_for` under the lock, up to its own expiry refetch. */
    method LockedRefetch(t: nat)
      requires t < |threads| && (threads[t].KeyLocked? || threads[t].KeyLockedCooling?)
      modifies this
      ensures View() == LockedStep(cfg, old(View()), t)
      ensures Quiet(t) && lock == old(lock) && Critical(threads[t])
      ensures old(threads)[t].KeyLocked? ==>
                var c := old(threads)[t].call;
                threads[t] == if IsFresh() then LockedMatch(c, ByAge(clock, keysAt.value.fetch)) else KeyLockedCooling(c)
      ensures old(threads)[t].KeyLockedCooling? ==>
                var c := old(threads)[t].call;
                threads[t] == if IsCooling(lastFetchAttempt) then LockedMatch(c, ByAttempt(clock, lastFetchAttempt.value.fetch))
                              else StartFetch(c, ExpiryInKeyFor)
    {
      match threads[t]
      case KeyLocked(c) =>
        if IsFresh() {
          Goto(t, LockedMatch(c, ByAge(clock, keysAt.value.fetch)));
        } else {
          Goto(t, KeyLockedCooling(c));
        }
      case KeyLockedCooling(c) =>
        if IsCooling(lastFetchAttempt) {
          Goto(t, LockedMatch(c, ByAttempt(clock, lastFetchAttempt.value.fetch)));
        } else {
          Goto(t, StartFetch(c, ExpiryInKeyFor));
        }
    }

    /** The key id is checked again in the current set. */
    method LockedKeyFor(t: nat)
      requires t < |threads| && threads[t].LockedMatch?
      modifies this
      ensures View() == LockedStep(cfg, old(View()), t)
      ensures Quiet(t) && lock == if Critical(threads[t]) then old(lock) else None
      ensures keys.Some? ==>
                var LockedMatch(c, why) := old(threads)[t];
                var key := MatchKid(keys.value.keys, c.kid);
                if key.Some? then Answered(t, c, Found(key.value, keys.value.fetch, why)) else threads[t] == LockedForced(c)
    {
      var LockedMatch(c, why) := threads[t];
      var key := MatchKid(if keys.Some? then keys.value.keys else [], c.kid);
      if key.Some? {
        lock := None;
        Reply(t, c, Found(key.value, keys.value.fetch, why));
      } else {
        Goto(t, LockedForced(c));
      }
    }

    /** Only if it is missing there and no refresh is cooling down is a refresh started; with
        one cooling down, a published set without the key makes it unknown. */
    method LockedRefresh(t: nat)
      requires t < |threads| && threads[t].LockedForced?
      modifies this
      ensures View() == LockedStep(cfg, old(View()), t)
      ensures Quiet(t) && lock == if Critical(threads[t]) then old(lock) else None
      ensures !IsCooling(lastForcedRefresh) ==> threads[t] == StartFetch(old(threads)[t].call, Forced)
      ensures IsCooling(lastForcedRefresh) && keys.Some? ==>
                Answered(t, old(threads)[t].call, Unknown(Some(keys.value.fetch), Sighting(clock, lastForcedRefresh.value.fetch)))
    {
      var LockedForced(c) := threads[t];
      if IsCooling(lastForcedRefresh) {
        lock := None;
        var served := if keys.Some? then Some(keys.value.fetch) else None;
        Reply(t, c, Unknown(served, Sighting(clock, lastForcedRefresh.value.fetch)));
      } else {
        Goto(t, StartFetch(c, Forced));
      }
    }

    /** Taking the lock, once it is free; a thread that finds it held waits. */
    method TakeLock(t: nat)
      requires t < |threads| && (threads[t].AwaitLock? || threads[t].AwaitKeyLock?)
      modifies this
      ensures View() == OpenStep(cfg, old(View()), t)
      ensures Quiet(t) && lock == (if old(lock) == None then Some(t) else old(lock))
      ensures old(lock).Some? ==> threads == old(threads)
      ensures old(lock).None? ==>
                threads[t] == if old(threads)[t].AwaitLock? then LockedFresh(old(threads)[t].call) else KeyLocked(old(threads)[t].call)
    {
      if lock.None? {
        var c := threads[t].call;
        var p := if threads[t].AwaitLock? then LockedFresh(c) else KeyLocked(c);
        lock := Some(t);
        Goto(t, p);
      }
    }

    /** The freshness check of `_current_keys` before the lock. */
    method CheckFreshness(t: nat)
      requires t < |threads| && (threads[t].ReadClock? || threads[t].CheckFresh?)
      modifies this
      ensures View() == OpenStep(cfg, old(View()), t)
      ensures Quiet(t) && lock == old(lock) && !Critical(threads[t]) && !threads[t].Idle?
      ensures old(threads)[t].ReadClock? ==> threads[t] == CheckFresh(old(threads)[t].call, clock)
      ensures old(threads)[t].CheckFresh? ==>
                var CheckFresh(c, now) := old(threads)[t];
                threads[t] == if keys.Some? && keysAt.Some? && now - keysAt.value.at < cfg.cacheSeconds
                              then ReturnKeys(c, ByAge(now, keysAt.value.fetch)) else ReadAttempt(c)
    {
      match threads[t]
      case ReadClock(c) => Goto(t, CheckFresh(c, clock));
      case CheckFresh(c, now) =>
        if keys.Some? && keysAt.Some? && now - keysAt.value.at < cfg.cacheSeconds {
          Goto(t, ReturnKeys(c, ByAge(now, keysAt.value.fetch)));
        } else {
          Goto(t, ReadAttempt(c));
        }
    }

    /** Its cooldown check: where an attempt is cooling down, nothing waits for the lock. */
    method CheckAttempt(t: nat)
      requires t < |threads| && (threads[t].ReadAttempt? || threads[t].CheckCooling?)
      modifies this
      ensures View() == OpenStep(cfg, old(View()), t)
      ensures Quiet(t) && lock == old(lock) && !Critical(threads[t]) && !threads[t].Idle?
      ensures old(threads)[t].ReadAttempt? ==> threads[t] == CheckCooling(old(threads)[t].call, lastFetchAttempt)
      ensures old(threads)[t].CheckCooling? ==>
                var CheckCooling(c, last) := old(threads)[t];
                threads[t] == if IsCooling(last) then TestStale(c, ByAttempt(clock, last.value.fetch)) else AwaitLock(c)
    {
      match threads[t]
      case ReadAttempt(c) => Goto(t, CheckCooling(c, lastFetchAttempt));
      case CheckCooling(c, last) =>
        if IsCooling(last) {
          Goto(t, TestStale(c, ByAttempt(clock, last.value.fetch)));
        } else {
          Goto(t, AwaitLock(c));
        }
    }

    /** Its two ways out before the lock: the set as it is now, or the exception where there
        is none. */
    method ServeFromMemory(t: nat)
      requires t < |threads| && (threads[t].ReturnKeys? || threads[t].TestStale?)
      modifies this
      ensures View() == OpenStep(cfg, old(View()), t)
      ensures Quiet(t) && lock == old(lock) && !Critical(threads[t])
      ensures var c, why := old(threads)[t].call, old(threads)[t].why;
              && (old(threads)[t].ReturnKeys? && keys.Some? ==> threads[t] == Match(c, keys.value, why))
              && (old(threads)[t].TestStale? && keys.Some? ==> threads[t] == ReturnKeys(c, why))
              && (old(threads)[t].TestStale? && keys.None? ==> Answered(t, c, NothingFetchedYet(why)))
    {
      match threads[t]
      case ReturnKeys(c, why) =>
        if keys.Some? {
          Goto(t, Match(c, keys.value, why));
        }
      case TestStale(c, why) =>
        if keys.None? {
          Reply(t, c, NothingFetchedYet(why));
        } else {
          Goto(t, ReturnKeys(c, why));
        }
    }

    /** `_key_for` before the lock: a key that is found is answered at once, and on the second
        look a key that is not. */
    method MatchServed(t: nat)
      requires t < |threads| && threads[t].Match?
      modifies this
      ensures View() == OpenStep(cfg, old(View()), t)
      ensures Quiet(t) && lock == old(lock) && !Critical(threads[t])
      ensures var Match(c, served, why) := old(threads)[t];
              var key := MatchKid(served.keys, c.kid);
              if key.Some? then Answered(t, c, Found(key.value, served.fetch, why))
              else if c.sight.Some? then Answered(t, c, Unknown(Some(served.fetch), c.sight.value))
              else threads[t] == ReadForced(c)
    {
      var Match(c, served, why) := threads[t];
      var key := MatchKid(served.keys, c.kid);
      if key.Some? {
        Reply(t, c, Found(key.value, served.fetch, why));
      } else if c.sight.Some? {
        Reply(t, c, Unknown(Some(served.fetch), c.sight.value));
      } else {
        Goto(t, ReadForced(c));
      }
    }

    /** Its own cooldown check: a missing key waits for the lock only where no refresh is
        cooling down, and otherwise takes a second look. */
    method CheckRefresh(t: nat)
      requires t < |threads| && (threads[t].ReadForced? || threads[t].CheckForced?)
      modifies this
      ensures View() == OpenStep(cfg, old(View()), t)
      ensures Quiet(t) && lock == old(lock) && !Critical(threads[t]) && !threads[t].Idle?
      ensures old(threads)[t].ReadForced? ==> threads[t] == CheckForced(old(threads)[t].call, lastForcedRefresh)
      ensures old(threads)[t].CheckForced? ==>
                var CheckForced(c, last) := old(threads)[t];
                threads[t] == if IsCooling(last) then ReadClock(Call(c.kid, c.began, Some(Sighting(clock, last.value.fetch)))) else AwaitKeyLock(c)
    {
      match threads[t]
      case ReadForced(c) => Goto(t, CheckForced(c, lastForcedRefresh));
      case CheckForced(c, last) =>
        if IsCooling(last) {
          Goto(t, ReadClock(c.(sight := Some(Sighting(clock, last.value.fetch)))));
        } else {
          Goto(t, AwaitKeyLock(c));
        }
    }

    /** Whatever happens next, the object goes where the model goes; so along any run the
        object stays safe. */
    method Happen(e: Event)
      modifies this
      ensures View() == Step(cfg, old(View()), e)
      ensures e.Tick? ==> threads == old(threads) && clock == old(clock) + if e.seconds > 0.0 then e.seconds else 0.0
      ensures e.Begin? && e.thread < |old(threads)| && old(threads)[e.thread].Idle? ==>
                threads == old(threads)[e.thread := ReadClock(Call(e.kid, clock, None))]
      ensures (e.Deliver? || e.Fail?) && e.thread < |old(threads)| && old(threads)[e.thread].InFetch? ==>
                var InFetch(c, p) := old(threads)[e.thread];
                threads == old(threads)[e.thread := EndClock(c, p, if e.Deliver? then Some(e.keys) else None)]
      ensures cfg.Valid() && Inv(cfg, old(View())) ==> Inv(cfg, View())
    {
      ghost var before := View();
      if cfg.Valid() && Inv(cfg, before) {
        StepKeeps(cfg, before, e);
      }
      match e
      case Tick(seconds) => if seconds > 0.0 { clock := clock + seconds; }
      case Begin(t, kid) => if t < |threads| && threads[t].Idle? { Goto(t, ReadClock(Call(kid, clock, None))); }
      case Run(t) =>
        if t < |threads| {
          if Fetching(threads[t]) {
            FetchKeys(t);
          } else if threads[t].LockedFresh? || threads[t].LockedCooling? {
            LockedCurrentKeys(t);
          } else if threads[t].KeyLocked? || threads[t].KeyLockedCooling? {
            LockedRefetch(t);
          } else if threads[t].LockedMatch? {
            LockedKeyFor(t);
          } else if threads[t].LockedForced? {
            LockedRefresh(t);
          } else if threads[t].AwaitLock? || threads[t].AwaitKeyLock? {
            TakeLock(t);
          } else if threads[t].ReadClock? || threads[t].CheckFresh? {
            CheckFreshness(t);
          } else if threads[t].ReadAttempt? || threads[t].CheckCooling? {
            CheckAttempt(t);
          } else if threads[t].ReturnKeys? || threads[t].TestStale? {
            ServeFromMemory(t);
          } else if threads[t].Match? {
            MatchServed(t);
          } else if threads[t].ReadForced? || threads[t].CheckForced? {
            CheckRefresh(t);
          }
        }
      case Deliver(t, fetched) =>
        if t < |threads| && threads[t].InFetch? {
          Goto(t, EndClock(threads[t].call, threads[t].purpose, Some(fetched)));
        }
      case Fail(t) =>
        if t < |threads| && threads[t].InFetch? {
          Goto(t, EndClock(threads[t].call, threads[t].purpose, None));
        }
    }
  }
}
