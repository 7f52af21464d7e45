/** The shared rate limiter: many processes, one Redis counter per caller and bucket, and
    calls that may fail at any point. Times are microseconds on one clock. */
module FixedWindow {
  import opened Numbers
  import opened Options
  import opened Sets
  import SlidingWindow

  /** `limit` and the window in seconds. `closed` is `fail_closed` outside development.
      `extra` is what the time to live adds to the window (the code adds one second), and
      `lag` bounds how long after the clock read the INCR takes effect. */
  datatype Config = Config(limit: int, window: int, closed: bool, extra: int, lag: int)

  /** Callers are kept apart by the hash in the key, buckets by their number. */
  datatype Slot = Slot(caller: string, bucket: int)

  datatype Counter = Counter(count: nat, expires: Option<int>)

  datatype Phase =
    | Read
    | Counted(count: nat)
    | Timed(count: nat)
    | Over
    | Failed
    | Admitted(ticket: nat)
    | AdmittedLocally(at: int)
    | Refused
    | Raised

  datatype Call = Call(process: nat, slot: Slot, read: int, phase: Phase)

  /** Each process has a fallback limiter of its own, with one deque per caller. */
  datatype Place = Place(process: nat, caller: string)

  /** `asked` holds the readings at which each fallback was asked for a caller; they determine
      its deque. */
  datatype State = State(now: int, counters: map<Slot, Counter>, calls: map<nat, Call>, asked: map<Place, seq<int>>)

  /** `applied` says whether the server carried out a command, `replied` whether the process
      heard of it; a command may be lost on either way. */
  datatype Step =
    | Start(id: nat, process: nat, caller: string)
    | Incr(id: nat, applied: bool, replied: bool)
    | Expire(id: nat, applied: bool, replied: bool)
    | Decide(id: nat)
    | Ttl(id: nat, replied: bool)
    | Recover(id: nat)
    | Tick(now: int)

  /** `int(time.time()) // window`. */
  function BucketOf(c: Config, read: int): int
    requires c.window >= 1
  {
    read / SECOND / c.window
  }

  predicate Alive(s: State, slot: Slot) {
    slot in s.counters && (s.counters[slot].expires.Some? ==> s.now < s.counters[slot].expires.value)
  }

  function CountOf(s: State, slot: Slot): nat {
    if Alive(s, slot) then s.counters[slot].count else 0
  }

  function Move(s: State, id: nat, phase: Phase): State
    requires id in s.calls
  {
    s.(calls := s.calls[id := s.calls[id].(phase := phase)])
  }

  /** INCR makes a missing or expired key anew, without a time to live. */
  function Incremented(s: State, slot: Slot): State {
    s.(counters := s.counters[slot := if Alive(s, slot) then s.counters[slot].(count := s.counters[slot].count + 1) else Counter(1, None)])
  }

  /** EXPIRE does nothing to a key that is gone. */
  function Timeout(c: Config, s: State, slot: Slot): State {
    if Alive(s, slot) then s.(counters := s.counters[slot := s.counters[slot].(expires := Some(s.now + c.window * SECOND + c.extra))])
    else s
  }

  predicate In(s: State, id: nat, phase: Phase) {
    id in s.calls && s.calls[id].phase == phase
  }

  function Incring(s: State, id: nat, applied: bool, replied: bool): Option<State>
    requires id in s.calls
  {
    var slot := s.calls[id].slot;
    if !applied then if replied then None else Some(Move(s, id, Failed))
    else
      var t := Incremented(s, slot);
      Some(Move(t, id, if replied then Counted(CountOf(t, slot)) else Failed))
  }

  function Expiring(c: Config, s: State, id: nat, applied: bool, replied: bool): Option<State>
    requires id in s.calls
  {
    var t := if applied then Timeout(c, s, s.calls[id].slot) else s;
    if replied && !applied then None else Some(Move(t, id, if replied then Timed(1) else Failed))
  }

  function FallbackRule(c: Config): SlidingWindow.Rule {
    SlidingWindow.Rule(c.limit, c.window * SECOND)
  }

  function AskedOf(s: State, place: Place): seq<int> {
    if place in s.asked then s.asked[place] else []
  }

  function PlaceOf(call: Call): Place { Place(call.process, call.slot.caller) }

  /** `self.fallback.allow(key)`, on a clock read there and then. */
  function FallingBack(c: Config, s: State, id: nat): State
    requires id in s.calls
  {
    var place := PlaceOf(s.calls[id]);
    var readings := AskedOf(s, place);
    var verdict := SlidingWindow.Decide(FallbackRule(c), SlidingWindow.Events(FallbackRule(c), readings), s.now).verdict;
    var phase := match verdict case Accepted => AdmittedLocally(s.now) case Refused(_) => Refused case Raised => Raised;
    Move(s, id, phase).(asked := s.asked[place := readings + [s.now]])
  }

  /** A step that may be taken leads to one state. */
  function Do(c: Config, s: State, step: Step): Option<State>
    requires c.window >= 1
  {
    match step
    case Start(id, process, caller) =>
      if id in s.calls then None
      else Some(s.(calls := s.calls[id := Call(process, Slot(caller, BucketOf(c, s.now)), s.now, Read)]))
    case Incr(id, applied, replied) =>
      if In(s, id, Read) && s.now <= s.calls[id].read + c.lag then Incring(s, id, applied, replied) else None
    case Expire(id, applied, replied) =>
      if In(s, id, Counted(1)) then Expiring(c, s, id, applied, replied) else None
    case Decide(id) =>
      if id in s.calls && ((s.calls[id].phase.Counted? && s.calls[id].phase.count != 1) || s.calls[id].phase.Timed?)
      then Some(Move(s, id, if s.calls[id].phase.count > c.limit then Over else Admitted(s.calls[id].phase.count)))
      else None
    case Ttl(id, replied) =>
      if In(s, id, Over) then Some(Move(s, id, if replied then Refused else Failed)) else None
    case Recover(id) =>
      if In(s, id, Failed) then Some(if c.closed then Move(s, id, Refused) else FallingBack(c, s, id)) else None
    case Tick(now) => if s.now <= now then Some(s.(now := now)) else None
  }

  predicate Init(s: State) {
    s.now >= 0 && s.counters == map[] && s.calls == map[] && s.asked == map[]
  }

  predicate Run(c: Config, states: seq<State>, steps: seq<Step>)
    requires c.window >= 1
  {
    && |states| == |steps| + 1 && Init(states[0])
    && forall i | 0 <= i < |steps| :: Do(c, states[i], steps[i]) == Some(states[i + 1])
  }

  // ----- buckets in time ------------------------------------------------------------------------

  lemma BucketBounds(c: Config, read: int)
    requires c.window >= 1
    ensures var b := BucketOf(c, read); b * c.window * 1_000_000 <= read < (b + 1) * c.window * 1_000_000
  {
    var seconds := read / SECOND;
    var b := seconds / c.window;
    assert b * c.window <= seconds < b * c.window + c.window;
    assert (b + 1) * c.window == b * c.window + c.window;
    Scale(b * c.window, seconds);
    Scale(seconds + 1, (b + 1) * c.window);
  }

  lemma Scale(a: int, b: int)
    requires a <= b
    ensures a * SECOND <= b * SECOND
  {
  }

  /** The end of a bucket. */
  function EndOf(c: Config, bucket: int): int { (bucket + 1) * c.window * SECOND }

  lemma EndsApart(c: Config, bucket: int)
    ensures EndOf(c, bucket) == bucket * c.window * SECOND + c.window * SECOND
  {
    assert (bucket + 1) * c.window == bucket * c.window + c.window;
  }

  // ----- what always holds ------------------------------------------------------------------------

  predicate HasTicket(call: Call) {
    call.phase.Counted? || call.phase.Timed? || call.phase.Admitted?
  }

  function TicketOf(call: Call): nat
    requires HasTicket(call)
  {
    if call.phase.Admitted? then call.phase.ticket else call.phase.count
  }

  predicate SoundCounter(c: Config, slot: Slot, k: Counter) {
    k.expires.Some? ==> k.expires.value >= EndOf(c, slot.bucket) + c.extra
  }

  predicate SoundCall(c: Config, s: State, call: Call)
    requires c.window >= 1
  {
    && call.read <= s.now && call.slot.bucket == BucketOf(c, call.read)
    && (HasTicket(call) ==> call.slot in s.counters && 1 <= TicketOf(call) <= s.counters[call.slot].count)
    && (call.phase.Admitted? ==> call.phase.ticket <= c.limit)
    && (call.phase.AdmittedLocally? ==> !c.closed)
  }

  predicate Apart(a: Call, b: Call) {
    a.slot == b.slot && HasTicket(a) && HasTicket(b) ==> TicketOf(a) != TicketOf(b)
  }

  predicate Inv(c: Config, s: State)
    requires c.window >= 1
  {
    && (forall slot | slot in s.counters :: SoundCounter(c, slot, s.counters[slot]))
    && (forall id | id in s.calls :: SoundCall(c, s, s.calls[id]))
    && (forall i, j | i in s.calls && j in s.calls && i != j :: Apart(s.calls[i], s.calls[j]))
  }

  /** An INCR that takes effect soon enough after its clock read never meets a counter that
      has expired: the counter outlives its bucket by `extra`. */
  lemma NeverExpiredAtIncr(c: Config, s: State, id: nat)
    requires c.window >= 1 && c.lag <= c.extra && Inv(c, s) && id in s.calls && s.now <= s.calls[id].read + c.lag
    ensures s.calls[id].slot in s.counters ==> Alive(s, s.calls[id].slot)
  {
    var call := s.calls[id];
    assert SoundCall(c, s, call);
    BucketBounds(c, call.read);
    if call.slot in s.counters {
      assert SoundCounter(c, call.slot, s.counters[call.slot]);
    }
  }

  lemma IncrKeeps(c: Config, s: State, id: nat, applied: bool, replied: bool, s': State)
    requires c.window >= 1 && c.lag <= c.extra && Inv(c, s) && Do(c, s, Incr(id, applied, replied)) == Some(s')
    ensures Inv(c, s')
  {
    NeverExpiredAtIncr(c, s, id);
    var slot := s.calls[id].slot;
    assert SoundCall(c, s, s.calls[id]);
    forall i | i in s'.calls ensures SoundCall(c, s', s'.calls[i]) {
      assert SoundCall(c, s, s.calls[i]);
    }
    forall i, j | i in s'.calls && j in s'.calls && i != j ensures Apart(s'.calls[i], s'.calls[j]) {
      assert Apart(s.calls[i], s.calls[j]) && SoundCall(c, s, s.calls[i]) && SoundCall(c, s, s.calls[j]);
    }
    forall k | k in s'.counters ensures SoundCounter(c, k, s'.counters[k]) {
      assert k in s.counters ==> SoundCounter(c, k, s.counters[k]);
    }
  }

  lemma ExpireKeeps(c: Config, s: State, id: nat, applied: bool, replied: bool, s': State)
    requires c.window >= 1 && Inv(c, s) && Do(c, s, Expire(id, applied, replied)) == Some(s')
    ensures Inv(c, s')
  {
    var call := s.calls[id];
    assert SoundCall(c, s, call);
    BucketBounds(c, call.read);
    EndsApart(c, call.slot.bucket);
    forall i | i in s'.calls ensures SoundCall(c, s', s'.calls[i]) {
      assert SoundCall(c, s, s.calls[i]);
    }
    forall i, j | i in s'.calls && j in s'.calls && i != j ensures Apart(s'.calls[i], s'.calls[j]) {
      assert Apart(s.calls[i], s.calls[j]);
    }
    forall k | k in s'.counters ensures SoundCounter(c, k, s'.counters[k]) {
      assert k in s.counters && SoundCounter(c, k, s.counters[k]);
    }
  }

  /** A step that touches no counter and leaves at most one call, `id`, changed. */
  predicate ChangesOne(s: State, id: nat, s': State) {
    s'.counters == s.counters && s.now <= s'.now && s'.calls.Keys == s.calls.Keys + {id} &&
    forall i | i in s.calls && i != id :: s'.calls[i] == s.calls[i]
  }

  /** The call it changes keeps no ticket but one it had. */
  lemma OneChangeKeeps(c: Config, s: State, id: nat, s': State)
    requires c.window >= 1 && Inv(c, s) && ChangesOne(s, id, s') && SoundCall(c, s', s'.calls[id])
    requires HasTicket(s'.calls[id]) ==>
               id in s.calls && HasTicket(s.calls[id]) && TicketOf(s'.calls[id]) == TicketOf(s.calls[id]) && s'.calls[id].slot == s.calls[id].slot
    ensures Inv(c, s')
  {
    forall i | i in s'.calls ensures SoundCall(c, s', s'.calls[i]) {
      assert i in s.calls ==> SoundCall(c, s, s.calls[i]);
    }
    forall i, j | i in s'.calls && j in s'.calls && i != j ensures Apart(s'.calls[i], s'.calls[j]) {
      assert i in s.calls && j in s.calls ==> Apart(s.calls[i], s.calls[j]);
    }
  }

  lemma TickKeeps(c: Config, s: State, now: int)
    requires c.window >= 1 && Inv(c, s) && s.now <= now
    ensures Inv(c, s.(now := now))
  {
    forall i | i in s.calls ensures SoundCall(c, s.(now := now), s.calls[i]) {
      assert SoundCall(c, s, s.calls[i]);
    }
  }

  /** Steps that touch no counter. */
  lemma QuietKeeps(c: Config, s: State, step: Step, s': State)
    requires c.window >= 1 && Inv(c, s) && Do(c, s, step) == Some(s') && !step.Incr? && !step.Expire?
    ensures Inv(c, s')
  {
    if step.Tick? {
      TickKeeps(c, s, step.now);
    } else {
      assert step.id in s.calls ==> SoundCall(c, s, s.calls[step.id]);
      OneChangeKeeps(c, s, step.id, s');
    }
  }

  lemma {:induction false} RunKeeps(c: Config, states: seq<State>, steps: seq<Step>, n: nat)
    requires c.window >= 1 && c.lag <= c.extra && Run(c, states, steps) && n < |states|
    ensures Inv(c, states[n])
  {
    if n > 0 {
      RunKeeps(c, states, steps, n - 1);
      var s, step, s' := states[n - 1], steps[n - 1], states[n];
      match step
      case Incr(id, applied, replied) => IncrKeeps(c, s, id, applied, replied, s');
      case Expire(id, applied, replied) => ExpireKeeps(c, s, id, applied, replied, s');
      case _ => QuietKeeps(c, s, step, s');
    }
  }

  // ----- what is promised -----------------------------------------------------------------------------

  /** The calls Redis admitted in one bucket. */
  function AdmittedIn(s: State, slot: Slot): set<nat> {
    set id | id in s.calls && s.calls[id].phase.Admitted? && s.calls[id].slot == slot
  }

  /** Distinct tickets from one to `top` are at most `top`. */
  lemma {:induction false} DistinctTickets(s: State, ids: set<nat>, top: nat)
    requires forall i | i in ids :: i in s.calls && s.calls[i].phase.Admitted? && 1 <= s.calls[i].phase.ticket <= top
    requires forall i, j | i in ids && j in ids && i != j :: s.calls[i].phase.ticket != s.calls[j].phase.ticket
    ensures |ids| <= top
  {
    if top > 0 {
      if i :| i in ids && s.calls[i].phase.ticket == top {
        DistinctTickets(s, ids - {i}, top - 1);
        assert |ids| == |ids - {i}| + 1;
      } else {
        DistinctTickets(s, ids, top - 1);
      }
    } else {
      assert ids == {} by {
        forall i ensures i !in ids {
        }
      }
    }
  }

  /** Across any number of processes and whatever calls fail, no bucket of a caller is given
      more than `limit` admissions by Redis, provided every INCR takes effect within `extra`
      of its clock read. */
  lemma BucketLimit(c: Config, states: seq<State>, steps: seq<Step>, n: nat, slot: Slot)
    requires c.window >= 1 && c.lag <= c.extra && Run(c, states, steps) && n < |states|
    ensures |AdmittedIn(states[n], slot)| <= Max(0, c.limit)
  {
    RunKeeps(c, states, steps, n);
    var s := states[n];
    var ids := AdmittedIn(s, slot);
    forall i | i in ids ensures 1 <= s.calls[i].phase.ticket <= Max(0, c.limit) {
      assert SoundCall(c, s, s.calls[i]);
    }
    forall i, j | i in ids && j in ids && i != j ensures s.calls[i].phase.ticket != s.calls[j].phase.ticket {
      assert Apart(s.calls[i], s.calls[j]);
    }
    DistinctTickets(s, ids, Max(0, c.limit));
  }

  /** Failing closed, nothing is ever admitted but by Redis. */
  lemma ClosedMeansRedis(c: Config, states: seq<State>, steps: seq<Step>, n: nat, id: nat)
    requires c.window >= 1 && c.lag <= c.extra && Run(c, states, steps) && n < |states| && c.closed
    ensures id in states[n].calls ==> !states[n].calls[id].phase.AdmittedLocally?
  {
    RunKeeps(c, states, steps, n);
    assert id in states[n].calls ==> SoundCall(c, states[n], states[n].calls[id]);
  }

  /** No command is lost. */
  predicate Smooth(steps: seq<Step>) {
    forall i | 0 <= i < |steps| ::
      && (steps[i].Incr? || steps[i].Expire? ==> steps[i].applied && steps[i].replied)
      && (steps[i].Ttl? ==> steps[i].replied)
  }

  /** Failing open, the same holds as long as every command is carried out and answered. */
  lemma {:induction false} SmoothMeansRedis(c: Config, states: seq<State>, steps: seq<Step>, n: nat, id: nat)
    requires c.window >= 1 && Run(c, states, steps) && Smooth(steps) && n < |states|
    ensures id in states[n].calls ==> !states[n].calls[id].phase.Failed? && !states[n].calls[id].phase.AdmittedLocally?
  {
    if n > 0 {
      SmoothMeansRedis(c, states, steps, n - 1, id);
      assert Do(c, states[n - 1], steps[n - 1]) == Some(states[n]);
      assert steps[n - 1].Recover? ==> In(states[n - 1], steps[n - 1].id, Failed);
      if steps[n - 1].Recover? {
        SmoothMeansRedis(c, states, steps, n - 1, steps[n - 1].id);
      }
    }
  }

  /** A call is admitted at its clock read, or when its fallback accepted it. */
  function Moment(call: Call): int { if call.phase.AdmittedLocally? then call.phase.at else call.read }

  /** All admissions of a caller in `k` windows from `from`. */
  function AdmittedDuring(c: Config, s: State, caller: string, from: int, k: nat): set<nat> {
    set id | id in s.calls && (s.calls[id].phase.Admitted? || s.calls[id].phase.AdmittedLocally?) && s.calls[id].slot.caller == caller &&
             from <= Moment(s.calls[id]) < from + k * c.window * SECOND
  }

  function AdmittedFrom(s: State, caller: string, bucket: int, k: nat): set<nat> {
    if k == 0 then {} else AdmittedFrom(s, caller, bucket, k - 1) + AdmittedIn(s, Slot(caller, bucket + k - 1))
  }

  lemma {:induction false} FromIff(s: State, caller: string, bucket: int, k: nat, id: nat)
    ensures id in AdmittedFrom(s, caller, bucket, k) <==>
            id in s.calls && s.calls[id].phase.Admitted? && s.calls[id].slot.caller == caller && bucket <= s.calls[id].slot.bucket < bucket + k
  {
    if k > 0 {
      FromIff(s, caller, bucket, k - 1, id);
    }
  }

  lemma {:induction false} FromLimit(c: Config, states: seq<State>, steps: seq<Step>, n: nat, caller: string, bucket: int, k: nat)
    requires c.window >= 1 && c.lag <= c.extra && Run(c, states, steps) && n < |states|
    ensures |AdmittedFrom(states[n], caller, bucket, k)| <= k * Max(0, c.limit)
  {
    if k > 0 {
      FromLimit(c, states, steps, n, caller, bucket, k - 1);
      BucketLimit(c, states, steps, n, Slot(caller, bucket + k - 1));
      var a, b := AdmittedFrom(states[n], caller, bucket, k - 1), AdmittedIn(states[n], Slot(caller, bucket + k - 1));
      UnionSize(a, b);
      assert k * Max(0, c.limit) == (k - 1) * Max(0, c.limit) + Max(0, c.limit);
    }
  }

  lemma UnionSize(a: set<nat>, b: set<nat>)
    ensures |a + b| <= |a| + |b|
  {
    assert a + b == a + (b - a);
    assert |b| == |b - a| + |b * a| by {
      assert b == (b - a) + (b * a);
    }
  }

  /** `k` windows touch at most `k + 1` buckets. */
  lemma BucketSpan(c: Config, from: int, k: nat, read: int)
    requires c.window >= 1 && from <= read < from + k * c.window * SECOND
    ensures BucketOf(c, from) <= BucketOf(c, read) < BucketOf(c, from) + k + 1
  {
    BucketBounds(c, from);
    BucketBounds(c, read);
    var a, b, w := BucketOf(c, from), BucketOf(c, read), c.window * SECOND;
    Regroup(a, c.window);
    Regroup(b, c.window);
    Regroup(a + 1, c.window);
    Regroup(b + 1, c.window);
    Regroup(k, c.window);
    if b < a {
      Grow(b + 1, a, w);
    }
    assert (a + 1 + k) * w == (a + 1) * w + k * w;
    if b > a + k {
      Grow(a + 1 + k, b, w);
    }
  }

  lemma Regroup(a: int, window: int)
    ensures a * window * SECOND == a * (window * SECOND)
  {
  }

  lemma Grow(a: int, b: int, w: int)
    requires a <= b && w >= 0
    ensures a * w <= b * w
  {
  }

  /** The admissions of those windows that Redis gave. */
  lemma RedisShare(c: Config, states: seq<State>, steps: seq<Step>, n: nat, ids: set<nat>, caller: string, from: int, k: nat)
    requires c.window >= 1 && c.lag <= c.extra && Run(c, states, steps) && n < |states|
    requires forall id | id in ids :: id in AdmittedDuring(c, states[n], caller, from, k) && states[n].calls[id].phase.Admitted?
    ensures |ids| <= (k + 1) * Max(0, c.limit)
  {
    RunKeeps(c, states, steps, n);
    var s := states[n];
    var all := AdmittedFrom(s, caller, BucketOf(c, from), k + 1);
    forall id | id in ids ensures id in all {
      assert SoundCall(c, s, s.calls[id]);
      BucketSpan(c, from, k, s.calls[id].read);
      FromIff(s, caller, BucketOf(c, from), k + 1, id);
    }
    SubsetIsSmaller(ids, all);
    FromLimit(c, states, steps, n, caller, BucketOf(c, from), k + 1);
  }

  /** Failing closed, or with no command lost, any `k` windows hold at most `(k + 1) * limit`
      admissions of one caller. */
  lemma WindowsLimit(c: Config, states: seq<State>, steps: seq<Step>, n: nat, caller: string, from: int, k: nat)
    requires c.window >= 1 && c.lag <= c.extra && Run(c, states, steps) && n < |states| && (c.closed || Smooth(steps))
    ensures |AdmittedDuring(c, states[n], caller, from, k)| <= (k + 1) * Max(0, c.limit)
  {
    var ids := AdmittedDuring(c, states[n], caller, from, k);
    forall id | id in ids ensures states[n].calls[id].phase.Admitted? {
      if c.closed {
        ClosedMeansRedis(c, states, steps, n, id);
      } else {
        SmoothMeansRedis(c, states, steps, n, id);
      }
    }
    RedisShare(c, states, steps, n, ids, caller, from, k);
  }

  // ----- failing open -----------------------------------------------------------------------------

  /** What one fallback admitted in [lo, hi). */
  function LocallyIn(s: State, place: Place, lo: int, hi: int): set<nat> {
    set id | id in s.calls && s.calls[id].phase.AdmittedLocally? && PlaceOf(s.calls[id]) == place && lo <= s.calls[id].phase.at < hi
  }

  /** A fallback is only asked where a call recovers. */
  lemma OthersAskNothing(c: Config, s: State, step: Step, s': State, place: Place, lo: int, hi: int)
    requires c.window >= 1 && Do(c, s, step) == Some(s') && (!step.Recover? || c.closed || PlaceOf(s.calls[step.id]) != place)
    ensures AskedOf(s', place) == AskedOf(s, place) && LocallyIn(s', place, lo, hi) == LocallyIn(s, place, lo, hi)
  {
  }

  lemma RecoverAdmits(c: Config, s: State, id: nat, s': State, lo: int, hi: int)
    requires c.window >= 1 && !c.closed && Do(c, s, Recover(id)) == Some(s')
    ensures var place := PlaceOf(s.calls[id]);
            && AskedOf(s', place) == AskedOf(s, place) + [s.now]
            && id !in LocallyIn(s, place, lo, hi)
            && LocallyIn(s', place, lo, hi) == LocallyIn(s, place, lo, hi) +
               if SlidingWindow.AcceptedNext(FallbackRule(c), AskedOf(s, place), s.now) && lo <= s.now < hi then {id} else {}
  {
  }

  /** The calls a fallback admitted are the times its limiter accepted. */
  lemma RecoverCounts(c: Config, s: State, id: nat, s': State, lo: int, hi: int)
    requires c.window >= 1 && !c.closed && Do(c, s, Recover(id)) == Some(s')
    requires var place, rule := PlaceOf(s.calls[id]), FallbackRule(c);
             |LocallyIn(s, place, lo, hi)| == SlidingWindow.Within(SlidingWindow.Times(rule, AskedOf(s, place)), lo, hi)
    ensures var place, rule := PlaceOf(s.calls[id]), FallbackRule(c);
            |LocallyIn(s', place, lo, hi)| == SlidingWindow.Within(SlidingWindow.Times(rule, AskedOf(s', place)), lo, hi)
  {
    var place, rule := PlaceOf(s.calls[id]), FallbackRule(c);
    SlidingWindow.OneReadingMore(rule, AskedOf(s, place), s.now, lo, hi);
    RecoverAdmits(c, s, id, s', lo, hi);
  }

  lemma {:induction false} LocalCount(c: Config, states: seq<State>, steps: seq<Step>, n: nat, place: Place, lo: int, hi: int)
    requires c.window >= 1 && Run(c, states, steps) && n < |states|
    ensures |LocallyIn(states[n], place, lo, hi)| ==
            SlidingWindow.Within(SlidingWindow.Times(FallbackRule(c), AskedOf(states[n], place)), lo, hi)
  {
    if n > 0 {
      LocalCount(c, states, steps, n - 1, place, lo, hi);
      var s, step, s' := states[n - 1], steps[n - 1], states[n];
      if step.Recover? && !c.closed && PlaceOf(s.calls[step.id]) == place {
        RecoverCounts(c, s, step.id, s', lo, hi);
      } else {
        OthersAskNothing(c, s, step, s', place, lo, hi);
      }
    } else {
      assert LocallyIn(states[0], place, lo, hi) == {};
    }
  }

  /** A fallback reads the clock when it is asked, so its readings come in order. */
  lemma {:induction false} AskedInOrder(c: Config, states: seq<State>, steps: seq<Step>, n: nat, place: Place)
    requires c.window >= 1 && Run(c, states, steps) && n < |states|
    ensures SlidingWindow.Lagging(AskedOf(states[n], place), 0) && SlidingWindow.AllAtMost(AskedOf(states[n], place), states[n].now)
  {
    if n > 0 {
      AskedInOrder(c, states, steps, n - 1, place);
      var s, step, s' := states[n - 1], steps[n - 1], states[n];
      if step.Recover? && !c.closed && PlaceOf(s.calls[step.id]) == place {
        assert AskedOf(s', place) == AskedOf(s, place) + [s.now];
      } else {
        OthersAskNothing(c, s, step, s', place, 0, 0);
      }
    }
  }

  /** So one fallback admits at most `limit` in a window. */
  lemma FallbackLimit(c: Config, states: seq<State>, steps: seq<Step>, n: nat, place: Place, from: int)
    requires c.window >= 1 && Run(c, states, steps) && n < |states|
    ensures |LocallyIn(states[n], place, from, from + c.window * SECOND)| <= Max(0, c.limit)
  {
    LocalCount(c, states, steps, n, place, from, from + c.window * SECOND);
    AskedInOrder(c, states, steps, n, place);
    SlidingWindow.LimitHolds(FallbackRule(c), AskedOf(states[n], place), 0, from);
  }

  /** What the fallbacks of some processes admitted in one window. */
  function LocallyAt(c: Config, s: State, processes: set<nat>, caller: string, from: int): set<nat> {
    set id | id in s.calls && s.calls[id].phase.AdmittedLocally? && s.calls[id].slot.caller == caller && s.calls[id].process in processes &&
             from <= s.calls[id].phase.at < from + c.window * SECOND
  }

  lemma {:induction false} FallbacksLimit(c: Config, states: seq<State>, steps: seq<Step>, n: nat, processes: set<nat>, caller: string, from: int)
    requires c.window >= 1 && Run(c, states, steps) && n < |states|
    ensures |LocallyAt(c, states[n], processes, caller, from)| <= |processes| * Max(0, c.limit)
    decreases |processes|
  {
    if processes != {} {
      var p :| p in processes;
      FallbacksLimit(c, states, steps, n, processes - {p}, caller, from);
      FallbackLimit(c, states, steps, n, Place(p, caller), from);
      var a := LocallyAt(c, states[n], processes - {p}, caller, from);
      var b := LocallyIn(states[n], Place(p, caller), from, from + c.window * SECOND);
      UnionSize(a, b);
      assert LocallyAt(c, states[n], processes, caller, from) == a + b;
      OneFactorMore(|processes - {p}|, Max(0, c.limit));
    } else {
      assert LocallyAt(c, states[n], processes, caller, from) == {};
    }
  }

  lemma OneFactorMore(k: nat, limit: nat)
    ensures (k + 1) * limit == k * limit + limit
  {
  }

  function Later(c: Config, from: int, k: nat): int { from + k * c.window * SECOND }

  /** What they admitted in `k` windows from `from`. */
  function LocallyDuring(c: Config, s: State, processes: set<nat>, caller: string, from: int, k: nat): set<nat> {
    if k == 0 then {}
    else LocallyDuring(c, s, processes, caller, from, k - 1) + LocallyAt(c, s, processes, caller, Later(c, from, k - 1))
  }

  lemma {:induction false} DuringIff(c: Config, s: State, processes: set<nat>, caller: string, from: int, k: nat, id: nat)
    requires c.window >= 1
    ensures id in LocallyDuring(c, s, processes, caller, from, k) <==>
            id in s.calls && s.calls[id].phase.AdmittedLocally? && s.calls[id].slot.caller == caller && s.calls[id].process in processes &&
            from <= s.calls[id].phase.at < from + k * c.window * SECOND
  {
    if k > 0 {
      DuringIff(c, s, processes, caller, from, k - 1, id);
      WindowsAdd(c, k - 1);
    }
  }

  lemma WindowsAdd(c: Config, k: nat)
    requires c.window >= 1
    ensures 0 <= k * c.window * SECOND && (k + 1) * c.window * SECOND == k * c.window * SECOND + c.window * SECOND
  {
    Regroup(k, c.window);
    Regroup(k + 1, c.window);
    OneFactorMore(k, c.window * SECOND);
  }

  lemma {:induction false} FallbacksDuringLimit(c: Config, states: seq<State>, steps: seq<Step>, n: nat,
                                                 processes: set<nat>, cap: nat, caller: string, from: int, k: nat)
    requires c.window >= 1 && Run(c, states, steps) && n < |states| && cap == |processes| * Max(0, c.limit)
    ensures |LocallyDuring(c, states[n], processes, caller, from, k)| <= k * cap
  {
    if k > 0 {
      FallbacksDuringLimit(c, states, steps, n, processes, cap, caller, from, k - 1);
      FallbacksLimit(c, states, steps, n, processes, caller, Later(c, from, k - 1));
      UnionSize(LocallyDuring(c, states[n], processes, caller, from, k - 1),
                LocallyAt(c, states[n], processes, caller, Later(c, from, k - 1)));
      OneFactorMore(k - 1, cap);
    }
  }

  /** Failing open, whatever commands are lost, any `k` windows hold at most `(k + 1) * limit`
      admissions by Redis and `k * limit` by the fallback of each process. */
  lemma OpenLimit(c: Config, states: seq<State>, steps: seq<Step>, n: nat, processes: set<nat>, caller: string, from: int, k: nat)
    requires c.window >= 1 && c.lag <= c.extra && Run(c, states, steps) && n < |states|
    requires forall id | id in states[n].calls :: states[n].calls[id].process in processes
    ensures |AdmittedDuring(c, states[n], caller, from, k)| <= (k + 1) * Max(0, c.limit) + k * (|processes| * Max(0, c.limit))
  {
    var s, ids := states[n], AdmittedDuring(c, states[n], caller, from, k);
    var redis := set id | id in ids && s.calls[id].phase.Admitted?;
    var locals := LocallyDuring(c, s, processes, caller, from, k);
    RedisShare(c, states, steps, n, redis, caller, from, k);
    FallbacksDuringLimit(c, states, steps, n, processes, |processes| * Max(0, c.limit), caller, from, k);
    forall id | id in ids ensures id in redis + locals {
      DuringIff(c, s, processes, caller, from, k, id);
    }
    SubsetIsSmaller(ids, redis + locals);
    UnionSize(redis, locals);
  }

  // ----- why a call was answered as it was ----------------------------------------------------

  /** The call began with a clock read, and its slot is the bucket of that moment. */
  ghost predicate Began(c: Config, states: seq<State>, steps: seq<Step>, n: nat, id: nat, call: Call)
    requires c.window >= 1 && Run(c, states, steps) && n < |states|
  {
    && call.slot.bucket == BucketOf(c, call.read)
    && exists i | 0 <= i < n :: steps[i] == Start(id, call.process, call.slot.caller) && states[i].now == call.read
  }

  /** The server counted the call as number `k` of its slot, and the process heard so. */
  ghost predicate Heard(c: Config, states: seq<State>, steps: seq<Step>, n: nat, id: nat, slot: Slot, k: nat)
    requires c.window >= 1 && Run(c, states, steps) && n < |states|
  {
    exists i | 0 <= i < n :: steps[i] == Incr(id, true, true) && CountOf(states[i], slot) + 1 == k
  }

  /** The counter of the call was given its time to live, and the process heard so. */
  ghost predicate Lives(c: Config, states: seq<State>, steps: seq<Step>, n: nat, id: nat)
    requires c.window >= 1 && Run(c, states, steps) && n < |states|
  {
    exists i | 0 <= i < n :: steps[i] == Expire(id, true, true)
  }

  /** A command of the call was not answered. */
  ghost predicate Lost(c: Config, states: seq<State>, steps: seq<Step>, n: nat, id: nat)
    requires c.window >= 1 && Run(c, states, steps) && n < |states|
  {
    exists i | 0 <= i < n :: (steps[i].Incr? || steps[i].Expire? || steps[i].Ttl?) && steps[i].id == id && !steps[i].replied
  }

  /** The count heard is above the limit. */
  ghost predicate HeardTooMany(c: Config, states: seq<State>, steps: seq<Step>, n: nat, id: nat, slot: Slot)
    requires c.window >= 1 && Run(c, states, steps) && n < |states|
  {
    exists k: nat | k > c.limit :: Heard(c, states, steps, n, id, slot, k)
  }

  /** The times one fallback accepted within the window that ends now. */
  function Window(c: Config, s: State, place: Place): seq<int> {
    var rule := SlidingWindow.Rule(c.limit, c.window * 1_000_000);
    SlidingWindow.After(SlidingWindow.Times(rule, AskedOf(s, place)), s.now - rule.window)
  }

  /** The fallback was asked at `at`, with so many acceptances in its window. */
  ghost predicate Asked(c: Config, states: seq<State>, steps: seq<Step>, n: nat, id: nat, place: Place, full: bool, at: int)
    requires c.window >= 1 && Run(c, states, steps) && n < |states|
  {
    exists i | 0 <= i < n :: steps[i] == Recover(id) && states[i].now == at && (full <==> |Window(c, states[i], place)| >= c.limit)
  }

  ghost predicate AskedWhenFull(c: Config, states: seq<State>, steps: seq<Step>, n: nat, id: nat, place: Place)
    requires c.window >= 1 && Run(c, states, steps) && n < |states|
  {
    exists at :: Asked(c, states, steps, n, id, place, true, at)
  }

  ghost predicate RefusedByRedis(c: Config, states: seq<State>, steps: seq<Step>, n: nat, id: nat, slot: Slot)
    requires c.window >= 1 && Run(c, states, steps) && n < |states|
  {
    HeardTooMany(c, states, steps, n, id, slot) && exists i | 0 <= i < n :: steps[i] == Ttl(id, true)
  }

  /** What must have happened for a call to stand where it does. */
  ghost predicate Cause(c: Config, states: seq<State>, steps: seq<Step>, n: nat, id: nat, call: Call)
    requires c.window >= 1 && Run(c, states, steps) && n < |states|
  {
    match call.phase
    case Read => true
    case Counted(k) => Heard(c, states, steps, n, id, call.slot, k)
    case Timed(k) => k == 1 && Heard(c, states, steps, n, id, call.slot, 1) && Lives(c, states, steps, n, id)
    case Over => HeardTooMany(c, states, steps, n, id, call.slot)
    case Failed => Lost(c, states, steps, n, id)
    case Admitted(k) => k <= c.limit && Heard(c, states, steps, n, id, call.slot, k) && (k == 1 ==> Lives(c, states, steps, n, id))
    case AdmittedLocally(at) =>
      !c.closed && Lost(c, states, steps, n, id) && Asked(c, states, steps, n, id, PlaceOf(call), false, at)
    case Refused =>
      || RefusedByRedis(c, states, steps, n, id, call.slot)
      || (Lost(c, states, steps, n, id) && (c.closed || (c.limit >= 1 && AskedWhenFull(c, states, steps, n, id, PlaceOf(call)))))
    case Raised => !c.closed && c.limit < 1 && Lost(c, states, steps, n, id)
  }

  /** What has happened stays so. */
  lemma CauseStays(c: Config, states: seq<State>, steps: seq<Step>, n: nat, id: nat, call: Call)
    requires c.window >= 1 && Run(c, states, steps) && n < |steps| && Cause(c, states, steps, n, id, call)
    ensures Cause(c, states, steps, n + 1, id, call)
  {
    assert AskedWhenFull(c, states, steps, n, id, PlaceOf(call)) ==> AskedWhenFull(c, states, steps, n + 1, id, PlaceOf(call)) by {
      if AskedWhenFull(c, states, steps, n, id, PlaceOf(call)) {
        var at :| Asked(c, states, steps, n, id, PlaceOf(call), true, at);
        assert Asked(c, states, steps, n + 1, id, PlaceOf(call), true, at);
      }
    }
    assert HeardTooMany(c, states, steps, n, id, call.slot) ==> HeardTooMany(c, states, steps, n + 1, id, call.slot) by {
      if HeardTooMany(c, states, steps, n, id, call.slot) {
        var k: nat :| k > c.limit && Heard(c, states, steps, n, id, call.slot, k);
        assert Heard(c, states, steps, n + 1, id, call.slot, k);
      }
    }
  }

  /** What a fallback answers. */
  lemma FallbackAnswers(c: Config, states: seq<State>, steps: seq<Step>, n: nat, place: Place)
    requires c.window >= 1 && Run(c, states, steps) && n < |states|
    ensures var s := states[n];
            var verdict := SlidingWindow.Decide(FallbackRule(c), SlidingWindow.Events(FallbackRule(c), AskedOf(s, place)), s.now).verdict;
            && (verdict == SlidingWindow.Accepted <==> |Window(c, s, place)| < c.limit)
            && (verdict == SlidingWindow.Raised <==> c.limit < 1)
  {
    AskedInOrder(c, states, steps, n, place);
    SlidingWindow.RefusalMeansFull(FallbackRule(c), AskedOf(states[n], place), states[n].now);
    SlidingWindow.RaisesIff(FallbackRule(c), AskedOf(states[n], place), states[n].now);
  }

  lemma RecoverHasCause(c: Config, states: seq<State>, steps: seq<Step>, n: nat, id: nat)
    requires c.window >= 1 && Run(c, states, steps) && n < |steps| && steps[n] == Recover(id)
    requires id in states[n].calls && Cause(c, states, steps, n, id, states[n].calls[id])
    ensures id in states[n + 1].calls && Cause(c, states, steps, n + 1, id, states[n + 1].calls[id])
  {
    var s, call := states[n], states[n].calls[id];
    assert Do(c, s, steps[n]) == Some(states[n + 1]);
    CauseStays(c, states, steps, n, id, call);
    if !c.closed {
      FallbackAnswers(c, states, steps, n, PlaceOf(call));
      assert Asked(c, states, steps, n + 1, id, PlaceOf(call), |Window(c, s, PlaceOf(call))| >= c.limit, s.now);
    }
  }

  lemma CommandHasCause(c: Config, states: seq<State>, steps: seq<Step>, n: nat, id: nat)
    requires c.window >= 1 && Run(c, states, steps) && n < |steps| && (steps[n].Incr? || steps[n].Expire?) && steps[n].id == id
    requires id in states[n].calls && Cause(c, states, steps, n, id, states[n].calls[id])
    ensures id in states[n + 1].calls && Cause(c, states, steps, n + 1, id, states[n + 1].calls[id])
  {
    assert Do(c, states[n], steps[n]) == Some(states[n + 1]);
    CauseStays(c, states, steps, n, id, states[n].calls[id]);
    assert steps[n].replied || Lost(c, states, steps, n + 1, id);
  }

  lemma EndHasCause(c: Config, states: seq<State>, steps: seq<Step>, n: nat, id: nat)
    requires c.window >= 1 && Run(c, states, steps) && n < |steps| && (steps[n].Decide? || steps[n].Ttl?) && steps[n].id == id
    requires id in states[n].calls && Cause(c, states, steps, n, id, states[n].calls[id])
    ensures id in states[n + 1].calls && Cause(c, states, steps, n + 1, id, states[n + 1].calls[id])
  {
    assert Do(c, states[n], steps[n]) == Some(states[n + 1]);
    CauseStays(c, states, steps, n, id, states[n].calls[id]);
    assert steps[n].Ttl? && !steps[n].replied ==> Lost(c, states, steps, n + 1, id);
  }

  /** A step changes the call it names and no other. */
  lemma OthersStay(c: Config, s: State, step: Step, s': State, id: nat)
    requires c.window >= 1 && Do(c, s, step) == Some(s') && (step.Tick? || step.id != id)
    ensures id in s'.calls <==> id in s.calls
    ensures id in s.calls ==> s'.calls[id] == s.calls[id]
  {
  }

  lemma SlotsStay(c: Config, s: State, step: Step, s': State, id: nat)
    requires c.window >= 1 && Do(c, s, step) == Some(s') && id in s.calls
    ensures id in s'.calls && s'.calls[id] == s.calls[id].(phase := s'.calls[id].phase)
  {
  }

  /** Over every run, whatever is lost: a call is admitted by Redis only as a number within
      the limit of the bucket of its own clock read, and the first of a bucket only once the
      time to live is set; it is refused only for a count above the limit, for a lost command
      where the limiter fails closed, or by a full fallback; and a fallback is asked only
      where a command was lost and the limiter fails open. */
  lemma {:induction false} EveryAnswerHasItsCause(c: Config, states: seq<State>, steps: seq<Step>, n: nat, id: nat)
    requires c.window >= 1 && Run(c, states, steps) && n < |states| && id in states[n].calls
    ensures Began(c, states, steps, n, id, states[n].calls[id])
    ensures Cause(c, states, steps, n, id, states[n].calls[id])
  {
    assert n > 0;
    var s, step, s' := states[n - 1], steps[n - 1], states[n];
    assert Do(c, s, step) == Some(s');
    if id in s.calls {
      EveryAnswerHasItsCause(c, states, steps, n - 1, id);
      SlotsStay(c, s, step, s', id);
      OneStepHasCause(c, states, steps, n - 1, id);
    } else {
      assert step == Start(id, s'.calls[id].process, s'.calls[id].slot.caller);
    }
  }

  lemma OneStepHasCause(c: Config, states: seq<State>, steps: seq<Step>, n: nat, id: nat)
    requires c.window >= 1 && Run(c, states, steps) && n < |steps|
    requires id in states[n].calls && Cause(c, states, steps, n, id, states[n].calls[id])
    ensures id in states[n + 1].calls && Cause(c, states, steps, n + 1, id, states[n + 1].calls[id])
  {
    var s, step, s' := states[n], steps[n], states[n + 1];
    assert Do(c, s, step) == Some(s');
    if step.Tick? || step.id != id {
      OthersStay(c, s, step, s', id);
      CauseStays(c, states, steps, n, id, s.calls[id]);
    } else if step.Incr? || step.Expire? {
      CommandHasCause(c, states, steps, n, id);
    } else if step.Decide? || step.Ttl? {
      EndHasCause(c, states, steps, n, id);
    } else {
      assert step == Recover(id);
      RecoverHasCause(c, states, steps, n, id);
    }
  }

  // ----- why the extra second matters ------------------------------------------------------------

  /** The three commands by which a call that finds no live counter is admitted. */
  lemma AdmitFresh(c: Config, s: State, id: nat) returns (t1: State, t2: State, t3: State)
    requires c.window >= 1 && c.limit >= 1 && In(s, id, Read) && !Alive(s, s.calls[id].slot)
    requires s.now <= s.calls[id].read + c.lag && c.window * SECOND + c.extra > 0
    ensures Do(c, s, Incr(id, true, true)) == Some(t1) && Do(c, t1, Expire(id, true, true)) == Some(t2) && Do(c, t2, Decide(id)) == Some(t3)
    ensures t3.now == s.now && t3.calls == s.calls[id := s.calls[id].(phase := Admitted(1))]
    ensures t3.counters == s.counters[s.calls[id].slot := Counter(1, Some(s.now + c.window * SECOND + c.extra))]
  {
    t1 := Do(c, s, Incr(id, true, true)).value;
    t2 := Do(c, t1, Expire(id, true, true)).value;
    t3 := Do(c, t2, Decide(id)).value;
  }

  lemma FirstBucket(c: Config, read: int)
    requires c.window >= 1 && 0 <= read < c.window * SECOND
    ensures BucketOf(c, read) == 0
  {
    assert 0 <= read / SECOND < c.window;
  }

  lemma AddStep(c: Config, states: seq<State>, steps: seq<Step>, step: Step) returns (states': seq<State>, steps': seq<Step>, s: State)
    requires c.window >= 1 && Run(c, states, steps) && Do(c, states[|steps|], step).Some?
    ensures Run(c, states', steps') && Do(c, states[|steps|], step) == Some(s) && s == states'[|steps'|]
  {
    s := Do(c, states[|steps|], step).value;
    states', steps' := states + [s], steps + [step];
  }

  lemma {:induction false} SizeUpTo(ids: set<nat>, n: nat)
    requires forall id: nat :: id in ids <==> id < n
    ensures |ids| == n
  {
    if n > 0 {
      SizeUpTo(ids - {n - 1}, n - 1);
      assert |ids| == |ids - {n - 1}| + 1;
    } else {
      assert ids == {};
    }
  }

  const FIRST := Slot("x", 0)

  /** At time zero, `n` calls were admitted in the first bucket. */
  ghost predicate Filled(c: Config, s: State, n: nat) {
    && s.now == 0 && (forall id: nat :: id in s.calls <==> id < n)
    && (forall id | id in s.calls :: s.calls[id] == Call(0, FIRST, 0, Admitted(id + 1)))
    && s.counters == if n == 0 then map[] else map[FIRST := Counter(n, Some(c.window * SECOND + c.extra))]
  }

  /** The commands by which one more call is admitted into a bucket that is not yet full. */
  lemma AdmitNext(c: Config, s: State, n: nat) returns (t1: State, t2: State)
    requires c.window >= 1 && 1 <= n < c.limit && 0 <= c.extra && 0 <= c.lag && s.now == 0
    requires In(s, n, Read) && s.calls[n].slot == FIRST && s.calls[n].read == 0
    requires s.counters == map[FIRST := Counter(n, Some(c.window * SECOND + c.extra))]
    ensures Do(c, s, Incr(n, true, true)) == Some(t1) && Do(c, t1, Decide(n)) == Some(t2)
    ensures t2.now == s.now && t2.calls == s.calls[n := s.calls[n].(phase := Admitted(n + 1))]
    ensures t2.counters == map[FIRST := Counter(n + 1, Some(c.window * SECOND + c.extra))]
  {
    t1 := Do(c, s, Incr(n, true, true)).value;
    t2 := Do(c, t1, Decide(n)).value;
  }

  lemma OneMoreIsFilled(c: Config, s: State, n: nat, t: State)
    requires Filled(c, s, n) && t.now == 0
    requires t.calls == s.calls[n := Call(0, FIRST, 0, Admitted(n + 1))]
    requires t.counters == map[FIRST := Counter(n + 1, Some(c.window * SECOND + c.extra))]
    ensures Filled(c, t, n + 1)
  {
  }

  lemma StartNext(c: Config, states: seq<State>, steps: seq<Step>, n: nat) returns (states': seq<State>, steps': seq<Step>)
    requires c.window >= 1 && Run(c, states, steps) && Filled(c, states[|steps|], n)
    ensures Run(c, states', steps')
    ensures states'[|steps'|] == states[|steps|].(calls := states[|steps|].calls[n := Call(0, FIRST, 0, Read)])
  {
    FirstBucket(c, 0);
    var t: State;
    states', steps', t := AddStep(c, states, steps, Start(n, 0, "x"));
  }

  lemma FillOneMore(c: Config, states: seq<State>, steps: seq<Step>, n: nat) returns (states': seq<State>, steps': seq<Step>)
    requires c.window >= 1 && n < c.limit && 0 <= c.extra && 0 <= c.lag && Run(c, states, steps) && Filled(c, states[|steps|], n)
    ensures Run(c, states', steps') && Filled(c, states'[|steps'|], n + 1)
  {
    states', steps' := StartNext(c, states, steps, n);
    var u: State, v: State, w: State;
    if n == 0 {
      u, v, w := AdmitFresh(c, states'[|steps'|], n);
      states', steps', u := AddStep(c, states', steps', Incr(n, true, true));
      states', steps', v := AddStep(c, states', steps', Expire(n, true, true));
      states', steps', w := AddStep(c, states', steps', Decide(n));
    } else {
      u, w := AdmitNext(c, states'[|steps'|], n);
      states', steps', u := AddStep(c, states', steps', Incr(n, true, true));
      states', steps', w := AddStep(c, states', steps', Decide(n));
    }
    OneMoreIsFilled(c, states[|steps|], n, w);
  }

  lemma {:induction false} Fill(c: Config, n: nat) returns (states: seq<State>, steps: seq<Step>)
    requires c.window >= 1 && n <= c.limit && 0 <= c.extra && 0 <= c.lag
    ensures Run(c, states, steps) && Filled(c, states[|steps|], n)
  {
    if n == 0 {
      states, steps := [State(0, map[], map[], map[])], [];
    } else {
      states, steps := Fill(c, n - 1);
      states, steps := FillOneMore(c, states, steps, n - 1);
    }
  }

  /** A call that reads the clock just before the bucket ends, at the time its INCR is due. */
  ghost predicate Late(c: Config, s: State) {
    && c.limit >= 1 && s.now == c.window * SECOND - 1 + c.lag
    && (forall id: nat :: id in s.calls <==> id <= c.limit) && s.calls[c.limit] == Call(0, FIRST, c.window * SECOND - 1, Read)
    && (forall id | id in s.calls && id < c.limit :: s.calls[id] == Call(0, FIRST, 0, Admitted(id + 1)))
    && s.counters == map[FIRST := Counter(c.limit, Some(c.window * SECOND + c.extra))]
  }

  lemma BecomeLate(c: Config) returns (states: seq<State>, steps: seq<Step>)
    requires c.window >= 1 && c.limit >= 1 && 0 <= c.extra < c.lag
    ensures Run(c, states, steps) && Late(c, states[|steps|])
  {
    var u, t: State := c.window * SECOND, State(0, map[], map[], map[]);
    FirstBucket(c, u - 1);
    states, steps := Fill(c, c.limit);
    states, steps, t := AddStep(c, states, steps, Tick(u - 1));
    states, steps, t := AddStep(c, states, steps, Start(c.limit, 0, "x"));
    states, steps, t := AddStep(c, states, steps, Tick(u - 1 + c.lag));
  }

  /** An INCR may lag by more than `extra`: then a full bucket admits one call more, on a
      counter that has already expired. */
  lemma LateIncrExceedsTheLimit(c: Config) returns (states: seq<State>, steps: seq<Step>)
    requires c.window >= 1 && c.limit >= 1 && 0 <= c.extra < c.lag
    ensures Run(c, states, steps) && |AdmittedIn(states[|steps|], FIRST)| == c.limit + 1
  {
    states, steps := BecomeLate(c);
    var v, w, z := AdmitFresh(c, states[|steps|], c.limit);
    states, steps, v := AddStep(c, states, steps, Incr(c.limit, true, true));
    states, steps, w := AddStep(c, states, steps, Expire(c.limit, true, true));
    states, steps, z := AddStep(c, states, steps, Decide(c.limit));
    SizeUpTo(AdmittedIn(z, FIRST), c.limit + 1);
  }

  /** On every run every bucket stays within the limit. */
  ghost predicate BucketsHold(c: Config)
    requires c.window >= 1
  {
    forall states, steps, n: nat, slot | Run(c, states, steps) && n < |states| :: |AdmittedIn(states[n], slot)| <= Max(0, c.limit)
  }

  /** The bucket limit holds on every run exactly when the time to live outlasts the lag, or
      nothing is admitted anyway; with no extra second, any lag breaks it. */
  lemma BucketsHoldIff(c: Config)
    requires c.window >= 1 && c.extra >= 0
    ensures BucketsHold(c) <==> c.lag <= c.extra || c.limit < 1
  {
    if c.lag <= c.extra || c.limit < 1 {
      forall states, steps, n: nat, slot | Run(c, states, steps) && n < |states|
        ensures |AdmittedIn(states[n], slot)| <= Max(0, c.limit)
      {
        if c.lag <= c.extra {
          BucketLimit(c, states, steps, n, slot);
        } else {
          NoneBelowOne(c, states, steps, n, slot);
        }
      }
    } else {
      var states, steps := LateIncrExceedsTheLimit(c);
    }
  }

  lemma NoneAdmitted(c: Config, s: State, step: Step, s': State)
    requires c.window >= 1 && c.limit < 1 && Do(c, s, step) == Some(s')
    requires forall id | id in s.calls :: TicketsAreCounted(s.calls[id])
    ensures forall id | id in s'.calls :: TicketsAreCounted(s'.calls[id])
  {
    forall id | id in s'.calls ensures TicketsAreCounted(s'.calls[id]) {
      match step
      case Start(i, _, _) =>
        assert id != i ==> s'.calls[id] == s.calls[id];
      case Incr(i, applied, replied) =>
        assert id != i ==> s'.calls[id] == s.calls[id];
      case Expire(i, applied, replied) =>
        assert id != i ==> s'.calls[id] == s.calls[id];
      case Decide(i) =>
        assert TicketsAreCounted(s.calls[i]);
        assert id != i ==> s'.calls[id] == s.calls[id];
      case Ttl(i, replied) =>
        assert id != i ==> s'.calls[id] == s.calls[id];
      case Recover(i) =>
        assert id != i ==> s'.calls[id] == s.calls[id];
      case Tick(_) =>
    }
  }

  /** Tickets start at one, so with a limit below one nothing is admitted, however late. */
  lemma {:induction false} NoneBelowOne(c: Config, states: seq<State>, steps: seq<Step>, n: nat, slot: Slot)
    requires c.window >= 1 && c.limit < 1 && Run(c, states, steps) && n < |states|
    ensures forall id | id in states[n].calls :: TicketsAreCounted(states[n].calls[id])
    ensures AdmittedIn(states[n], slot) == {}
  {
    if n > 0 {
      NoneBelowOne(c, states, steps, n - 1, slot);
      NoneAdmitted(c, states[n - 1], steps[n - 1], states[n]);
    }
    forall id ensures id !in AdmittedIn(states[n], slot) {
      assert id in states[n].calls ==> TicketsAreCounted(states[n].calls[id]);
    }
  }

  predicate TicketsAreCounted(call: Call) {
    !call.phase.Admitted? && (HasTicket(call) ==> TicketOf(call) >= 1)
  }
}
