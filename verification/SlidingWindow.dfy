/** The in-process rate limiter: a deque of accepted times per key. Times are microseconds. */
module SlidingWindow {
  import opened Numbers

  datatype Verdict = Accepted | Refused(retryAfter: int) | Raised

  /** `limit` and the window, in microseconds; nothing constrains them. */
  datatype Rule = Rule(limit: int, window: int)

  datatype Decision = Decision(events: seq<int>, verdict: Verdict)

  function DropExpired(events: seq<int>, cutoff: int): seq<int> {
    if events != [] && events[0] <= cutoff then DropExpired(events[1..], cutoff) else events
  }

  /** One call on the deque of its key. A full but empty deque (a limit below one) makes
      `events[0]` raise. */
  function Decide(rule: Rule, events: seq<int>, now: int): Decision {
    var live := DropExpired(events, now - rule.window);
    if |live| < rule.limit then Decision(live + [now], Accepted)
    else if live == [] then Decision(live, Raised)
    else Decision(live, Refused(Max(1, (live[0] + rule.window - now) / SECOND)))
  }

  // ----- a run of calls on one key ---------------------------------------------------------

  /** The deque after calls made at these clock readings, in the order of the lock. */
  function Events(rule: Rule, readings: seq<int>): seq<int> {
    if readings == [] then []
    else Decide(rule, Events(rule, readings[..|readings| - 1]), readings[|readings| - 1]).events
  }

  predicate AcceptedNext(rule: Rule, readings: seq<int>, now: int) {
    Decide(rule, Events(rule, readings), now).verdict == Accepted
  }

  /** All the times ever accepted. */
  function Times(rule: Rule, readings: seq<int>): seq<int> {
    if readings == [] then []
    else
      var before, now := readings[..|readings| - 1], readings[|readings| - 1];
      Times(rule, before) + if AcceptedNext(rule, before, now) then [now] else []
  }

  /** How many of `times` fall into [lo, hi). */
  function Within(times: seq<int>, lo: int, hi: int): nat {
    if times == [] then 0
    else Within(times[..|times| - 1], lo, hi) + if lo <= times[|times| - 1] < hi then 1 else 0
  }

  /** The clock is read before the lock is taken, so a reading may lag behind one already
      used, here by at most `lag`. A lag of zero is a monotone clock. */
  predicate Lagging(readings: seq<int>, lag: int) {
    forall i, j | 0 <= i < j < |readings| :: readings[j] >= readings[i] - lag
  }

  // ----- the deque and the accepted times ----------------------------------------------------

  lemma {:induction false} DropIsSuffix(events: seq<int>, cutoff: int) returns (k: nat)
    ensures k <= |events| && DropExpired(events, cutoff) == events[k..]
    ensures forall i | 0 <= i < k :: events[i] <= cutoff
    ensures k < |events| ==> events[k] > cutoff
  {
    if events != [] && events[0] <= cutoff {
      var j := DropIsSuffix(events[1..], cutoff);
      k := j + 1;
      assert events[k..] == events[1..][j..];
      assert forall i | 1 <= i < k :: events[i] == events[1..][i - 1];
    } else {
      k := 0;
    }
  }

  lemma {:induction false} NeverOverfull(rule: Rule, readings: seq<int>)
    ensures |Events(rule, readings)| <= Max(0, rule.limit)
  {
    if readings != [] {
      var before := Events(rule, readings[..|readings| - 1]);
      NeverOverfull(rule, readings[..|readings| - 1]);
      var k := DropIsSuffix(before, readings[|readings| - 1] - rule.window);
    }
  }

  predicate AllAtMost(times: seq<int>, bound: int) {
    forall i | 0 <= i < |times| :: times[i] <= bound
  }

  predicate AllAbove(times: seq<int>, bound: int) {
    forall i | 0 <= i < |times| :: times[i] > bound
  }

  /** The deque is the accepted times less those some call saw expire. `latest` is the
      greatest reading so far. */
  predicate Tail(rule: Rule, times: seq<int>, events: seq<int>, latest: int) {
    |events| <= |times| && events == times[|times| - |events|..] && AllAtMost(times[..|times| - |events|], latest - rule.window)
  }

  /** Dropping from the deque moves times to the part already gone. */
  lemma DropKeepsTail(rule: Rule, times: seq<int>, events: seq<int>, latest: int, k: nat)
    requires Tail(rule, times, events, latest) && k <= |events| && AllAtMost(events[..k], latest - rule.window)
    ensures Tail(rule, times, events[k..], latest)
  {
    var gone := |times| - |events|;
    assert forall i | 0 <= i < gone :: times[i] == times[..gone][i];
    assert forall i | gone <= i < gone + k :: times[i] == events[..k][i - gone];
  }

  lemma PushKeepsTail(rule: Rule, times: seq<int>, events: seq<int>, latest: int, now: int)
    requires Tail(rule, times, events, latest)
    ensures Tail(rule, times + [now], events + [now], latest)
  {
    var gone := |times| - |events|;
    assert (times + [now])[gone..] == times[gone..] + [now] && (times + [now])[..gone] == times[..gone];
  }

  lemma CallKeepsTail(rule: Rule, times: seq<int>, events: seq<int>, latest: int, now: int)
    requires Tail(rule, times, events, latest) && now <= latest
    ensures var d := Decide(rule, events, now);
            Tail(rule, times + (if d.verdict == Accepted then [now] else []), d.events, latest)
  {
    var k := DropIsSuffix(events, now - rule.window);
    DropKeepsTail(rule, times, events, latest, k);
    PushKeepsTail(rule, times, events[k..], latest, now);
    assert times + [] == times;
  }

  lemma {:induction false} EventsAreTail(rule: Rule, readings: seq<int>, latest: int)
    requires AllAtMost(readings, latest)
    ensures Tail(rule, Times(rule, readings), Events(rule, readings), latest)
  {
    if readings != [] {
      var before, now := readings[..|readings| - 1], readings[|readings| - 1];
      EventsAreTail(rule, before, latest);
      CallKeepsTail(rule, Times(rule, before), Events(rule, before), latest, now);
    } else {
      assert Times(rule, readings) == [] && Events(rule, readings) == [];
    }
  }

  // ----- the limit ------------------------------------------------------------------------------

  lemma {:induction false} WithinConcat(a: seq<int>, b: seq<int>, lo: int, hi: int)
    ensures Within(a + b, lo, hi) == Within(a, lo, hi) + Within(b, lo, hi)
  {
    if b == [] {
      assert a + b == a;
    } else {
      assert (a + b)[..|a + b| - 1] == a + b[..|b| - 1];
      WithinConcat(a, b[..|b| - 1], lo, hi);
    }
  }

  lemma {:induction false} WithinAtMost(times: seq<int>, lo: int, hi: int)
    ensures Within(times, lo, hi) <= |times|
  {
    if times != [] {
      WithinAtMost(times[..|times| - 1], lo, hi);
    }
  }

  lemma {:induction false} NoneWithin(times: seq<int>, lo: int, hi: int)
    requires AllAtMost(times, lo - 1)
    ensures Within(times, lo, hi) == 0
  {
    if times != [] {
      NoneWithin(times[..|times| - 1], lo, hi);
    }
  }

  function Latest(readings: seq<int>): int
    requires readings != []
  {
    var n := |readings| - 1;
    if n == 0 then readings[0] else Max(Latest(readings[..n]), readings[n])
  }

  lemma {:induction false} LatestIsMaximum(readings: seq<int>) returns (i: nat)
    requires readings != []
    ensures AllAtMost(readings, Latest(readings)) && i < |readings| && readings[i] == Latest(readings)
  {
    var n := |readings| - 1;
    if n == 0 {
      i := 0;
    } else {
      i := LatestIsMaximum(readings[..n]);
      assert forall j | 0 <= j < n :: readings[j] == readings[..n][j];
      if readings[n] > readings[i] {
        i := n;
      }
    }
  }

  /** Everything a short enough span around a newly accepted time holds is in the deque. */
  lemma SpanIsInDeque(rule: Rule, times: seq<int>, events: seq<int>, latest: int, lo: int, hi: int)
    requires Tail(rule, times, events, latest) && latest - rule.window < lo
    ensures Within(times, lo, hi) <= |events|
  {
    var gone := times[..|times| - |events|];
    assert times == gone + events;
    WithinConcat(gone, events, lo, hi);
    NoneWithin(gone, lo, hi);
    WithinAtMost(events, lo, hi);
  }

  lemma AcceptanceFits(rule: Rule, readings: seq<int>, lag: int, lo: int)
    requires readings != [] && lag >= 0 && Lagging(readings, lag)
    requires var before, now := readings[..|readings| - 1], readings[|readings| - 1];
             AcceptedNext(rule, before, now) && lo <= now < lo + rule.window - lag
    ensures Within(Times(rule, readings), lo, lo + rule.window - lag) <= Max(0, rule.limit)
  {
    var i := LatestIsMaximum(readings);
    assert readings[|readings| - 1] >= Latest(readings) - lag;
    EventsAreTail(rule, readings, Latest(readings));
    NeverOverfull(rule, readings);
    SpanIsInDeque(rule, Times(rule, readings), Events(rule, readings), Latest(readings), lo, lo + rule.window - lag);
  }

  /** Where no reading lags by more than `lag`, every half-open span of the window less
      `lag` holds at most `limit` acceptances; with a monotone clock, every window does. */
  lemma {:induction false} LimitHolds(rule: Rule, readings: seq<int>, lag: int, lo: int)
    requires lag >= 0 && Lagging(readings, lag)
    ensures Within(Times(rule, readings), lo, lo + rule.window - lag) <= Max(0, rule.limit)
  {
    if readings != [] {
      var before, now := readings[..|readings| - 1], readings[|readings| - 1];
      LimitHolds(rule, before, lag, lo);
      WithinConcat(Times(rule, before), [now], lo, lo + rule.window - lag);
      if AcceptedNext(rule, before, now) && lo <= now < lo + rule.window - lag {
        AcceptanceFits(rule, readings, lag, lo);
      }
      assert Times(rule, before) + [] == Times(rule, before);
      assert Within([now], lo, lo + rule.window - lag) ==
             Within([], lo, lo + rule.window - lag) + if lo <= now < lo + rule.window - lag then 1 else 0;
    }
  }

  lemma OneReadingMore(rule: Rule, readings: seq<int>, now: int, lo: int, hi: int)
    ensures Events(rule, readings + [now]) == Decide(rule, Events(rule, readings), now).events
    ensures Within(Times(rule, readings + [now]), lo, hi) ==
            Within(Times(rule, readings), lo, hi) + if AcceptedNext(rule, readings, now) && lo <= now < hi then 1 else 0
  {
    assert (readings + [now])[..|readings|] == readings;
    WithinConcat(Times(rule, readings), [now], lo, hi);
    assert Times(rule, readings) + [] == Times(rule, readings);
    assert Within([now], lo, hi) == Within([], lo, hi) + if lo <= now < hi then 1 else 0;
  }

  // ----- how long a span the limit holds for -----------------------------------------------------

  /** No run whose readings lag by at most `lag` gets more than `limit` acceptances into any
      half-open span of this length. */
  ghost predicate SpanIsSafe(rule: Rule, lag: int, span: int) {
    forall readings, lo | Lagging(readings, lag) :: InSpan(rule, readings, lo, span) <= Max(0, rule.limit)
  }

  function InSpan(rule: Rule, readings: seq<int>, lo: int, span: int): nat {
    Within(Times(rule, readings), lo, lo + span)
  }

  /** The longest safe span. With a limit of one the deque holds the last acceptance alone,
      so no reading, however late, comes before it. */
  function LongestSafeSpan(rule: Rule, lag: int): int {
    if rule.limit == 1 then rule.window else rule.window - lag
  }

  lemma {:induction false} WithinWidens(times: seq<int>, lo: int, hi: int, higher: int)
    requires hi <= higher
    ensures Within(times, lo, hi) <= Within(times, lo, higher)
    ensures hi <= lo ==> Within(times, lo, hi) == 0
  {
    if times != [] {
      WithinWidens(times[..|times| - 1], lo, hi, higher);
    }
  }

  /** What the calls so far came to: the deque, and the acceptances in [0, hi). */
  predicate Stands(rule: Rule, hi: int, readings: seq<int>, events: seq<int>, accepted: nat) {
    Events(rule, readings) == events && Within(Times(rule, readings), 0, hi) == accepted
  }

  lemma AcceptedReading(rule: Rule, hi: int, readings: seq<int>, events: seq<int>, accepted: nat, now: int, after: seq<int>)
    requires Stands(rule, hi, readings, events, accepted) && Decide(rule, events, now) == Decision(after, Accepted)
    ensures Stands(rule, hi, readings + [now], after, accepted + if 0 <= now < hi then 1 else 0)
  {
    OneReadingMore(rule, readings, now, 0, hi);
  }

  function Zeros(n: nat): (zeros: seq<int>)
    ensures |zeros| == n && forall i | 0 <= i < n :: zeros[i] == 0
  {
    if n == 0 then [] else Zeros(n - 1) + [0]
  }

  lemma ZerosExpire(n: nat, cutoff: int)
    requires cutoff >= 0
    ensures DropExpired(Zeros(n), cutoff) == []
  {
    var k := DropIsSuffix(Zeros(n), cutoff);
    assert k == n;
  }

  lemma {:induction false} ZerosFill(rule: Rule, hi: int, n: nat)
    requires rule.window > 0 && n <= rule.limit && hi > 0
    ensures Stands(rule, hi, Zeros(n), Zeros(n), n)
  {
    if n > 0 {
      ZerosFill(rule, hi, n - 1);
      AcceptedReading(rule, hi, Zeros(n - 1), Zeros(n - 1), n - 1, 0, Zeros(n));
    }
  }

  /** Without a window every call clears the deque and is accepted. */
  lemma {:induction false} NothingIsKept(rule: Rule, hi: int, n: nat)
    requires rule.window <= 0 && rule.limit >= 1 && hi > 0
    ensures Stands(rule, hi, Zeros(n), Zeros(if n == 0 then 0 else 1), n)
  {
    if n > 0 {
      NothingIsKept(rule, hi, n - 1);
      var before := if n == 1 then 0 else 1;
      ZerosExpire(before, 0 - rule.window);
      assert Zeros(1) == [] + [0];
      AcceptedReading(rule, hi, Zeros(n - 1), Zeros(before), n - 1, 0, Zeros(1));
    }
  }

  /** A call that is read just when a full deque expires, and takes the lock first. */
  lemma FullThenCleared(rule: Rule, hi: int)
    requires rule.window > 0 && rule.limit >= 1 && hi > 0
    ensures Stands(rule, hi, Zeros(rule.limit) + [rule.window], [rule.window], rule.limit + if rule.window < hi then 1 else 0)
  {
    ZerosFill(rule, hi, rule.limit);
    ZerosExpire(rule.limit, 0);
    assert [] + [rule.window] == [rule.window];
    AcceptedReading(rule, hi, Zeros(rule.limit), Zeros(rule.limit), rule.limit, rule.window, [rule.window]);
  }

  lemma LateComer(rule: Rule, late: int)
    requires rule.window > 0 && rule.limit >= 2 && 0 <= late <= rule.window
    ensures Decide(rule, [rule.window], late) == Decision([rule.window] + [late], Accepted)
  {
  }

  lemma FullThenLate(rule: Rule, late: int, hi: int)
    requires rule.window > 0 && rule.limit >= 2 && 0 <= late <= rule.window && late < hi
    ensures InSpan(rule, Zeros(rule.limit) + [rule.window] + [late], 0, hi) > rule.limit
  {
    FullThenCleared(rule, hi);
    LateComer(rule, late);
    AcceptedReading(rule, hi, Zeros(rule.limit) + [rule.window], [rule.window],
                    rule.limit + if rule.window < hi then 1 else 0, late, [rule.window] + [late]);
  }

  lemma LateByLag(n: nat, window: int, late: int, lag: int)
    requires window > 0 && 0 <= late && lag >= 0 && window - lag <= late
    ensures Lagging(Zeros(n) + [window] + [late], lag)
  {
    var r := Zeros(n) + [window] + [late];
    assert |r| == n + 2 && r[n] == window && r[n + 1] == late && forall i | 0 <= i < n :: r[i] == 0;
  }

  /** A longer span takes one too many: `limit` calls at once, one at the end of their
      window, and one that was read up to `lag` earlier but takes the lock after it. */
  lemma LongerSpanOverflows(rule: Rule, lag: int, span: int) returns (readings: seq<int>)
    requires lag >= 0 && rule.limit >= 1 && span > Max(0, LongestSafeSpan(rule, lag))
    ensures Lagging(readings, lag) && InSpan(rule, readings, 0, span) > rule.limit
  {
    if rule.window <= 0 {
      readings := ManyOverflow(rule, lag, span);
    } else if rule.limit == 1 {
      readings := TwoOverflow(rule, lag, span);
    } else {
      readings := LateOverflows(rule, lag, span);
    }
  }

  lemma ManyOverflow(rule: Rule, lag: int, span: int) returns (readings: seq<int>)
    requires lag >= 0 && rule.limit >= 1 && rule.window <= 0 < span
    ensures Lagging(readings, lag) && InSpan(rule, readings, 0, span) > rule.limit
  {
    readings := Zeros(rule.limit + 1);
    NothingIsKept(rule, span, rule.limit + 1);
  }

  lemma TwoOverflow(rule: Rule, lag: int, span: int) returns (readings: seq<int>)
    requires lag >= 0 && rule.limit == 1 && 0 < rule.window < span
    ensures Lagging(readings, lag) && InSpan(rule, readings, 0, span) > rule.limit
  {
    readings := Zeros(rule.limit) + [rule.window];
    FullThenCleared(rule, span);
    LagOfNone(rule.window, lag);
  }

  lemma LateOverflows(rule: Rule, lag: int, span: int) returns (readings: seq<int>)
    requires lag >= 0 && rule.window > 0 && rule.limit >= 2 && span > Max(0, rule.window - lag)
    ensures Lagging(readings, lag) && InSpan(rule, readings, 0, span) > rule.limit
  {
    var late := Max(0, rule.window - lag);
    readings := Zeros(rule.limit) + [rule.window] + [late];
    FullThenLate(rule, late, span);
    LateByLag(rule.limit, rule.window, late, lag);
  }

  lemma LagOfNone(window: int, lag: int)
    requires window > 0 && lag >= 0
    ensures Lagging(Zeros(1) + [window], lag)
  {
    var r := Zeros(1) + [window];
    assert |r| == 2 && r[0] == 0 && r[1] == window;
  }

  // ----- a limit of one

  predicate Spaced(times: seq<int>, window: int) {
    forall i, j | 0 <= i < j < |times| :: times[i] <= times[j] - window
  }

  lemma OneIsReplaced(window: int, last: int, now: int)
    ensures var d := Decide(Rule(1, window), [last], now);
            if last <= now - window then d == Decision([now], Accepted) else d.events == [last] && d.verdict != Accepted
  {
    var k := DropIsSuffix([last], now - window);
    if last <= now - window {
      assert k == 1 && [last][1..] + [now] == [now];
    } else {
      assert k == 0 && [last][0..] == [last];
    }
  }

  lemma OneMoreAccepted(rule: Rule, readings: seq<int>)
    requires readings != []
    ensures var before, now := readings[..|readings| - 1], readings[|readings| - 1];
            && Events(rule, readings) == Decide(rule, Events(rule, before), now).events
            && Times(rule, readings) ==
               if Decide(rule, Events(rule, before), now).verdict == Accepted then Times(rule, before) + [now] else Times(rule, before)
  {
    var before := readings[..|readings| - 1];
    assert Times(rule, before) + [] == Times(rule, before);
  }

  /** One step of the following, on values. */
  predicate LastOnly(window: int, times: seq<int>, events: seq<int>) {
    Spaced(times, window) && events == if times == [] then [] else [times[|times| - 1]]
  }

  lemma LastOnlyStays(window: int, times: seq<int>, events: seq<int>, now: int)
    requires window > 0 && LastOnly(window, times, events)
    ensures var d := Decide(Rule(1, window), events, now);
            LastOnly(window, if d.verdict == Accepted then times + [now] else times, d.events)
  {
    if times == [] {
      assert [] + [now] == [now];
    } else {
      OneIsReplaced(window, times[|times| - 1], now);
    }
  }

  /** With a limit of one the deque is the last acceptance, and acceptances are at least a
      window apart. */
  lemma {:induction false} OneAtATime(window: int, readings: seq<int>)
    requires window > 0
    ensures LastOnly(window, Times(Rule(1, window), readings), Events(Rule(1, window), readings))
  {
    if readings != [] {
      var before := readings[..|readings| - 1];
      OneAtATime(window, before);
      OneMoreAccepted(Rule(1, window), readings);
      LastOnlyStays(window, Times(Rule(1, window), before), Events(Rule(1, window), before), readings[|readings| - 1]);
    }
  }

  lemma {:induction false} SpacedHoldsOne(times: seq<int>, window: int, lo: int)
    requires window > 0 && Spaced(times, window)
    ensures Within(times, lo, lo + window) <= 1
  {
    if times != [] {
      var last := times[|times| - 1];
      SpacedHoldsOne(times[..|times| - 1], window, lo);
      if lo <= last < lo + window {
        NoneWithin(times[..|times| - 1], lo, lo + window);
      }
    }
  }

  lemma {:induction false} NoneBelowOne(rule: Rule, readings: seq<int>)
    requires rule.limit < 1
    ensures Times(rule, readings) == []
  {
    if readings != [] {
      NoneBelowOne(rule, readings[..|readings| - 1]);
    }
  }

  lemma SpanOfOne(rule: Rule, span: int, readings: seq<int>, lo: int)
    requires rule.limit == 1 && 0 < span <= rule.window
    ensures InSpan(rule, readings, lo, span) <= 1
  {
    OneAtATime(rule.window, readings);
    SpacedHoldsOne(Times(rule, readings), rule.window, lo);
    WithinWidens(Times(rule, readings), lo, lo + span, lo + rule.window);
  }

  lemma SpanOfMany(rule: Rule, lag: int, span: int, readings: seq<int>, lo: int)
    requires lag >= 0 && Lagging(readings, lag) && span <= rule.window - lag
    ensures InSpan(rule, readings, lo, span) <= Max(0, rule.limit)
  {
    LimitHolds(rule, readings, lag, lo);
    WithinWidens(Times(rule, readings), lo, lo + span, lo + rule.window - lag);
  }

  /** Up to the longest safe span the limit holds. */
  lemma ShorterSpanHolds(rule: Rule, lag: int, span: int, readings: seq<int>, lo: int)
    requires lag >= 0 && Lagging(readings, lag)
    requires span <= 0 || rule.limit < 1 || span <= LongestSafeSpan(rule, lag)
    ensures InSpan(rule, readings, lo, span) <= Max(0, rule.limit)
  {
    if rule.limit < 1 {
      NoneBelowOne(rule, readings);
    } else if span <= 0 {
      WithinWidens(Times(rule, readings), lo, lo + span, lo + span);
    } else if rule.limit == 1 {
      SpanOfOne(rule, span, readings, lo);
    } else {
      SpanOfMany(rule, lag, span, readings, lo);
    }
  }

  /** For readings that lag by at most `lag`, and for every limit and window, a span holds at
      most `limit` acceptances on every run exactly when it is no longer than the window
      less the lag; with a limit of one, than the window. */
  lemma SpanIsSafeIff(rule: Rule, lag: int, span: int)
    requires lag >= 0
    ensures SpanIsSafe(rule, lag, span) <==> span <= 0 || rule.limit < 1 || span <= LongestSafeSpan(rule, lag)
  {
    if span <= 0 || rule.limit < 1 || span <= LongestSafeSpan(rule, lag) {
      forall readings, lo | Lagging(readings, lag)
        ensures InSpan(rule, readings, lo, span) <= Max(0, rule.limit)
      {
        ShorterSpanHolds(rule, lag, span, readings, lo);
      }
    } else {
      var readings := LongerSpanOverflows(rule, lag, span);
    }
  }

  // ----- with a monotone clock -------------------------------------------------------------------

  function After(times: seq<int>, cutoff: int): seq<int> {
    if times == [] then []
    else
      var before := After(times[..|times| - 1], cutoff);
      if times[|times| - 1] > cutoff then before + [times[|times| - 1]] else before
  }

  lemma AfterGrows(times: seq<int>, now: int, cutoff: int)
    requires now > cutoff
    ensures After(times + [now], cutoff) == After(times, cutoff) + [now]
  {
    assert (times + [now])[..|times|] == times;
  }

  lemma {:induction false} NoneAfter(gone: seq<int>, cutoff: int)
    requires AllAtMost(gone, cutoff)
    ensures After(gone, cutoff) == []
  {
    if gone != [] {
      NoneAfter(gone[..|gone| - 1], cutoff);
    }
  }

  lemma {:induction false} AfterSplit(gone: seq<int>, late: seq<int>, cutoff: int)
    requires AllAtMost(gone, cutoff) && AllAbove(late, cutoff)
    ensures After(gone + late, cutoff) == late
  {
    if late == [] {
      assert gone + late == gone;
      NoneAfter(gone, cutoff);
    } else {
      var n := |late| - 1;
      assert gone + late == (gone + late[..n]) + [late[n]];
      AfterSplit(gone, late[..n], cutoff);
      AfterGrows(gone + late[..n], late[n], cutoff);
    }
  }

  /** Accepted times come in order and never exceed the last reading. */
  lemma {:induction false} TimesAscend(rule: Rule, readings: seq<int>, last: int)
    requires Lagging(readings, 0) && AllAtMost(readings, last)
    ensures Lagging(Times(rule, readings), 0) && AllAtMost(Times(rule, readings), last)
  {
    if readings != [] {
      TimesAscend(rule, readings[..|readings| - 1], readings[|readings| - 1]);
    }
  }

  /** A deque in order loses exactly what lies outside the window. */
  lemma DropIsAll(events: seq<int>, cutoff: int) returns (k: nat)
    requires Lagging(events, 0)
    ensures k <= |events| && DropExpired(events, cutoff) == events[k..]
    ensures AllAtMost(events[..k], cutoff) && AllAbove(events[k..], cutoff)
  {
    k := DropIsSuffix(events, cutoff);
  }

  lemma TailAscends(rule: Rule, times: seq<int>, events: seq<int>, now: int)
    requires Tail(rule, times, events, now) && Lagging(times, 0)
    ensures Lagging(events, 0)
  {
    var first := |times| - |events|;
    assert forall i | 0 <= i < |events| :: events[i] == times[first + i];
  }

  lemma Regroup(a: seq<int>, b: seq<int>, k: nat, bound: int)
    requires k <= |b| && AllAtMost(a, bound) && AllAtMost(b[..k], bound)
    ensures a + b == (a + b[..k]) + b[k..] && AllAtMost(a + b[..k], bound)
  {
  }

  /** What a call on a monotone clock finds in the deque is the window that ends with it. */
  lemma WindowBeforeCall(rule: Rule, times: seq<int>, events: seq<int>, now: int) returns (gone: seq<int>)
    requires Tail(rule, times, events, now) && Lagging(times, 0)
    ensures var live := DropExpired(events, now - rule.window);
            && times == gone + live && AllAtMost(gone, now - rule.window) && AllAbove(live, now - rule.window)
            && After(times, now - rule.window) == live && |live| <= |events|
  {
    TailAscends(rule, times, events, now);
    var k := DropIsAll(events, now - rule.window);
    var old' := times[..|times| - |events|];
    gone := old' + events[..k];
    Regroup(old', events, k, now - rule.window);
    AfterSplit(gone, events[k..], now - rule.window);
  }

  /** And what it leaves there is the window again, with the call if it was accepted. */
  lemma WindowAfterCall(rule: Rule, times: seq<int>, events: seq<int>, now: int)
    requires Tail(rule, times, events, now) && Lagging(times, 0) && rule.window > 0
    ensures var d := Decide(rule, events, now);
            d.events == After(times + (if d.verdict == Accepted then [now] else []), now - rule.window)
  {
    var gone := WindowBeforeCall(rule, times, events, now);
    AfterGrows(times, now, now - rule.window);
    assert times + [] == times;
  }

  lemma VerdictByWindow(rule: Rule, times: seq<int>, events: seq<int>, now: int)
    requires Tail(rule, times, events, now) && Lagging(times, 0)
    ensures var window := After(times, now - rule.window);
            |window| <= |events| && (Decide(rule, events, now).verdict == Accepted <==> |window| < rule.limit)
  {
    var gone := WindowBeforeCall(rule, times, events, now);
  }

  /** On a monotone clock a call is accepted exactly when fewer than `limit` acceptances lie
      in the window that ends with it; a refusal means the window is full. */
  lemma RefusalMeansFull(rule: Rule, readings: seq<int>, now: int)
    requires Lagging(readings, 0) && AllAtMost(readings, now)
    ensures AcceptedNext(rule, readings, now) <==> |After(Times(rule, readings), now - rule.window)| < rule.limit
    ensures |After(Times(rule, readings), now - rule.window)| <= Max(0, rule.limit)
  {
    EventsAreTail(rule, readings, now);
    TimesAscend(rule, readings, now);
    NeverOverfull(rule, readings);
    VerdictByWindow(rule, Times(rule, readings), Events(rule, readings), now);
  }

  /** On a monotone clock the deque after a call is exactly the accepted times inside the
      window that ends with the call. */
  lemma DequeIsTheWindow(rule: Rule, readings: seq<int>, now: int)
    requires Lagging(readings, 0) && AllAtMost(readings, now) && rule.window > 0
    ensures Events(rule, readings + [now]) == After(Times(rule, readings + [now]), now - rule.window)
  {
    EventsAreTail(rule, readings, now);
    TimesAscend(rule, readings, now);
    assert (readings + [now])[..|readings|] == readings;
    WindowAfterCall(rule, Times(rule, readings), Events(rule, readings), now);
  }

  /** The exception is raised exactly where the limit is below one: then the deque is always
      empty, and every call raises. */
  lemma {:induction false} RaisesIff(rule: Rule, readings: seq<int>, now: int)
    ensures Decide(rule, Events(rule, readings), now).verdict == Raised <==> rule.limit < 1
  {
    NeverOverfull(rule, readings);
    var k := DropIsSuffix(Events(rule, readings), now - rule.window);
  }

  // ----- trying again ------------------------------------------------------------------------------

  /** A refused call leaves the deque as it was. */
  lemma RefusalChangesNothing(rule: Rule, events: seq<int>, now: int)
    requires |events| <= rule.limit && Decide(rule, events, now).verdict.Refused?
    ensures Decide(rule, events, now).events == events
  {
    var k := DropIsSuffix(events, now - rule.window);
    assert |events[k..]| == |events| - k;
    assert events[0..] == events;
  }

  /** After a refusal, and while nothing else is accepted, a retry is accepted exactly from
      the moment the oldest accepted time leaves the window. */
  lemma RetryIff(rule: Rule, events: seq<int>, now: int, again: int)
    requires |events| <= rule.limit && Decide(rule, events, now).verdict.Refused?
    ensures events != [] && (Decide(rule, events, again).verdict == Accepted <==> again >= events[0] + rule.window)
  {
    RefusalChangesNothing(rule, events, now);
    var k := DropIsSuffix(events, again - rule.window);
    if again < events[0] + rule.window {
      assert k == 0 && events[0..] == events;
    } else {
      assert k > 0 by { assert k == 0 ==> events[k] > again - rule.window; }
      assert |events[k..]| < rule.limit;
    }
  }

  /** Whole seconds, rounded down and at least one, against the time that remains. */
  lemma StatedDelay(remaining: int)
    requires remaining > 0
    ensures var stated := Max(1, remaining / SECOND) * SECOND;
            && SECOND <= stated <= Max(SECOND, remaining) <= stated + SECOND
            && (stated >= remaining <==> remaining % SECOND == 0 || remaining < SECOND)
  {
    var q := remaining / SECOND;
    assert remaining == q * SECOND + remaining % SECOND;
  }

  /** One second after the stated delay a retry is accepted; at the stated delay itself,
      exactly when the remaining time was a whole number of seconds or less than one. */
  lemma RetryAfter(rule: Rule, events: seq<int>, now: int)
    requires |events| <= rule.limit && Decide(rule, events, now).verdict.Refused?
    ensures events != []
    ensures var stated := Decide(rule, events, now).verdict.retryAfter * 1_000_000;
            var remaining := events[0] + rule.window - now;
            && remaining > 0 && 1_000_000 <= stated <= Max(1_000_000, remaining)
            && Decide(rule, events, now + stated + 1_000_000).verdict == Accepted
            && (Decide(rule, events, now + stated).verdict == Accepted <==> remaining % 1_000_000 == 0 || remaining < 1_000_000)
  {
    RefusalChangesNothing(rule, events, now);
    var d := Decide(rule, events, now);
    assert d.events == events && events[0] > now - rule.window by {
      var k := DropIsSuffix(events, now - rule.window);
      assert |events[k..]| == |events| - k;
    }
    StatedDelay(events[0] + rule.window - now);
    RetryIff(rule, events, now, now + d.verdict.retryAfter * SECOND + SECOND);
    RetryIff(rule, events, now, now + d.verdict.retryAfter * SECOND);
  }

  // ----- the class ------------------------------------------------------------------------------------

  class InMemoryRateLimiter {
    const rule: Rule
    var events: map<string, seq<int>>

    constructor (limit: int, windowSeconds: int)
      ensures rule == Rule(limit, windowSeconds * 1_000_000) && events == map[]
    {
      rule := Rule(limit, windowSeconds * SECOND);
      events := map[];
    }

    function EventsOf(key: string): seq<int>
      reads this
    {
      if key in events then events[key] else []
    }

    /** `allow`, holding the lock, for a clock read before it was taken. */
    method Allow(key: string, now: int) returns (verdict: Verdict)
      modifies this`events
      ensures var d := Decide(rule, old(EventsOf(key)), now); verdict == d.verdict && EventsOf(key) == d.events
      ensures forall other | other != key :: EventsOf(other) == old(EventsOf(other))
    {
      var cutoff := now - rule.window;
      if key !in events {
        events := events[key := []];
      }
      while events[key] != [] && events[key][0] <= cutoff
        invariant key in events && DropExpired(events[key], cutoff) == DropExpired(old(EventsOf(key)), cutoff)
        invariant forall other | other != key :: EventsOf(other) == old(EventsOf(other))
        decreases |events[key]|
      {
        events := events[key := events[key][1..]];
      }
      if |events[key]| >= rule.limit {
        if events[key] == [] {
          return Raised;
        }
        return Refused(Max(1, (events[key][0] + rule.window - now) / SECOND));
      }
      events := events[key := events[key] + [now]];
      return Accepted;
    }
  }
}
