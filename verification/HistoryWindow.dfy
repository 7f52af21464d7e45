/** How much of the earlier conversation goes into the prompt: the newest turns that fit. */
module HistoryWindow {
  function Total(lines: seq<string>): nat {
    if lines == [] then 0 else |lines[0]| + Total(lines[1..])
  }

  lemma {:induction false} TotalAdds(earlier: seq<string>, line: string)
    ensures Total(earlier + [line]) == Total(earlier) + |line|
    ensures Total([]) == 0
  {
    if earlier != [] {
      assert (earlier + [line])[1..] == earlier[1..] + [line];
      TotalAdds(earlier[1..], line);
    }
  }

  lemma {:induction false} TotalShrinks(lines: seq<string>, i: nat, k: nat)
    requires i <= k <= |lines|
    ensures Total(lines[k..]) <= Total(lines[i..])
    decreases k - i
  {
    if i < k {
      assert lines[i..][1..] == lines[i + 1..];
      TotalShrinks(lines, i + 1, k);
    }
  }

  /** The loop over the turns from newest to oldest stops at the first line that does not fit.
      So it keeps the longest run of newest lines that fits; the newest line alone always does. */
  method RecentLines(lines: seq<string>, budget: int) returns (recent: seq<string>)
    ensures |recent| <= |lines| && recent == lines[|lines| - |recent|..]
    ensures lines != [] ==> recent != []
    ensures |recent| > 1 ==> Total(recent) <= budget
    ensures forall k | 0 <= k < |lines| - |recent| :: Total(lines[k..]) > budget
  {
    recent := [];
    var i := |lines|;
    while i > 0
      invariant 0 <= i <= |lines| && recent == lines[i..]
      invariant |recent| > 1 ==> Total(recent) <= budget
    {
      var candidate := lines[i - 1];
      assert lines[i - 1..][1..] == lines[i..];
      if recent != [] && |candidate| + Total(recent) > budget {
        forall k | 0 <= k < i ensures Total(lines[k..]) > budget {
          TotalShrinks(lines, k, i - 1);
        }
        return;
      }
      recent := [candidate] + recent;
      i := i - 1;
    }
  }
}
