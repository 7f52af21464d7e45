/** Collapsing child hits to their strongest parent: the loop over an insertion-ordered
    dictionary, against a group-by written without one. */
module ParentGrouping {
  /** The score of a hit may be missing from its dictionary, or be None. */
  datatype ScoreField = Absent | Null | Given(value: real)

  /** One retrieval hit. An empty parent id is the missing one; `fields` are its other keys. */
  datatype Hit = Hit(parentId: string, chunkId: string, score: ScoreField, fields: map<string, string>)

  datatype Group = Group(parent: string, best: Hit, children: seq<string>)

  function ParentOf(h: Hit): string {
    if h.parentId != "" then h.parentId else h.chunkId
  }

  /** `float(result.get("score") or 0.0)`. */
  function Score(h: Hit): real {
    if h.score.Given? then h.score.value else 0.0
  }

  /** `result.get(key) or ""`. */
  function Get(h: Hit, key: string): string { if key in h.fields then h.fields[key] else "" }

  function ArticleOf(h: Hit): string { Get(h, "article_id") }

  /** The text the prompt would use. */
  function Body(h: Hit): string { if Get(h, "parent_text") != "" then Get(h, "parent_text") else Get(h, "chunk_text") }

  /** `current.update(...)` with the keys of a stronger hit: they replace those of the row,
      and what the hit does not carry stays, a score included. */
  function Update(current: Hit, h: Hit): Hit {
    Hit(current.parentId, h.chunkId, if h.score.Absent? then current.score else h.score, current.fields + h.fields)
  }

  // ----- the group-by specification -----------------------------------------------------

  /** The distinct parents, in the order they are first seen. */
  function Parents(hits: seq<Hit>): seq<string> {
    if hits == [] then []
    else
      var seen := Parents(hits[..|hits| - 1]);
      var p := ParentOf(hits[|hits| - 1]);
      if p in seen then seen else seen + [p]
  }

  /** The hits of one parent that show a child for the first time. */
  function FirstSeen(hits: seq<Hit>, parent: string): seq<Hit> {
    if hits == [] then []
    else
      var before := FirstSeen(hits[..|hits| - 1], parent);
      var h := hits[|hits| - 1];
      if ParentOf(h) == parent && h.chunkId !in ChunkIds(before) then before + [h] else before
  }

  function ChunkIds(hits: seq<Hit>): (ids: seq<string>)
    ensures |ids| == |hits| && forall i | 0 <= i < |ids| :: ids[i] == hits[i].chunkId
  {
    seq(|hits|, i requires 0 <= i < |hits| => hits[i].chunkId)
  }

  /** The row of these hits: each that is stronger than the row so far is merged into it. */
  function Merged(hits: seq<Hit>): Hit
    requires hits != []
  {
    var n := |hits| - 1;
    if n == 0 then hits[0]
    else
      var before := Merged(hits[..n]);
      if Score(hits[n]) > Score(before) then Update(before, hits[n]) else before
  }

  /** Hit `j` is stronger than the row of those before it. */
  predicate Wins(hits: seq<Hit>, j: nat)
    requires j < |hits|
  {
    j == 0 || Score(hits[j]) > Score(Merged(hits[..j]))
  }

  predicate Offers(hits: seq<Hit>, parent: string) {
    exists i | 0 <= i < |hits| :: ParentOf(hits[i]) == parent
  }

  lemma {:induction false} OffersIff(hits: seq<Hit>, parent: string)
    ensures parent in Parents(hits) <==> Offers(hits, parent)
    ensures FirstSeen(hits, parent) != [] <==> Offers(hits, parent)
  {
    if hits != [] {
      var n := |hits| - 1;
      OffersIff(hits[..n], parent);
      assert forall i | 0 <= i < n :: hits[..n][i] == hits[i];
    }
  }

  function GroupOf(hits: seq<Hit>, parent: string): Group
    requires FirstSeen(hits, parent) != []
  {
    var firsts := FirstSeen(hits, parent);
    Group(parent, Merged(firsts), ChunkIds(firsts))
  }

  lemma ParentsOffer(hits: seq<Hit>)
    ensures forall i | 0 <= i < |Parents(hits)| :: FirstSeen(hits, Parents(hits)[i]) != []
  {
    forall i | 0 <= i < |Parents(hits)| ensures FirstSeen(hits, Parents(hits)[i]) != [] {
      OffersIff(hits, Parents(hits)[i]);
    }
  }

  /** One row for each distinct parent. */
  function Grouped(hits: seq<Hit>): (groups: seq<Group>)
    ensures |groups| == |Parents(hits)|
  {
    ParentsOffer(hits);
    var parents := Parents(hits);
    seq(|parents|, i requires 0 <= i < |parents| => GroupOf(hits, parents[i]))
  }

  // ----- what the specification says ------------------------------------------------------

  lemma {:induction false} ParentsAreDistinct(hits: seq<Hit>)
    ensures forall i, j | 0 <= i < j < |Parents(hits)| :: Parents(hits)[i] != Parents(hits)[j]
  {
    if hits != [] {
      ParentsAreDistinct(hits[..|hits| - 1]);
    }
  }

  lemma {:induction false} FirstSeenChildren(hits: seq<Hit>, parent: string, child: string)
    ensures child in ChunkIds(FirstSeen(hits, parent)) <==>
            exists i | 0 <= i < |hits| :: ParentOf(hits[i]) == parent && hits[i].chunkId == child
    ensures var ids := ChunkIds(FirstSeen(hits, parent)); forall i, j | 0 <= i < j < |ids| :: ids[i] != ids[j]
  {
    if hits != [] {
      var n := |hits| - 1;
      FirstSeenChildren(hits[..n], parent, child);
      assert forall i | 0 <= i < n :: hits[..n][i] == hits[i];
      var before := FirstSeen(hits[..n], parent);
      if ParentOf(hits[n]) == parent && hits[n].chunkId !in ChunkIds(before) {
        assert ChunkIds(before + [hits[n]]) == ChunkIds(before) + [hits[n].chunkId];
      }
    }
  }

  lemma WinsEarlier(hits: seq<Hit>, n: nat, j: nat)
    requires j < n <= |hits|
    ensures Wins(hits[..n], j) == Wins(hits, j)
  {
    assert hits[..n][..j] == hits[..j];
  }

  /** The last hit that won: its chunk id and all its keys are those of the row. */
  lemma {:induction false} LastWinner(hits: seq<Hit>) returns (k: nat)
    requires hits != []
    ensures k < |hits| && Wins(hits, k) && forall i | k < i < |hits| :: !Wins(hits, i)
    ensures Merged(hits).chunkId == hits[k].chunkId
    ensures forall f | f in hits[k].fields :: f in Merged(hits).fields && Merged(hits).fields[f] == hits[k].fields[f]
  {
    var n := |hits| - 1;
    if n == 0 || Wins(hits, n) {
      k := n;
    } else {
      k := LastWinner(hits[..n]);
      forall i | 0 <= i < n ensures Wins(hits[..n], i) == Wins(hits, i) {
        WinsEarlier(hits, n, i);
      }
    }
  }

  predicate WinsWith(hits: seq<Hit>, f: string, j: nat)
    requires j < |hits|
  {
    Wins(hits, j) && f in hits[j].fields
  }

  /** Hit `j` is the last winner that carries this key. */
  predicate LastToCarry(hits: seq<Hit>, f: string, j: nat) {
    j < |hits| && WinsWith(hits, f, j) && forall i | j < i < |hits| :: !WinsWith(hits, f, i)
  }

  lemma SameBefore(hits: seq<Hit>, f: string, n: nat, i: nat)
    requires i < n <= |hits|
    ensures WinsWith(hits[..n], f, i) == WinsWith(hits, f, i)
  {
    WinsEarlier(hits, n, i);
  }

  /** Every key of the row is that of the last winner that carries it; no other is there. */
  lemma {:induction false} KeysOfTheRow(hits: seq<Hit>, f: string)
    requires hits != []
    ensures forall j: nat | LastToCarry(hits, f, j) :: f in Merged(hits).fields && Merged(hits).fields[f] == hits[j].fields[f]
    ensures f in Merged(hits).fields ==> exists i | 0 <= i < |hits| :: LastToCarry(hits, f, i)
  {
    var n := |hits| - 1;
    if n == 0 {
      assert Merged(hits) == hits[0];
      assert f in hits[0].fields ==> WinsWith(hits, f, 0);
      assert f in hits[0].fields ==> LastToCarry(hits, f, 0);
    } else if WinsWith(hits, f, n) {
      assert LastToCarry(hits, f, n);
    } else {
      KeysOfTheRow(hits[..n], f);
      SameCarriers(hits, hits[..n], f);
      KeyStays(hits, f);
    }
  }

  /** A hit that does not win with a key leaves it as it was. */
  lemma KeyStays(hits: seq<Hit>, f: string)
    requires |hits| > 1 && !WinsWith(hits, f, |hits| - 1)
    ensures var before := Merged(hits[..|hits| - 1]).fields;
            (f in Merged(hits).fields <==> f in before) && (f in before ==> Merged(hits).fields[f] == before[f])
  {
  }

  lemma SameCarriers(hits: seq<Hit>, before: seq<Hit>, f: string)
    requires hits != [] && before == hits[..|hits| - 1] && !WinsWith(hits, f, |hits| - 1)
    ensures forall i: nat :: LastToCarry(before, f, i) == LastToCarry(hits, f, i)
  {
    forall i | 0 <= i < |before| ensures WinsWith(before, f, i) == WinsWith(hits, f, i) {
      SameBefore(hits, f, |before|, i);
    }
  }

  /** A hit whose score the row can take over. */
  predicate Scored(hits: seq<Hit>, i: nat)
    requires i < |hits|
  {
    i == 0 || !hits[i].score.Absent?
  }

  /** The score of the row is the highest of those it can take over. */
  lemma {:induction false} ScoreOfTheRow(hits: seq<Hit>) returns (k: nat)
    requires hits != []
    ensures k < |hits| && Scored(hits, k) && Score(Merged(hits)) == Score(hits[k])
    ensures forall i | 0 <= i < |hits| && Scored(hits, i) :: Score(hits[i]) <= Score(Merged(hits))
    ensures forall i | 0 <= i < k && Scored(hits, i) :: Score(hits[i]) < Score(Merged(hits))
  {
    var n := |hits| - 1;
    if n == 0 {
      k := 0;
    } else {
      k := ScoreOfTheRow(hits[..n]);
      assert forall i | 0 <= i < n :: hits[..n][i] == hits[i] && Scored(hits[..n], i) == Scored(hits, i);
      if Score(hits[n]) > Score(Merged(hits[..n])) && !hits[n].score.Absent? {
        k := n;
      }
    }
  }

  /** So no hit is stronger than its row exactly when every later hit has a score, or one of
      those that can hand over theirs is not negative. Otherwise a hit without a score wins:
      its keys are taken and the negative score stays. */
  lemma RowIsStrongestIff(hits: seq<Hit>)
    requires hits != []
    ensures (forall i | 0 <= i < |hits| :: Score(hits[i]) <= Score(Merged(hits))) <==>
            || (exists i | 0 <= i < |hits| :: Scored(hits, i) && Score(hits[i]) >= 0.0)
            || (forall i | 0 <= i < |hits| :: Scored(hits, i))
  {
    var k := ScoreOfTheRow(hits);
  }

  /** Such a row: it shows the second hit and sorts by the first one's score. */
  lemma ScorelessHitIsStronger(a: Hit, b: Hit)
    requires Score(a) < 0.0 && b.score.Absent?
    ensures var row := Merged([a] + [b]); row.chunkId == b.chunkId && Score(row) == Score(a) < Score(b)
  {
    assert ([a] + [b])[..1] == [a];
  }

  /** Where every hit can hand over its score, the last winner is the earliest of the
      strongest. */
  lemma WinnerIsStrongest(hits: seq<Hit>, k: nat)
    requires k < |hits| && Wins(hits, k) && (forall i | k < i < |hits| :: !Wins(hits, i)) && forall i | 0 <= i < |hits| :: Scored(hits, i)
    ensures Merged(hits).score == hits[k].score
    ensures forall i | 0 <= i < |hits| :: Score(hits[i]) <= Score(hits[k])
    ensures forall i | 0 <= i < k :: Score(hits[i]) < Score(hits[k])
  {
    WinnerGivesScore(hits, k);
    var m := ScoreOfTheRow(hits);
    if k > 0 {
      var j := ScoreOfTheRow(hits[..k]);
      forall i | 0 <= i < k ensures Score(hits[i]) < Score(hits[k]) {
        assert hits[..k][i] == hits[i] && Scored(hits[..k], i) == Scored(hits, i);
      }
    }
  }

  lemma {:induction false} WinnerGivesScore(hits: seq<Hit>, k: nat)
    requires k < |hits| && Wins(hits, k) && (forall i | k < i < |hits| :: !Wins(hits, i)) && Scored(hits, k)
    ensures Merged(hits).score == hits[k].score
  {
    var n := |hits| - 1;
    if k < n {
      forall i | 0 <= i < n ensures Wins(hits[..n], i) == Wins(hits, i) {
        WinsEarlier(hits, n, i);
      }
      assert Scored(hits[..n], k);
      WinnerGivesScore(hits[..n], k);
      assert !Wins(hits, n);
    }
  }

  predicate Pairs(groups: seq<Group>, parent: string, child: string) {
    exists i | 0 <= i < |groups| :: groups[i].parent == parent && child in groups[i].children
  }

  /** Some hit shows this child under this parent; a hit without a parent is its own. */
  predicate Hits(hits: seq<Hit>, parent: string, child: string) {
    exists i | 0 <= i < |hits| :: hits[i].chunkId == child && parent == if hits[i].parentId == "" then child else hits[i].parentId
  }

  /** No parent-child pair of the hits is lost, and none is invented. */
  lemma NoPairIsLost(hits: seq<Hit>, parent: string, child: string)
    ensures Pairs(Grouped(hits), parent, child) <==> Hits(hits, parent, child)
  {
    FirstSeenChildren(hits, parent, child);
    OffersIff(hits, parent);
    if Hits(hits, parent, child) {
      var i :| 0 <= i < |hits| && hits[i].chunkId == child && parent == if hits[i].parentId == "" then child else hits[i].parentId;
      assert ParentOf(hits[i]) == parent && Offers(hits, parent);
      var j :| 0 <= j < |Parents(hits)| && Parents(hits)[j] == parent;
      assert Grouped(hits)[j] == GroupOf(hits, parent);
    }
  }

  /** One row per distinct parent, each child once. The row shows the chunk and the keys of
      the last hit `k` that was stronger than it; where every hit has a score, that is the
      earliest of the strongest first sights of the children, and the row has its score. */
  lemma RowsAreFaithful(hits: seq<Hit>, i: nat, j: nat) returns (k: nat)
    requires i < |Grouped(hits)| && j < |Grouped(hits)|
    ensures i != j ==> Grouped(hits)[i].parent != Grouped(hits)[j].parent
    ensures var g := Grouped(hits)[i]; forall m, n | 0 <= m < n < |g.children| :: g.children[m] != g.children[n]
    ensures var g := Grouped(hits)[i];
            var firsts := FirstSeen(hits, g.parent);
            && k < |firsts| && g.best.chunkId == firsts[k].chunkId
            && (forall f | f in firsts[k].fields :: f in g.best.fields && g.best.fields[f] == firsts[k].fields[f])
            && ((forall m | 0 <= m < |firsts| :: Scored(firsts, m)) ==>
                  && g.best.score == firsts[k].score
                  && (forall m | 0 <= m < |firsts| :: Score(firsts[m]) <= Score(g.best))
                  && (forall m | 0 <= m < k :: Score(firsts[m]) < Score(g.best))
                  && (g.best.score.Given? ==>
                        forall m | 0 <= m < |firsts| && firsts[m].score.Given? :: firsts[m].score.value <= g.best.score.value))
  {
    ParentsAreDistinct(hits);
    ParentsOffer(hits);
    FirstSeenChildren(hits, Parents(hits)[i], "");
    k := RowShowsWinner(FirstSeen(hits, Parents(hits)[i]));
  }

  lemma RowShowsWinner(firsts: seq<Hit>) returns (k: nat)
    requires firsts != []
    ensures k < |firsts| && Merged(firsts).chunkId == firsts[k].chunkId
    ensures forall f | f in firsts[k].fields :: f in Merged(firsts).fields && Merged(firsts).fields[f] == firsts[k].fields[f]
    ensures (forall m | 0 <= m < |firsts| :: Scored(firsts, m)) ==>
              && Merged(firsts).score == firsts[k].score
              && (forall m | 0 <= m < |firsts| :: Score(firsts[m]) <= Score(Merged(firsts)))
              && (forall m | 0 <= m < k :: Score(firsts[m]) < Score(Merged(firsts)))
  {
    k := LastWinner(firsts);
    if forall m | 0 <= m < |firsts| :: Scored(firsts, m) {
      WinnerIsStrongest(firsts, k);
    }
  }

  // ----- `sorted(..., key=score, reverse=True)` -----------------------------------------

  /** Python keeps the order of equal keys, `reverse=True` included. */
  function Place(g: Group, sorted: seq<Group>): seq<Group> {
    if sorted == [] then [g]
    else if Score(sorted[|sorted| - 1].best) >= Score(g.best) then sorted + [g]
    else Place(g, sorted[..|sorted| - 1]) + [sorted[|sorted| - 1]]
  }

  function ByScore(groups: seq<Group>): seq<Group> {
    if groups == [] then [] else Place(groups[|groups| - 1], ByScore(groups[..|groups| - 1]))
  }

  predicate Descending(groups: seq<Group>) {
    forall i, j | 0 <= i < j < |groups| :: Score(groups[i].best) >= Score(groups[j].best)
  }

  function Scoring(groups: seq<Group>, score: real): seq<Group> {
    if groups == [] then []
    else
      var before := Scoring(groups[..|groups| - 1], score);
      var g := groups[|groups| - 1];
      if Score(g.best) == score then before + [g] else before
  }

  lemma AppendCounts(groups: seq<Group>, g: Group)
    ensures multiset(groups + [g]) == multiset(groups) + multiset{g}
  {
  }

  lemma {:induction false} PlaceIsPermutation(g: Group, sorted: seq<Group>)
    ensures multiset(Place(g, sorted)) == multiset(sorted) + multiset{g}
  {
    if sorted != [] {
      var n := |sorted| - 1;
      assert sorted == sorted[..n] + [sorted[n]];
      AppendCounts(sorted[..n], sorted[n]);
      AppendCounts(sorted, g);
      if Score(sorted[n].best) < Score(g.best) {
        PlaceIsPermutation(g, sorted[..n]);
        AppendCounts(Place(g, sorted[..n]), sorted[n]);
      }
    }
  }

  lemma {:induction false} PlaceIsDescending(g: Group, sorted: seq<Group>)
    requires Descending(sorted)
    ensures Descending(Place(g, sorted))
  {
    if sorted != [] {
      var n := |sorted| - 1;
      if Score(sorted[n].best) < Score(g.best) {
        PlaceIsDescending(g, sorted[..n]);
        PlaceIsPermutation(g, sorted[..n]);
        var placed := Place(g, sorted[..n]);
        forall i | 0 <= i < |placed| ensures Score(placed[i].best) >= Score(sorted[n].best) {
          assert placed[i] in multiset(placed);
        }
      }
    }
  }

  lemma ScoringOne(before: seq<Group>, g: Group, score: real)
    ensures Scoring(before + [g], score) == Scoring(before, score) + if Score(g.best) == score then [g] else []
  {
    assert (before + [g])[..|before|] == before;
  }

  lemma {:induction false} PlaceIsStable(g: Group, sorted: seq<Group>, score: real)
    requires Descending(sorted)
    ensures Scoring(Place(g, sorted), score) == Scoring(sorted, score) + if Score(g.best) == score then [g] else []
  {
    if sorted == [] {
      ScoringOne([], g, score);
    } else {
      var n := |sorted| - 1;
      assert sorted == sorted[..n] + [sorted[n]];
      ScoringOne(sorted[..n], sorted[n], score);
      if Score(sorted[n].best) >= Score(g.best) {
        ScoringOne(sorted, g, score);
      } else {
        PlaceIsStable(g, sorted[..n], score);
        ScoringOne(Place(g, sorted[..n]), sorted[n], score);
      }
    }
  }

  lemma {:induction false} ByScoreIsPermutation(groups: seq<Group>)
    ensures multiset(ByScore(groups)) == multiset(groups)
  {
    if groups != [] {
      var n := |groups| - 1;
      ByScoreIsPermutation(groups[..n]);
      PlaceIsPermutation(groups[n], ByScore(groups[..n]));
      AppendCounts(groups[..n], groups[n]);
      assert groups == groups[..n] + [groups[n]];
    }
  }

  /** In the fields of the rows: given scores do not rise, a missing one counts as zero. */
  lemma ScoresNeverRise(groups: seq<Group>, i: nat, j: nat)
    requires i < j < |ByScore(groups)|
    ensures var a, b := ByScore(groups)[i].best.score, ByScore(groups)[j].best.score;
            (if a.Given? then a.value else 0.0) >= if b.Given? then b.value else 0.0
  {
    ByScoreIsDescending(groups);
  }

  lemma {:induction false} ByScoreIsDescending(groups: seq<Group>)
    ensures Descending(ByScore(groups))
  {
    if groups != [] {
      var n := |groups| - 1;
      ByScoreIsDescending(groups[..n]);
      PlaceIsDescending(groups[n], ByScore(groups[..n]));
    }
  }

  /** And stable: groups of one score stay in the order they had. */
  lemma {:induction false} ByScoreIsStable(groups: seq<Group>, score: real)
    ensures Scoring(ByScore(groups), score) == Scoring(groups, score)
  {
    if groups != [] {
      var n := |groups| - 1;
      ByScoreIsStable(groups[..n], score);
      ByScoreIsDescending(groups[..n]);
      PlaceIsStable(groups[n], ByScore(groups[..n]), score);
    }
  }

  // ----- the loop ------------------------------------------------------------------------

  /** How one more hit changes what is known of a parent. */
  lemma FirstSeenGrows(hits: seq<Hit>, h: Hit, parent: string)
    ensures FirstSeen(hits + [h], parent) ==
            if ParentOf(h) == parent && h.chunkId !in ChunkIds(FirstSeen(hits, parent))
            then FirstSeen(hits, parent) + [h] else FirstSeen(hits, parent)
  {
    assert (hits + [h])[..|hits|] == hits;
  }

  lemma GroupGrows(firsts: seq<Hit>, h: Hit)
    ensures ChunkIds(firsts + [h]) == ChunkIds(firsts) + [h.chunkId]
    ensures Merged(firsts + [h]) ==
            if firsts == [] then h else if Score(h) > Score(Merged(firsts)) then Update(Merged(firsts), h) else Merged(firsts)
  {
    assert (firsts + [h])[..|firsts|] == firsts;
  }

  predicate Entry(hits: seq<Hit>, parent: string, g: Group) {
    FirstSeen(hits, parent) != [] && g == GroupOf(hits, parent)
  }

  /** The dictionary after some hits: `order` its insertion order, `grouped` its entries. */
  ghost predicate Holds(hits: seq<Hit>, order: seq<string>, grouped: map<string, Group>) {
    && order == Parents(hits)
    && (forall p :: p in order <==> p in grouped)
    && EveryEntry(hits, grouped)
  }

  predicate EveryEntry(hits: seq<Hit>, grouped: map<string, Group>) {
    forall p | p in grouped :: Entry(hits, p, grouped[p])
  }

  lemma EntriesStay(hits: seq<Hit>, h: Hit, grouped: map<string, Group>, now: Group)
    requires EveryEntry(hits, grouped) && Entry(hits + [h], ParentOf(h), now)
    ensures EveryEntry(hits + [h], grouped[ParentOf(h) := now])
  {
    forall p | p in grouped && p != ParentOf(h) ensures Entry(hits + [h], p, grouped[p]) {
      EntryStays(hits, h, p, grouped[p]);
    }
  }

  lemma EntryStays(hits: seq<Hit>, h: Hit, parent: string, g: Group)
    requires Entry(hits, parent, g) && parent != ParentOf(h)
    ensures Entry(hits + [h], parent, g)
  {
    FirstSeenGrows(hits, h, parent);
  }

  lemma EntryBegins(hits: seq<Hit>, h: Hit)
    requires FirstSeen(hits, ParentOf(h)) == []
    ensures Entry(hits + [h], ParentOf(h), Group(ParentOf(h), h, [h.chunkId]))
  {
    FirstSeenGrows(hits, h, ParentOf(h));
    GroupGrows([], h);
  }

  lemma EntryChanges(hits: seq<Hit>, h: Hit, was: Group, now: Group)
    requires Entry(hits, ParentOf(h), was)
    requires now == if h.chunkId in was.children then was
                    else Group(was.parent, if Score(h) > Score(was.best) then Update(was.best, h) else was.best, was.children + [h.chunkId])
    ensures Entry(hits + [h], ParentOf(h), now)
  {
    FirstSeenGrows(hits, h, ParentOf(h));
    GroupGrows(FirstSeen(hits, ParentOf(h)), h);
  }

  lemma ParentsGrow(hits: seq<Hit>, h: Hit)
    ensures Parents(hits + [h]) == if ParentOf(h) in Parents(hits) then Parents(hits) else Parents(hits) + [ParentOf(h)]
  {
    assert (hits + [h])[..|hits|] == hits;
  }

  /** One turn of the loop: the entry of the hit's parent appears or changes. */
  lemma Absorb(hits: seq<Hit>, h: Hit, order: seq<string>, grouped: map<string, Group>, now: Group)
    requires Holds(hits, order, grouped) && Entry(hits + [h], ParentOf(h), now)
    ensures Holds(hits + [h], if ParentOf(h) in grouped then order else order + [ParentOf(h)], grouped[ParentOf(h) := now])
  {
    ParentsGrow(hits, h);
    EntriesStay(hits, h, grouped, now);
  }

  /** `grouped.values()`. */
  function Values(order: seq<string>, grouped: map<string, Group>): seq<Group>
    requires forall p | p in order :: p in grouped
  {
    seq(|order|, i requires 0 <= i < |order| => grouped[order[i]])
  }

  lemma ValuesAreGrouped(hits: seq<Hit>, order: seq<string>, grouped: map<string, Group>)
    requires Holds(hits, order, grouped)
    ensures Values(order, grouped) == Grouped(hits)
  {
    forall i | 0 <= i < |order| ensures Values(order, grouped)[i] == Grouped(hits)[i] {
      assert Entry(hits, order[i], grouped[order[i]]);
    }
  }

  lemma NewEntry(hits: seq<Hit>, h: Hit, order: seq<string>, grouped: map<string, Group>)
    requires Holds(hits, order, grouped) && ParentOf(h) !in grouped
    ensures Holds(hits + [h], order + [ParentOf(h)], grouped[ParentOf(h) := Group(ParentOf(h), h, [h.chunkId])])
  {
    OffersIff(hits, ParentOf(h));
    EntryBegins(hits, h);
    Absorb(hits, h, order, grouped, Group(ParentOf(h), h, [h.chunkId]));
  }

  lemma OldEntry(hits: seq<Hit>, h: Hit, order: seq<string>, grouped: map<string, Group>, now: Group)
    requires Holds(hits, order, grouped) && ParentOf(h) in grouped
    requires var was := grouped[ParentOf(h)];
             now == if h.chunkId in was.children then was
                    else Group(was.parent, if Score(h) > Score(was.best) then Update(was.best, h) else was.best, was.children + [h.chunkId])
    ensures Holds(hits + [h], order, grouped[ParentOf(h) := now])
  {
    EntryChanges(hits, h, grouped[ParentOf(h)], now);
    Absorb(hits, h, order, grouped, now);
  }

  /** `_resolve_parent_context`. `order` and `grouped` are one insertion-ordered dictionary. */
  method ResolveParentContext(hits: seq<Hit>) returns (parents: seq<Group>)
    ensures parents == ByScore(Grouped(hits))
  {
    var order: seq<string> := [];
    var grouped: map<string, Group> := map[];
    for i := 0 to |hits|
      invariant Holds(hits[..i], order, grouped)
    {
      var h := hits[i];
      var p, child := ParentOf(h), h.chunkId;
      assert hits[..i + 1] == hits[..i] + [h];
      if p !in grouped {
        NewEntry(hits[..i], h, order, grouped);
        order := order + [p];
        grouped := grouped[p := Group(p, h, [child])];
      } else if child !in grouped[p].children {
        var current := grouped[p];
        current := current.(children := current.children + [child]);
        if Score(h) > Score(current.best) {
          current := current.(best := Update(current.best, h));
        }
        OldEntry(hits[..i], h, order, grouped, current);
        grouped := grouped[p := current];
      } else {
        OldEntry(hits[..i], h, order, grouped, grouped[p]);
        assert grouped[p := grouped[p]] == grouped;
      }
    }
    assert hits[..|hits|] == hits;
    ValuesAreGrouped(hits, order, grouped);
    parents := ByScore(Values(order, grouped));
  }
}
