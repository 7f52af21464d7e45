/** Choosing the prompt context: the greedy loop under four limits, shown to pick the
    lexicographically first feasible set, and what the limits amount to. */
module ContextSelection {
  import opened Decimals
  import opened Numbers
  import opened ParentGrouping

  /** The RAG_* settings the selection reads. Nothing constrains them. */
  datatype Limits = Limits(maxParents: int, maxPerArticle: int, maxChars: int, maxTokens: int, minScore: real)

  /** What the limits look at in one parent: its article, the length of its compressed text
      and whether it may be used at all. */
  datatype Candidate = Candidate(article: string, chars: nat, eligible: bool)

  /** `compress_context` is a parameter: any function from text to text. */
  function CandidateOf(lim: Limits, compress: string -> string, g: Group): Candidate {
    var text := compress(Body(g.best));
    Candidate(ArticleOf(g.best), |text|, Score(g.best) >= lim.minScore && text != "")
  }

  /** Eligible parents have text. */
  predicate HaveText(cands: seq<Candidate>) {
    forall c | c in cands :: c.eligible ==> c.chars > 0
  }

  function Candidates(lim: Limits, compress: string -> string, parents: seq<Group>): (cands: seq<Candidate>)
    ensures |cands| == |parents|
    ensures forall i | 0 <= i < |cands| :: cands[i] == CandidateOf(lim, compress, parents[i])
    ensures HaveText(cands)
  {
    seq(|parents|, i requires 0 <= i < |parents| => CandidateOf(lim, compress, parents[i]))
  }

  /** `max(1, (len + 3) // 4)`. */
  function TokensOf(c: Candidate): nat {
    if (c.chars + 3) / 4 < 1 then 1 else (c.chars + 3) / 4
  }

  /** The estimate is the least positive number of tokens of four characters that holds the
      text. */
  lemma TokensAreLeast(c: Candidate)
    ensures TokensOf(c) >= 1 && 4 * TokensOf(c) >= c.chars && (TokensOf(c) == 1 || 4 * (TokensOf(c) - 1) < c.chars)
  {
  }

  /** What the limits look at, in the keys of the row: the article, the text of the parent or
      else of the chunk, compressed, and the score against the setting. */
  lemma CandidateInKeys(lim: Limits, compress: string -> string, g: Group, keys: map<string, string>, body: string)
    requires keys == g.best.fields
    requires if "parent_text" in keys && keys["parent_text"] != "" then body == keys["parent_text"]
             else if "chunk_text" in keys then body == keys["chunk_text"] else body == ""
    ensures var c := CandidateOf(lim, compress, g);
            && c.article == (if "article_id" in keys then keys["article_id"] else "")
            && c.chars == |compress(body)|
            && (c.eligible <==> compress(body) != "" && lim.minScore <= if g.best.score.Given? then g.best.score.value else 0.0)
  {
  }

  // ----- the per-article cap ----------------------------------------------------------

  /** The distinct articles, in the order they are first seen. */
  function Articles(cands: seq<Candidate>): seq<string> {
    if cands == [] then []
    else
      var before := Articles(cands[..|cands| - 1]);
      var a := cands[|cands| - 1].article;
      if a in before then before else before + [a]
  }

  /** Python's `-(-a // b)` floors, as Dafny's `/` does for a positive divisor. */
  function PerArticleCap(lim: Limits, cands: seq<Candidate>): int {
    var distinct := |Articles(cands)|;
    if distinct <= 0 then lim.maxPerArticle else Max(lim.maxPerArticle, -((-lim.maxParents) / distinct))
  }

  // ----- sums over a choice ---------------------------------------------------------------

  /** A choice says of each parent whether it is in; it may cover a prefix only. */
  type Choice = seq<bool>

  function Count(m: Choice): nat {
    if m == [] then 0 else Count(m[..|m| - 1]) + if m[|m| - 1] then 1 else 0
  }

  function CountOf(cands: seq<Candidate>, m: Choice, article: string): nat
    requires |m| <= |cands|
  {
    if m == [] then 0
    else
      var n := |m| - 1;
      CountOf(cands, m[..n], article) + if m[n] && cands[n].article == article then 1 else 0
  }

  function Chars(cands: seq<Candidate>, m: Choice): nat
    requires |m| <= |cands|
  {
    if m == [] then 0 else Chars(cands, m[..|m| - 1]) + if m[|m| - 1] then cands[|m| - 1].chars else 0
  }

  function Tokens(cands: seq<Candidate>, m: Choice): nat
    requires |m| <= |cands|
  {
    if m == [] then 0 else Tokens(cands, m[..|m| - 1]) + if m[|m| - 1] then TokensOf(cands[|m| - 1]) else 0
  }

  /** Within every limit. One item alone may exceed the character and token budgets, and
      one is taken even where the parent limit is below one. */
  predicate Feasible(lim: Limits, cap: int, cands: seq<Candidate>, m: Choice)
    requires |m| <= |cands|
  {
    && (forall i | 0 <= i < |m| && m[i] :: cands[i].eligible)
    && Count(m) <= Max(1, lim.maxParents)
    && (forall i | 0 <= i < |m| && m[i] :: CountOf(cands, m, cands[i].article) <= cap)
    && (Count(m) <= 1 || (Chars(cands, m) <= lim.maxChars && Tokens(cands, m) <= lim.maxTokens))
  }

  // ----- the greedy choice ----------------------------------------------------------------

  /** The guards of the loop, for the parent after those already decided. */
  predicate Admits(lim: Limits, cap: int, cands: seq<Candidate>, m: Choice)
    requires |m| < |cands|
  {
    var c := cands[|m|];
    && (Count(m) == 0 || Count(m) < lim.maxParents)
    && c.eligible
    && CountOf(cands, m, c.article) < cap
    && (Chars(cands, m) == 0 || Chars(cands, m) + c.chars <= lim.maxChars)
    && (Tokens(cands, m) == 0 || Tokens(cands, m) + TokensOf(c) <= lim.maxTokens)
  }

  function Greedy(lim: Limits, cap: int, cands: seq<Candidate>, n: nat): (m: Choice)
    requires n <= |cands|
    ensures |m| == n
  {
    if n == 0 then []
    else
      var m := Greedy(lim, cap, cands, n - 1);
      m + [Admits(lim, cap, cands, m)]
  }

  lemma GreedyStep(lim: Limits, cap: int, cands: seq<Candidate>, n: nat)
    requires 0 < n <= |cands|
    ensures var m := Greedy(lim, cap, cands, n - 1); Greedy(lim, cap, cands, n) == m + [Admits(lim, cap, cands, m)]
  {
  }

  lemma Extend(cands: seq<Candidate>, m: Choice, b: bool)
    requires |m| < |cands|
    ensures var m' := m + [b];
            && m'[..|m|] == m
            && Count(m') == Count(m) + (if b then 1 else 0)
            && Chars(cands, m') == Chars(cands, m) + (if b then cands[|m|].chars else 0)
            && Tokens(cands, m') == Tokens(cands, m) + (if b then TokensOf(cands[|m|]) else 0)
            && forall a :: CountOf(cands, m', a) == CountOf(cands, m, a) + (if b && cands[|m|].article == a then 1 else 0)
  {
    assert (m + [b])[..|m|] == m;
  }

  /** Nothing is chosen exactly when both totals are still zero. */
  lemma {:induction false} TotalsStartAtZero(cands: seq<Candidate>, m: Choice)
    requires |m| <= |cands| && forall i | 0 <= i < |m| && m[i] :: cands[i].eligible && cands[i].chars > 0
    ensures Count(m) == 0 <==> Chars(cands, m) == 0
    ensures Count(m) == 0 <==> Tokens(cands, m) == 0
  {
    if m != [] {
      TotalsStartAtZero(cands, m[..|m| - 1]);
    }
  }

  lemma RefusingStaysFeasible(lim: Limits, cap: int, cands: seq<Candidate>, m: Choice)
    requires |m| < |cands| && Feasible(lim, cap, cands, m)
    ensures Feasible(lim, cap, cands, m + [false])
  {
    Extend(cands, m, false);
    forall i | 0 <= i < |m| + 1 && (m + [false])[i] ensures CountOf(cands, m + [false], cands[i].article) <= cap {
      assert m[i];
    }
  }

  lemma AdmittingStaysFeasible(lim: Limits, cap: int, cands: seq<Candidate>, m: Choice)
    requires |m| < |cands| && HaveText(cands) && Feasible(lim, cap, cands, m) && Admits(lim, cap, cands, m)
    ensures Feasible(lim, cap, cands, m + [true])
  {
    Extend(cands, m, true);
    TotalsStartAtZero(cands, m);
    forall i | 0 <= i < |m| + 1 && (m + [true])[i] ensures CountOf(cands, m + [true], cands[i].article) <= cap {
      if i < |m| {
        assert m[i];
      }
    }
  }

  lemma {:induction false} GreedyIsFeasible(lim: Limits, cap: int, cands: seq<Candidate>, n: nat)
    requires n <= |cands| && HaveText(cands)
    ensures Feasible(lim, cap, cands, Greedy(lim, cap, cands, n))
  {
    if n > 0 {
      GreedyIsFeasible(lim, cap, cands, n - 1);
      var m := Greedy(lim, cap, cands, n - 1);
      if Admits(lim, cap, cands, m) {
        AdmittingStaysFeasible(lim, cap, cands, m);
      } else {
        RefusingStaysFeasible(lim, cap, cands, m);
      }
    }
  }

  /** Sums only grow along a choice. */
  lemma {:induction false} PrefixIsSmaller(cands: seq<Candidate>, m: Choice, k: nat, a: string)
    requires k <= |m| <= |cands|
    ensures Count(m[..k]) <= Count(m) && CountOf(cands, m[..k], a) <= CountOf(cands, m, a)
    ensures Chars(cands, m[..k]) <= Chars(cands, m) && Tokens(cands, m[..k]) <= Tokens(cands, m)
  {
    if k == |m| {
      assert m[..k] == m;
    } else {
      assert m[..|m| - 1][..k] == m[..k];
      PrefixIsSmaller(cands, m[..|m| - 1], k, a);
    }
  }

  lemma {:induction false} GreedyPrefix(lim: Limits, cap: int, cands: seq<Candidate>, k: nat, n: nat)
    requires k <= n <= |cands|
    ensures Greedy(lim, cap, cands, n)[..k] == Greedy(lim, cap, cands, k)
  {
    if k < n {
      GreedyPrefix(lim, cap, cands, k, n - 1);
      GreedyStep(lim, cap, cands, n);
      assert Greedy(lim, cap, cands, n)[..n - 1] == Greedy(lim, cap, cands, n - 1);
      assert Greedy(lim, cap, cands, n)[..k] == Greedy(lim, cap, cands, n)[..n - 1][..k];
    }
  }

  /** `m` comes before `other` when, at the first parent where they differ, `m` has it. */
  predicate Before(m: Choice, other: Choice) {
    exists i | 0 <= i < |m| && i < |other| :: m[..i] == other[..i] && m[i] && !other[i]
  }

  /** A feasible choice that has taken the same decisions so far may not take one the loop
      refuses. */
  lemma RefusedIsInfeasible(lim: Limits, cap: int, cands: seq<Candidate>, other: Choice, i: nat)
    requires HaveText(cands) && i < |other| <= |cands| && Feasible(lim, cap, cands, other)
    requires other[..i] == Greedy(lim, cap, cands, i) && other[i]
    ensures Admits(lim, cap, cands, other[..i])
  {
    var m := other[..i];
    assert other[..i + 1] == m + [true];
    Extend(cands, m, true);
    PrefixIsSmaller(cands, other, i + 1, cands[i].article);
    assert forall j | 0 <= j < i && m[j] :: other[j];
    TotalsStartAtZero(cands, m);
  }

  lemma {:induction false} FirstDifference(a: Choice, b: Choice) returns (i: nat)
    requires |a| == |b| && a != b
    ensures i < |a| && a[..i] == b[..i] && a[i] != b[i]
  {
    if a[0] != b[0] {
      i := 0;
    } else {
      assert a == [a[0]] + a[1..] && b == [b[0]] + b[1..];
      var j := FirstDifference(a[1..], b[1..]);
      i := j + 1;
      assert a[..i] == [a[0]] + a[1..][..j] && b[..i] == [b[0]] + b[1..][..j];
    }
  }

  /** The loop picks the lexicographically first feasible choice in score order. */
  lemma GreedyIsFirst(lim: Limits, cap: int, cands: seq<Candidate>, other: Choice)
    requires HaveText(cands) && |other| == |cands| && Feasible(lim, cap, cands, other)
    ensures var m := Greedy(lim, cap, cands, |cands|);
            Feasible(lim, cap, cands, m) && (other == m || Before(m, other))
  {
    var m := Greedy(lim, cap, cands, |cands|);
    GreedyIsFeasible(lim, cap, cands, |cands|);
    if other != m {
      var i := FirstDifference(m, other);
      GreedyPrefix(lim, cap, cands, i, |cands|);
      GreedyPrefix(lim, cap, cands, i + 1, |cands|);
      assert m[i] == m[..i + 1][i] == Admits(lim, cap, cands, m[..i]);
      if other[i] {
        RefusedIsInfeasible(lim, cap, cands, other, i);
      }
    }
  }

  lemma {:induction false} NothingChosenIff(lim: Limits, cap: int, cands: seq<Candidate>, n: nat)
    requires n <= |cands|
    ensures var m := Greedy(lim, cap, cands, n);
            && (Count(m) == 0 <==> cap <= 0 || forall i | 0 <= i < n :: !cands[i].eligible)
            && (Count(m) == 0 ==> Chars(cands, m) == 0 && Tokens(cands, m) == 0 && forall a :: CountOf(cands, m, a) == 0)
  {
    if n > 0 {
      NothingChosenIff(lim, cap, cands, n - 1);
      var m := Greedy(lim, cap, cands, n - 1);
      Extend(cands, m, Admits(lim, cap, cands, m));
    }
  }

  /** The limit is tested after an item is added, so it is kept exactly when it is at least
      one, or is zero and nothing could be chosen anyway. */
  lemma ParentLimitIsKeptIff(lim: Limits, cap: int, cands: seq<Candidate>)
    requires HaveText(cands)
    ensures Count(Greedy(lim, cap, cands, |cands|)) <= lim.maxParents <==>
            lim.maxParents >= 1 || (lim.maxParents == 0 && (cap <= 0 || forall i | 0 <= i < |cands| :: !cands[i].eligible))
  {
    GreedyIsFeasible(lim, cap, cands, |cands|);
    NothingChosenIff(lim, cap, cands, |cands|);
  }

  /** At a limit of zero a single eligible parent is taken all the same. */
  lemma LimitZeroTakesOne(lim: Limits, cap: int, c: Candidate)
    requires lim.maxParents == 0 && cap >= 1 && c.eligible && c.chars > 0
    ensures Greedy(lim, cap, [c], 1) == [true] && Count(Greedy(lim, cap, [c], 1)) == 1
  {
    assert Greedy(lim, cap, [c], 0) == [];
    assert Admits(lim, cap, [c], []);
    GreedyStep(lim, cap, [c], 1);
    assert [] + [true] == [true];
    Extend([c], [], true);
  }

  // ----- one limit too many ------------------------------------------------------------------

  /** A token is at most four characters, so the sums stay in that proportion. */
  lemma {:induction false} FourCharsPerToken(cands: seq<Candidate>, m: Choice)
    requires |m| <= |cands|
    ensures Chars(cands, m) <= 4 * Tokens(cands, m)
  {
    if m != [] {
      FourCharsPerToken(cands, m[..|m| - 1]);
    }
  }

  lemma SameAdmission(lim: Limits, cap: int, cands: seq<Candidate>, m: Choice, higher: int)
    requires |m| < |cands| && HaveText(cands) && Feasible(lim, cap, cands, m)
    requires 4 * lim.maxTokens <= lim.maxChars <= higher
    ensures Admits(lim, cap, cands, m) == Admits(lim.(maxChars := higher), cap, cands, m)
  {
    TotalsStartAtZero(cands, m);
    FourCharsPerToken(cands, m);
  }

  /** Where the character budget is at least four times the token budget, as in the
      settings shipped (70000 and 17500), the character check never decides: raising the
      character budget without bound changes no choice. */
  lemma {:induction false} CharacterBudgetIsRedundant(lim: Limits, cap: int, cands: seq<Candidate>, n: nat, higher: int)
    requires n <= |cands| && HaveText(cands) && 4 * lim.maxTokens <= lim.maxChars <= higher
    ensures Greedy(lim, cap, cands, n) == Greedy(lim.(maxChars := higher), cap, cands, n)
  {
    if n > 0 {
      CharacterBudgetIsRedundant(lim, cap, cands, n - 1, higher);
      GreedyIsFeasible(lim, cap, cands, n - 1);
      SameAdmission(lim, cap, cands, Greedy(lim, cap, cands, n - 1), higher);
      GreedyStep(lim, cap, cands, n);
      GreedyStep(lim.(maxChars := higher), cap, cands, n);
    }
  }

  // ----- how many are chosen --------------------------------------------------------------------

  function EligibleOf(cands: seq<Candidate>, n: nat, article: string): nat
    requires n <= |cands|
  {
    if n == 0 then 0
    else EligibleOf(cands, n - 1, article) + if cands[n - 1].eligible && cands[n - 1].article == article then 1 else 0
  }

  /** What the articles offer together when none may give more than the cap. */
  function Offer(cands: seq<Candidate>, cap: nat, articles: seq<string>): nat {
    if articles == [] then 0
    else
      var k := |articles| - 1;
      Offer(cands, cap, articles[..k]) + Min(cap, EligibleOf(cands, |cands|, articles[k]))
  }

  /** The same sum, taken parent by parent. */
  function OfferSoFar(cands: seq<Candidate>, cap: nat, n: nat): nat
    requires n <= |cands|
  {
    if n == 0 then 0
    else
      OfferSoFar(cands, cap, n - 1) +
      if cands[n - 1].eligible && EligibleOf(cands, n - 1, cands[n - 1].article) < cap then 1 else 0
  }

  /** Even everything eligible together stays within the character and token budgets. */
  predicate Roomy(lim: Limits, cands: seq<Candidate>) {
    var all := seq(|cands|, i requires 0 <= i < |cands| => cands[i].eligible);
    Chars(cands, all) <= lim.maxChars && Tokens(cands, all) <= lim.maxTokens
  }

  lemma {:induction false} SmallerChoice(cands: seq<Candidate>, m: Choice, all: Choice)
    requires |m| <= |all| <= |cands| && forall i | 0 <= i < |m| && m[i] :: all[i]
    ensures Chars(cands, m) <= Chars(cands, all) && Tokens(cands, m) <= Tokens(cands, all)
  {
    if |m| < |all| {
      SmallerChoice(cands, m, all[..|all| - 1]);
    } else if m != [] {
      SmallerChoice(cands, m[..|m| - 1], all[..|all| - 1]);
    }
  }

  lemma RoomyNeverRefuses(lim: Limits, cap: int, cands: seq<Candidate>, m: Choice)
    requires Roomy(lim, cands) && |m| < |cands| && cands[|m|].eligible
    requires forall i | 0 <= i < |m| && m[i] :: cands[i].eligible
    ensures Chars(cands, m) + cands[|m|].chars <= lim.maxChars && Tokens(cands, m) + TokensOf(cands[|m|]) <= lim.maxTokens
  {
    var all := seq(|cands|, i requires 0 <= i < |cands| => cands[i].eligible);
    Extend(cands, m, true);
    SmallerChoice(cands, m + [true], all);
  }

  /** While the parent limit is not reached, every article has given what it can. */
  ghost predicate TakesTheOffer(lim: Limits, cap: nat, cands: seq<Candidate>, m: Choice)
    requires |m| <= |cands|
  {
    var limit := Max(1, lim.maxParents);
    && Count(m) == Min(limit, OfferSoFar(cands, cap, |m|))
    && (OfferSoFar(cands, cap, |m|) <= limit ==> forall a :: CountOf(cands, m, a) == Min(cap, EligibleOf(cands, |m|, a)))
  }

  lemma RefusingKeepsTheOffer(lim: Limits, cap: nat, cands: seq<Candidate>, m: Choice)
    requires |m| < |cands| && TakesTheOffer(lim, cap, cands, m)
    requires !cands[|m|].eligible || CountOf(cands, m, cands[|m|].article) >= cap || Count(m) >= Max(1, lim.maxParents)
    ensures TakesTheOffer(lim, cap, cands, m + [false])
  {
    Extend(cands, m, false);
  }

  lemma AdmittingKeepsTheOffer(lim: Limits, cap: nat, cands: seq<Candidate>, m: Choice)
    requires |m| < |cands| && TakesTheOffer(lim, cap, cands, m)
    requires cands[|m|].eligible && CountOf(cands, m, cands[|m|].article) < cap && Count(m) < Max(1, lim.maxParents)
    ensures TakesTheOffer(lim, cap, cands, m + [true])
  {
    Extend(cands, m, true);
  }

  /** With room in the budgets only the limit and the cap refuse an eligible parent. */
  lemma RoomyAdmits(lim: Limits, cap: nat, cands: seq<Candidate>, m: Choice)
    requires |m| < |cands| && Roomy(lim, cands) && forall i | 0 <= i < |m| && m[i] :: cands[i].eligible
    ensures Admits(lim, cap, cands, m) <==>
            cands[|m|].eligible && CountOf(cands, m, cands[|m|].article) < cap && Count(m) < Max(1, lim.maxParents)
  {
    if cands[|m|].eligible {
      RoomyNeverRefuses(lim, cap, cands, m);
    }
  }

  lemma {:induction false} GreedyTakesTheOffer(lim: Limits, cap: nat, cands: seq<Candidate>, n: nat)
    requires n <= |cands| && HaveText(cands) && Roomy(lim, cands)
    ensures TakesTheOffer(lim, cap, cands, Greedy(lim, cap, cands, n))
  {
    if n > 0 {
      GreedyTakesTheOffer(lim, cap, cands, n - 1);
      var m := Greedy(lim, cap, cands, n - 1);
      GreedyIsFeasible(lim, cap, cands, n - 1);
      RoomyAdmits(lim, cap, cands, m);
      if Admits(lim, cap, cands, m) {
        AdmittingKeepsTheOffer(lim, cap, cands, m);
      } else {
        RefusingKeepsTheOffer(lim, cap, cands, m);
      }
    }
  }

  lemma {:induction false} EligibleNeedsArticle(cands: seq<Candidate>, n: nat, a: string)
    requires n <= |cands| && a !in Articles(cands[..n])
    ensures EligibleOf(cands, n, a) == 0
  {
    if n > 0 {
      assert cands[..n][..n - 1] == cands[..n - 1];
      EligibleNeedsArticle(cands, n - 1, a);
    }
  }

  /** The sum over a list of articles, counting only the first `n` parents. */
  function PartialOffer(cands: seq<Candidate>, cap: nat, n: nat, articles: seq<string>): nat
    requires n <= |cands|
  {
    if articles == [] then 0
    else
      var k := |articles| - 1;
      PartialOffer(cands, cap, n, articles[..k]) + Min(cap, EligibleOf(cands, n, articles[k]))
  }

  predicate Distinct(articles: seq<string>) {
    forall i, j | 0 <= i < j < |articles| :: articles[i] != articles[j]
  }

  lemma {:induction false} ArticlesAreDistinct(cands: seq<Candidate>)
    ensures Distinct(Articles(cands))
  {
    if cands != [] {
      ArticlesAreDistinct(cands[..|cands| - 1]);
    }
  }

  lemma {:induction false} OneMoreParent(cands: seq<Candidate>, cap: nat, n: nat, articles: seq<string>)
    requires 0 < n <= |cands| && Distinct(articles)
    ensures PartialOffer(cands, cap, n, articles) ==
            PartialOffer(cands, cap, n - 1, articles) +
            if cands[n - 1].article in articles && cands[n - 1].eligible &&
               EligibleOf(cands, n - 1, cands[n - 1].article) < cap then 1 else 0
  {
    if articles != [] {
      var k := |articles| - 1;
      OneMoreParent(cands, cap, n, articles[..k]);
      assert forall a :: a in articles <==> a in articles[..k] || a == articles[k];
    }
  }

  /** One parent more adds its article to the list, where it is new with nothing offered. */
  lemma OfferOfOneMore(cands: seq<Candidate>, cap: nat, n: nat)
    requires 0 < n <= |cands|
    ensures PartialOffer(cands, cap, n - 1, Articles(cands[..n])) == PartialOffer(cands, cap, n - 1, Articles(cands[..n - 1]))
    ensures cands[n - 1].article in Articles(cands[..n])
  {
    assert cands[..n][..n - 1] == cands[..n - 1];
    var before, a := Articles(cands[..n - 1]), cands[n - 1].article;
    if a !in before {
      EligibleNeedsArticle(cands, n - 1, a);
      assert Articles(cands[..n])[..|before|] == before;
    }
  }

  lemma {:induction false} OfferIsSum(cands: seq<Candidate>, cap: nat, n: nat)
    requires n <= |cands|
    ensures OfferSoFar(cands, cap, n) == PartialOffer(cands, cap, n, Articles(cands[..n]))
  {
    if n > 0 {
      OfferIsSum(cands, cap, n - 1);
      ArticlesAreDistinct(cands[..n]);
      OneMoreParent(cands, cap, n, Articles(cands[..n]));
      OfferOfOneMore(cands, cap, n);
    }
  }

  lemma {:induction false} PartialIsOffer(cands: seq<Candidate>, cap: nat, articles: seq<string>)
    ensures PartialOffer(cands, cap, |cands|, articles) == Offer(cands, cap, articles)
  {
    if articles != [] {
      PartialIsOffer(cands, cap, articles[..|articles| - 1]);
    }
  }

  /** Where the character and token budgets exclude nothing, the number chosen is the parent
      limit or the sum over the articles of what each may give, whichever is less. */
  lemma ChosenCount(lim: Limits, cap: nat, cands: seq<Candidate>)
    requires HaveText(cands) && Roomy(lim, cands)
    ensures Count(Greedy(lim, cap, cands, |cands|)) == Min(Max(1, lim.maxParents), Offer(cands, cap, Articles(cands)))
  {
    GreedyTakesTheOffer(lim, cap, cands, |cands|);
    OfferIsSum(cands, cap, |cands|);
    assert cands[..|cands|] == cands;
    PartialIsOffer(cands, cap, Articles(cands));
  }

  /** The scaled cap lets the articles fill the parent limit between them. */
  lemma CapFillsTheLimit(lim: Limits, cands: seq<Candidate>)
    requires cands != []
    ensures var d := |Articles(cands)|; d > 0 && d * PerArticleCap(lim, cands) >= lim.maxParents
  {
    var d := |Articles(cands)|;
    assert d > 0;
    var share := -((-lim.maxParents) / d);
    assert d * share >= lim.maxParents;
    var cap := PerArticleCap(lim, cands);
    assert cap >= share;
    MulGrows(d, share, cap);
  }

  lemma {:induction false} ArticlesIff(cands: seq<Candidate>, a: string)
    ensures a in Articles(cands) <==> exists c | c in cands :: c.article == a
  {
    if cands != [] {
      var n := |cands| - 1;
      assert cands == cands[..n] + [cands[n]];
      ArticlesIff(cands[..n], a);
      ArticlesIff(cands[..n], cands[n].article);
    }
  }

  lemma {:induction false} SizeOfDistinct(list: seq<string>, all: set<string>)
    requires Distinct(list) && forall a :: a in list <==> a in all
    ensures |list| == |all|
  {
    if list == [] {
      assert all == {};
    } else {
      var n := |list| - 1;
      assert list == list[..n] + [list[n]];
      SizeOfDistinct(list[..n], all - {list[n]});
    }
  }

  /** Distinct articles, counted as a set. */
  lemma ArticlesAsSet(cands: seq<Candidate>)
    ensures |Articles(cands)| == |set c | c in cands :: c.article|
  {
    ArticlesAreDistinct(cands);
    forall a ensures a in Articles(cands) <==> a in set c | c in cands :: c.article {
      ArticlesIff(cands, a);
    }
    SizeOfDistinct(Articles(cands), set c | c in cands :: c.article);
  }

  lemma CeilingIsLeast(d: int, n: int)
    requires d > 0
    ensures var share := -((-n) / d); d * share >= n && d * (share - 1) < n
  {
    var q := (-n) / d;
    assert -n == d * q + (-n) % d;
    assert d * (-q) == -(d * q) && d * (-q - 1) == -(d * q) - d;
  }

  /** The cap is the least that is at least the setting and lets the distinct articles
      together reach the parent limit; without any parent it is the setting. */
  lemma PerArticleCapIsLeast(lim: Limits, cands: seq<Candidate>)
    ensures var d, cap := |set c | c in cands :: c.article|, PerArticleCap(lim, cands);
            && (cands == [] ==> cap == lim.maxPerArticle)
            && (cands != [] ==> d > 0 && cap >= lim.maxPerArticle && d * cap >= lim.maxParents &&
                                (cap == lim.maxPerArticle || d * (cap - 1) < lim.maxParents))
  {
    ArticlesAsSet(cands);
    if cands != [] {
      CapFillsTheLimit(lim, cands);
      CeilingIsLeast(|Articles(cands)|, lim.maxParents);
    }
  }

  lemma MulGrows(d: nat, low: int, high: int)
    requires low <= high
    ensures d * low <= d * high
  {
  }

  lemma {:induction false} FullOffer(cands: seq<Candidate>, cap: nat, articles: seq<string>)
    requires forall a | a in articles :: EligibleOf(cands, |cands|, a) >= cap
    ensures Offer(cands, cap, articles) == |articles| * cap
  {
    if articles != [] {
      FullOffer(cands, cap, articles[..|articles| - 1]);
    }
  }

  lemma PositiveFactor(d: nat, cap: int)
    requires d * cap >= 1
    ensures cap >= 1
  {
    if cap <= 0 {
      MulGrows(d, cap, 0);
    }
  }

  lemma CapIsPositive(lim: Limits, cands: seq<Candidate>)
    requires cands != [] && lim.maxParents >= 1
    ensures PerArticleCap(lim, cands) >= 1
  {
    CapFillsTheLimit(lim, cands);
    PositiveFactor(|Articles(cands)|, PerArticleCap(lim, cands));
  }

  lemma OfferReachesTheLimit(lim: Limits, cands: seq<Candidate>, cap: nat)
    requires cands != [] && cap == PerArticleCap(lim, cands)
    requires forall a | a in Articles(cands) :: EligibleOf(cands, |cands|, a) >= cap
    ensures Offer(cands, cap, Articles(cands)) >= lim.maxParents
  {
    CapFillsTheLimit(lim, cands);
    FullOffer(cands, cap, Articles(cands));
  }

  /** So when every article offers as many eligible parents as the cap allows, the parent
      limit is met exactly. */
  lemma LimitIsFilled(lim: Limits, cands: seq<Candidate>)
    requires cands != [] && HaveText(cands) && Roomy(lim, cands) && lim.maxParents >= 1
    requires forall a | a in Articles(cands) :: EligibleOf(cands, |cands|, a) >= PerArticleCap(lim, cands)
    ensures Count(Greedy(lim, PerArticleCap(lim, cands), cands, |cands|)) == lim.maxParents
  {
    CapIsPositive(lim, cands);
    var cap: nat := PerArticleCap(lim, cands);
    ChosenCount(lim, cap, cands);
    OfferReachesTheLimit(lim, cands, cap);
  }

  // ----- the loop ---------------------------------------------------------------------------

  /** One entry of the prompt: the parent row, the text used and its citation label. */
  datatype Item = Item(parent: Group, text: string, sourceId: string)

  function Label(k: nat): string { "C" + Decimal(k) }

  /** The chosen parents as entries, in score order. */
  function Entries(compress: string -> string, parents: seq<Group>, m: Choice): seq<Item>
    requires |m| <= |parents|
  {
    if m == [] then []
    else
      var n := |m| - 1;
      var before := Entries(compress, parents, m[..n]);
      if m[n] then before + [Item(parents[n], compress(Body(parents[n].best)), Label(|before| + 1))] else before
  }

  /** Item `k` carries label `k + 1`. */
  predicate Labelled(items: seq<Item>) {
    forall k | 0 <= k < |items| :: items[k].sourceId == Label(k + 1)
  }

  lemma OneMoreLabelled(items: seq<Item>, item: Item)
    requires Labelled(items) && item.sourceId == Label(|items| + 1)
    ensures Labelled(items + [item])
  {
  }

  lemma {:induction false} EntriesAreCounted(compress: string -> string, parents: seq<Group>, m: Choice)
    requires |m| <= |parents|
    ensures |Entries(compress, parents, m)| == Count(m) && Labelled(Entries(compress, parents, m))
  {
    if m != [] {
      var n := |m| - 1;
      var before := Entries(compress, parents, m[..n]);
      EntriesAreCounted(compress, parents, m[..n]);
      if m[n] {
        OneMoreLabelled(before, Item(parents[n], compress(Body(parents[n].best)), Label(|before| + 1)));
      }
    }
  }

  /** The labels are C1, C2, ... without gaps, so no two entries share one. */
  lemma LabelsAreGapless(compress: string -> string, parents: seq<Group>, m: Choice, i: nat, j: nat)
    requires |m| <= |parents| && i < Count(m) && j < Count(m)
    ensures var items := Entries(compress, parents, m);
            && |items| == Count(m)
            && items[i].sourceId == "C" + Decimal(i + 1)
            && (items[i].sourceId == items[j].sourceId ==> i == j)
  {
    EntriesAreCounted(compress, parents, m);
    var a, b := Label(i + 1), Label(j + 1);
    if a == b {
      assert a[1..] == Decimal(i + 1) && b[1..] == Decimal(j + 1);
      DecimalIsInjective(i + 1, j + 1);
    }
  }

  /** What one decision more does to the entries. */
  lemma EntriesExtend(compress: string -> string, parents: seq<Group>, m: Choice, b: bool)
    requires |m| < |parents|
    ensures var before := Entries(compress, parents, m);
            Entries(compress, parents, m + [b]) ==
            if b then before + [Item(parents[|m|], compress(Body(parents[|m|].best)), Label(|before| + 1))] else before
  {
    assert (m + [b])[..|m|] == m;
  }

  /** The entries are parents in their order, each with its own compressed text. */
  lemma {:induction false} EntriesFollowTheChoice(compress: string -> string, parents: seq<Group>, m: Choice, k: nat) returns (i: nat)
    requires |m| <= |parents| && k < |Entries(compress, parents, m)|
    ensures i < |m| && m[i] && Count(m[..i]) == k
    ensures var item := Entries(compress, parents, m)[k]; item.parent == parents[i] && item.text == compress(Body(parents[i].best))
  {
    var n := |m| - 1;
    EntriesAreCounted(compress, parents, m);
    EntriesAreCounted(compress, parents, m[..n]);
    if k < |Entries(compress, parents, m[..n])| {
      i := EntriesFollowTheChoice(compress, parents, m[..n], k);
      assert m[..n][..i] == m[..i];
    } else {
      i := n;
    }
  }

  lemma NothingNext(lim: Limits, cap: int, cands: seq<Candidate>, compress: string -> string, parents: seq<Group>, m: Choice)
    requires |m| < |cands| == |parents| && |Entries(compress, parents, m)| >= Max(1, lim.maxParents)
    ensures Entries(compress, parents, m + [Admits(lim, cap, cands, m)]) == Entries(compress, parents, m)
  {
    EntriesAreCounted(compress, parents, m);
    assert !Admits(lim, cap, cands, m);
    EntriesExtend(compress, parents, m, false);
  }

  /** Once the parent limit is reached nothing more is chosen, so leaving the loop there
      changes nothing. */
  lemma {:induction false} NothingAfterTheLimit(lim: Limits, cap: int, cands: seq<Candidate>, compress: string -> string,
                                                parents: seq<Group>, k: nat, n: nat, items: seq<Item>)
    requires k <= n <= |cands| == |parents| && |items| >= Max(1, lim.maxParents)
    requires items == Entries(compress, parents, Greedy(lim, cap, cands, k))
    ensures items == Entries(compress, parents, Greedy(lim, cap, cands, n))
    decreases n - k
  {
    if k < n {
      OneMoreTurn(lim, cap, cands, compress, parents, k, items);
      NothingAfterTheLimit(lim, cap, cands, compress, parents, k + 1, n, items);
    }
  }

  lemma OneMoreTurn(lim: Limits, cap: int, cands: seq<Candidate>, compress: string -> string, parents: seq<Group>, k: nat, items: seq<Item>)
    requires k < |cands| == |parents| && |items| >= Max(1, lim.maxParents)
    requires items == Entries(compress, parents, Greedy(lim, cap, cands, k))
    ensures items == Entries(compress, parents, Greedy(lim, cap, cands, k + 1))
  {
    GreedyStep(lim, cap, cands, k + 1);
    NothingNext(lim, cap, cands, compress, parents, Greedy(lim, cap, cands, k));
  }

  /** What the loop has after `m` was decided: the entries, the totals, and how often each
      article was used. */
  ghost predicate Tallies(cands: seq<Candidate>, compress: string -> string, parents: seq<Group>, m: Choice, run: Running)
    requires |m| <= |cands| == |parents|
  {
    && run.items == Entries(compress, parents, m) && |run.items| == Count(m)
    && run.chars == Chars(cands, m) && run.tokens == Tokens(cands, m)
    && forall a :: CountOf(cands, m, a) == Used(run.counts, a)
  }

  /** The locals of the loop. */
  datatype Running = Running(items: seq<Item>, chars: nat, tokens: nat, counts: map<string, nat>)

  function Used(counts: map<string, nat>, article: string): nat {
    if article in counts then counts[article] else 0
  }

  /** Admitting one parent more. */
  function Admitted(run: Running, g: Group, text: string): Running {
    Running(run.items + [Item(g, text, Label(|run.items| + 1))], run.chars + |text|, run.tokens + TokensOfText(text),
            run.counts[ArticleOf(g.best) := Used(run.counts, ArticleOf(g.best)) + 1])
  }

  function TokensOfText(text: string): nat { TokensOf(Candidate("", |text|, true)) }

  lemma RefuseKeepsTallies(cands: seq<Candidate>, compress: string -> string, parents: seq<Group>, m: Choice, run: Running)
    requires |m| < |cands| == |parents| && Tallies(cands, compress, parents, m, run)
    ensures Tallies(cands, compress, parents, m + [false], run)
  {
    Extend(cands, m, false);
    EntriesExtend(compress, parents, m, false);
  }

  lemma AdmitKeepsTallies(lim: Limits, cands: seq<Candidate>, compress: string -> string, parents: seq<Group>, m: Choice, run: Running)
    requires |m| < |cands| == |parents| && Tallies(cands, compress, parents, m, run)
    requires cands[|m|] == CandidateOf(lim, compress, parents[|m|])
    ensures Tallies(cands, compress, parents, m + [true], Admitted(run, parents[|m|], compress(Body(parents[|m|].best))))
  {
    Extend(cands, m, true);
    EntriesExtend(compress, parents, m, true);
  }

  /** The guards of the loop say what `Admits` says. */
  lemma GuardsAreAdmits(lim: Limits, cap: int, cands: seq<Candidate>, compress: string -> string, parents: seq<Group>, m: Choice, run: Running)
    requires |m| < |cands| == |parents| && Tallies(cands, compress, parents, m, run)
    requires cands[|m|] == CandidateOf(lim, compress, parents[|m|]) && (run.items == [] || |run.items| < lim.maxParents)
    ensures Admits(lim, cap, cands, m) <==> Passes(lim, cap, parents[|m|].best, compress(Body(parents[|m|].best)), run)
  {
    assert CountOf(cands, m, cands[|m|].article) == Used(run.counts, cands[|m|].article);
  }

  predicate Passes(lim: Limits, cap: int, best: Hit, text: string, run: Running) {
    && Score(best) >= lim.minScore
    && Used(run.counts, ArticleOf(best)) < cap
    && text != ""
    && (run.chars == 0 || run.chars + |text| <= lim.maxChars)
    && (run.tokens == 0 || run.tokens + TokensOfText(text) <= lim.maxTokens)
  }

  /** One parent in the loop of `_select_context`. */
  method Consider(lim: Limits, cap: int, compress: string -> string, g: Group, before: Running) returns (run: Running)
    ensures var text := compress(Body(g.best));
            run == if Passes(lim, cap, g.best, text, before) then Admitted(before, g, text) else before
  {
    run := before;
    if Score(g.best) < lim.minScore {
      return;
    }
    if Used(run.counts, ArticleOf(g.best)) >= cap {
      return;
    }
    var text := compress(Body(g.best));
    if text == "" {
      return;
    }
    if run.chars != 0 && run.chars + |text| > lim.maxChars {
      return;
    }
    var tokens := Max(1, (|text| + 3) / 4);
    if run.tokens != 0 && run.tokens + tokens > lim.maxTokens {
      return;
    }
    run := Running(run.items + [Item(g, text, Label(|run.items| + 1))], run.chars + |text|, run.tokens + tokens,
                   run.counts[ArticleOf(g.best) := Used(run.counts, ArticleOf(g.best)) + 1]);
  }

  lemma EmptyTallies(lim: Limits, cap: int, cands: seq<Candidate>, compress: string -> string, parents: seq<Group>)
    requires |cands| == |parents|
    ensures Tallies(cands, compress, parents, Greedy(lim, cap, cands, 0), Running([], 0, 0, map[]))
  {
  }

  lemma ConsiderStep(lim: Limits, cap: int, cands: seq<Candidate>, compress: string -> string, parents: seq<Group>, i: nat, run: Running)
    requires i < |cands| == |parents| && Tallies(cands, compress, parents, Greedy(lim, cap, cands, i), run)
    requires cands[i] == CandidateOf(lim, compress, parents[i]) && (run.items == [] || |run.items| < lim.maxParents)
    ensures var text := compress(Body(parents[i].best));
            Tallies(cands, compress, parents, Greedy(lim, cap, cands, i + 1),
                    if Passes(lim, cap, parents[i].best, text, run) then Admitted(run, parents[i], text) else run)
  {
    var m := Greedy(lim, cap, cands, i);
    GuardsAreAdmits(lim, cap, cands, compress, parents, m, run);
    RefuseKeepsTallies(cands, compress, parents, m, run);
    AdmitKeepsTallies(lim, cands, compress, parents, m, run);
  }

  /** What holds before the loop turns to parent `i`. */
  ghost predicate Going(lim: Limits, cap: int, compress: string -> string, parents: seq<Group>, i: nat, run: Running)
    requires i <= |parents|
  {
    var cands := Candidates(lim, compress, parents);
    Tallies(cands, compress, parents, Greedy(lim, cap, cands, i), run) && (run.items == [] || |run.items| < lim.maxParents)
  }

  /** The entries the whole loop should end with. */
  function Chosen(lim: Limits, cap: int, compress: string -> string, parents: seq<Group>): seq<Item> {
    var cands := Candidates(lim, compress, parents);
    Entries(compress, parents, Greedy(lim, cap, cands, |cands|))
  }

  lemma Begins(lim: Limits, cap: int, compress: string -> string, parents: seq<Group>)
    ensures Going(lim, cap, compress, parents, 0, Running([], 0, 0, map[]))
  {
    EmptyTallies(lim, cap, Candidates(lim, compress, parents), compress, parents);
  }

  lemma Turns(lim: Limits, cap: int, compress: string -> string, parents: seq<Group>, i: nat, run: Running, next: Running)
    requires i < |parents| && Going(lim, cap, compress, parents, i, run)
    requires var text := compress(Body(parents[i].best));
             next == if Passes(lim, cap, parents[i].best, text, run) then Admitted(run, parents[i], text) else run
    ensures if |next.items| > |run.items| && |next.items| >= lim.maxParents
            then next.items == Chosen(lim, cap, compress, parents) else Going(lim, cap, compress, parents, i + 1, next)
  {
    var cands := Candidates(lim, compress, parents);
    ConsiderStep(lim, cap, cands, compress, parents, i, run);
    if |next.items| > |run.items| && |next.items| >= lim.maxParents {
      NothingAfterTheLimit(lim, cap, cands, compress, parents, i + 1, |parents|, next.items);
    }
  }

  lemma Ends(lim: Limits, cap: int, compress: string -> string, parents: seq<Group>, run: Running)
    requires Going(lim, cap, compress, parents, |parents|, run)
    ensures run.items == Chosen(lim, cap, compress, parents)
  {
  }

  /** The loop of `_select_context`. */
  method Choose(lim: Limits, cap: int, compress: string -> string, parents: seq<Group>) returns (items: seq<Item>)
    ensures items == Chosen(lim, cap, compress, parents)
  {
    var run := Running([], 0, 0, map[]);
    Begins(lim, cap, compress, parents);
    for i := 0 to |parents|
      invariant Going(lim, cap, compress, parents, i, run)
    {
      var next := Consider(lim, cap, compress, parents[i], run);
      Turns(lim, cap, compress, parents, i, run, next);
      if |next.items| > |run.items| && |next.items| >= lim.maxParents {
        return next.items;
      }
      run := next;
    }
    Ends(lim, cap, compress, parents, run);
    return run.items;
  }

  /** `_select_context`. */
  method SelectContext(lim: Limits, compress: string -> string, hits: seq<Hit>) returns (items: seq<Item>)
    ensures var parents := ByScore(Grouped(hits));
            items == Chosen(lim, PerArticleCap(lim, Candidates(lim, compress, parents)), compress, parents)
    // No article gives more than the least cap by which the articles fill the parent limit.
    ensures var cands := Candidates(lim, compress, ByScore(Grouped(hits)));
            var d, cap := |set c | c in cands :: c.article|, PerArticleCap(lim, cands);
            if cands == [] then cap == lim.maxPerArticle
            else cap >= lim.maxPerArticle && d * cap >= lim.maxParents && (cap == lim.maxPerArticle || d * (cap - 1) < lim.maxParents)
  {
    var parents := ResolveParentContext(hits);
    PerArticleCapIsLeast(lim, Candidates(lim, compress, parents));
    items := Choose(lim, PerArticleCap(lim, Candidates(lim, compress, parents)), compress, parents);
  }
}
