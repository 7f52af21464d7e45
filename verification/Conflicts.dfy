/** Contradictory labelled facts across articles: the two-pass dictionary code, against the
    question whether two articles first state different values. */
module Conflicts {
  import opened Sets

  /** One labelled statement. What the fact pattern finds in a text, and how label and
      value are normalised, is not part of this model. */
  datatype Fact = Fact(key: string, value: string, statement: string)

  /** One retrieved source: its article and the facts its text states, in order. */
  datatype Source = Source(article: string, facts: seq<Fact>)

  datatype Entry = Entry(article: string, key: string, value: string, statement: string)

  datatype Conflict = Conflict(fact: string, entries: seq<Entry>)

  function EntryOf(article: string, f: Fact): Entry { Entry(article, f.key, f.value, f.statement) }

  function Stated(article: string, facts: seq<Fact>): seq<Entry> {
    if facts == [] then [] else Stated(article, facts[..|facts| - 1]) + [EntryOf(article, facts[|facts| - 1])]
  }

  /** Everything stated, in reading order. */
  function Statements(results: seq<Source>): seq<Entry> {
    if results == [] then []
    else
      var last := results[|results| - 1];
      Statements(results[..|results| - 1]) + Stated(last.article, last.facts)
  }

  // ----- the question ---------------------------------------------------------------------

  /** Entry `i` is the first its article makes about its label. */
  predicate FirstWord(entries: seq<Entry>, i: nat)
    requires i < |entries|
  {
    forall j | 0 <= j < i :: !(entries[j].article == entries[i].article && entries[j].key == entries[i].key)
  }

  /** Two articles whose first words on `key` differ. */
  predicate Disagree(entries: seq<Entry>, key: string, i: nat, j: nat)
    requires i < |entries| && j < |entries|
  {
    && entries[i].key == key && entries[j].key == key
    && FirstWord(entries, i) && FirstWord(entries, j)
    && entries[i].value != entries[j].value
  }

  predicate Contradicted(entries: seq<Entry>, key: string) {
    exists i, j | 0 <= i < |entries| && 0 <= j < |entries| :: Disagree(entries, key, i, j)
  }

  // ----- what the code builds -----------------------------------------------------------------

  function Keys(entries: seq<Entry>): seq<string> {
    if entries == [] then []
    else
      var before := Keys(entries[..|entries| - 1]);
      var k := entries[|entries| - 1].key;
      if k in before then before else before + [k]
  }

  function Stating(entries: seq<Entry>, key: string): seq<Entry> {
    if entries == [] then []
    else
      var before := Stating(entries[..|entries| - 1], key);
      var e := entries[|entries| - 1];
      if e.key == key then before + [e] else before
  }

  predicate Speaks(entries: seq<Entry>, article: string) {
    exists i | 0 <= i < |entries| :: entries[i].article == article
  }

  /** The first entry of each article. */
  function ByArticle(entries: seq<Entry>): seq<Entry> {
    if entries == [] then []
    else
      var before := ByArticle(entries[..|entries| - 1]);
      var e := entries[|entries| - 1];
      if Speaks(before, e.article) then before else before + [e]
  }

  predicate Varied(entries: seq<Entry>) {
    exists i, j | 0 <= i < |entries| && 0 <= j < |entries| :: entries[i].value != entries[j].value
  }

  /** The escalated conflicts, in the order the labels are first read. */
  function Escalated(entries: seq<Entry>, keys: seq<string>): seq<Conflict> {
    if keys == [] then []
    else
      var before := Escalated(entries, keys[..|keys| - 1]);
      var k := keys[|keys| - 1];
      if Contradicted(entries, k) then before + [Conflict(k, ByArticle(Stating(entries, k)))] else before
  }

  // ----- in full -----------------------------------------------------------------------------------

  lemma {:induction false} StatedInFull(article: string, facts: seq<Fact>)
    ensures Stated(article, facts) ==
            seq(|facts|, i requires 0 <= i < |facts| => Entry(article, facts[i].key, facts[i].value, facts[i].statement))
  {
    if facts != [] {
      StatedInFull(article, facts[..|facts| - 1]);
    }
  }

  /** Reading order: the facts of one source more come behind those of all before. */
  lemma ReadingOrder(results: seq<Source>, s: Source)
    ensures Statements([]) == []
    ensures Statements(results + [s]) ==
            Statements(results) + seq(|s.facts|, i requires 0 <= i < |s.facts| => Entry(s.article, s.facts[i].key, s.facts[i].value, s.facts[i].statement))
  {
    StatedInFull(s.article, s.facts);
    assert (results + [s])[..|results|] == results;
  }

  /** Labels come in the order they are first read: label `k` is first read at `i`, when `k`
      others have been. */
  lemma {:induction false} LabelsInOrder(entries: seq<Entry>, k: nat) returns (i: nat)
    requires k < |Keys(entries)|
    ensures i < |entries| && entries[i].key == Keys(entries)[k] && |Keys(entries[..i])| == k && Keys(entries)[k] !in Keys(entries[..i])
  {
    var n := |entries| - 1;
    if k < |Keys(entries[..n])| {
      i := LabelsInOrder(entries[..n], k);
      assert entries[..n][..i] == entries[..i];
    } else {
      i := n;
    }
  }

  /** The entries kept for a label are in reading order. */
  lemma {:induction false} KeptInOrder(entries: seq<Entry>, k: nat) returns (i: nat)
    requires k < |ByArticle(entries)|
    ensures i < |entries| && entries[i] == ByArticle(entries)[k] && |ByArticle(entries[..i])| == k
  {
    var n := |entries| - 1;
    if k < |ByArticle(entries[..n])| {
      i := KeptInOrder(entries[..n], k);
      assert entries[..n][..i] == entries[..i];
    } else {
      i := n;
    }
  }

  /** The entry stands at `j`, and its article says nothing on its label before. */
  predicate SaidFirst(entries: seq<Entry>, e: Entry, j: nat)
    requires j < |entries|
  {
    entries[j] == e && forall h | 0 <= h < j :: !(entries[h].article == e.article && entries[h].key == e.key)
  }

  /** An escalated conflict names a contradicted label, and holds exactly the first statement
      on it of each article. */
  lemma {:induction false} ConflictInFull(entries: seq<Entry>, keys: seq<string>, k: nat, e: Entry) returns (i: nat)
    requires k < |Escalated(entries, keys)|
    ensures i < |keys| && |Escalated(entries, keys[..i])| == k
    ensures var c := Escalated(entries, keys)[k];
            && c.fact == keys[i] && Contradicted(entries, c.fact)
            && (e in c.entries <==> e.key == c.fact && exists j | 0 <= j < |entries| :: SaidFirst(entries, e, j))
  {
    var n := |keys| - 1;
    if k < |Escalated(entries, keys[..n])| {
      i := ConflictInFull(entries, keys[..n], k, e);
      assert keys[..n][..i] == keys[..i];
    } else {
      i := n;
      KeptIffFirstWord(entries, keys[n], e);
      FirstWordInFull(entries, e);
    }
  }

  lemma FirstWordInFull(entries: seq<Entry>, e: Entry)
    ensures FirstWordIs(entries, e.key, e) <==>
            exists j | 0 <= j < |entries| :: SaidFirst(entries, e, j)
  {
    forall j | 0 <= j < |entries| && entries[j] == e
      ensures FirstWord(entries, j) <==> SaidFirst(entries, e, j)
    {
    }
  }

  // ----- the two agree ---------------------------------------------------------------------------

  predicate FirstWordIs(entries: seq<Entry>, key: string, e: Entry) {
    e.key == key && exists i | 0 <= i < |entries| :: entries[i] == e && FirstWord(entries, i)
  }

  /** A first word stays one, and a new one can only be the last entry. */
  lemma FirstWordStays(entries: seq<Entry>, key: string, e: Entry)
    requires entries != [] && FirstWordIs(entries[..|entries| - 1], key, e)
    ensures FirstWordIs(entries, key, e)
  {
    var n := |entries| - 1;
    var i :| 0 <= i < n && entries[..n][i] == e && FirstWord(entries[..n], i);
    PrefixWords(entries, n);
    assert entries[i] == e && FirstWord(entries, i);
  }

  lemma FirstWordFalls(entries: seq<Entry>, key: string, e: Entry)
    requires entries != [] && FirstWordIs(entries, key, e)
    ensures var n := |entries| - 1;
            FirstWordIs(entries[..n], key, e) || (entries[n] == e && !SpeaksOf(entries[..n], key, e.article))
  {
    var n := |entries| - 1;
    var i :| 0 <= i < |entries| && entries[i] == e && FirstWord(entries, i);
    if i < n {
      PrefixWords(entries, n);
      assert entries[..n][i] == e && FirstWord(entries[..n], i);
    } else {
      LastWord(entries);
    }
  }

  lemma FirstWordMore(entries: seq<Entry>, key: string, e: Entry)
    requires entries != []
    ensures var n := |entries| - 1;
            FirstWordIs(entries, key, e) <==>
            FirstWordIs(entries[..n], key, e) || (entries[n] == e && e.key == key && !SpeaksOf(entries[..n], key, e.article))
  {
    var n := |entries| - 1;
    if FirstWordIs(entries, key, e) {
      FirstWordFalls(entries, key, e);
    }
    if FirstWordIs(entries[..n], key, e) {
      FirstWordStays(entries, key, e);
    }
    LastWord(entries);
  }

  lemma LastWord(entries: seq<Entry>)
    requires entries != []
    ensures var n := |entries| - 1; FirstWord(entries, n) <==> !SpeaksOf(entries[..n], entries[n].key, entries[n].article)
  {
    var n := |entries| - 1;
    assert forall i | 0 <= i < n :: entries[..n][i] == entries[i];
  }

  /** The kept entries speak for exactly the articles that speak about the label. */
  lemma {:induction false} KeptSpeak(entries: seq<Entry>, key: string)
    ensures forall a :: Speaks(ByArticle(Stating(entries, key)), a) <==> SpeaksOf(entries, key, a)
  {
    if entries != [] {
      var n := |entries| - 1;
      KeptSpeak(entries[..n], key);
      SpeaksOfMore(entries, key);
      var said := Stating(entries[..n], key);
      assert (said + [entries[n]])[..|said|] == said;
      SpeaksMore(ByArticle(said), entries[n]);
    }
  }

  /** An entry is kept exactly when it is a first word on the label. */
  lemma {:induction false} KeptIffFirstWord(entries: seq<Entry>, key: string, e: Entry)
    ensures e in ByArticle(Stating(entries, key)) <==> FirstWordIs(entries, key, e)
  {
    if entries != [] {
      var n := |entries| - 1;
      KeptIffFirstWord(entries[..n], key, e);
      KeptSpeak(entries[..n], key);
      FirstWordMore(entries, key, e);
      var said := Stating(entries[..n], key);
      assert (said + [entries[n]])[..|said|] == said;
    }
  }

  predicate SpeaksOf(entries: seq<Entry>, key: string, article: string) {
    exists i | 0 <= i < |entries| :: entries[i].key == key && entries[i].article == article
  }

  lemma PrefixWords(entries: seq<Entry>, n: nat)
    requires n <= |entries|
    ensures forall i | 0 <= i < n :: entries[..n][i] == entries[i] && (FirstWord(entries[..n], i) <==> FirstWord(entries, i))
  {
    forall i | 0 <= i < n ensures FirstWord(entries[..n], i) <==> FirstWord(entries, i) {
      assert forall j | 0 <= j < i :: entries[..n][j] == entries[j];
    }
  }

  lemma SpeaksMore(entries: seq<Entry>, e: Entry)
    ensures forall a :: Speaks(entries + [e], a) <==> Speaks(entries, a) || e.article == a
  {
    forall a ensures Speaks(entries + [e], a) <==> Speaks(entries, a) || e.article == a {
      assert (entries + [e])[|entries|] == e;
      assert forall i | 0 <= i < |entries| :: (entries + [e])[i] == entries[i];
    }
  }

  lemma SpeaksOfMore(entries: seq<Entry>, key: string)
    requires entries != []
    ensures forall a :: SpeaksOf(entries, key, a) <==>
                        SpeaksOf(entries[..|entries| - 1], key, a) ||
                        (entries[|entries| - 1].key == key && entries[|entries| - 1].article == a)
  {
    assert forall i | 0 <= i < |entries| - 1 :: entries[..|entries| - 1][i] == entries[i];
  }

  /** The kept entries vary exactly when two articles contradict each other. */
  lemma VariedIffContradicted(entries: seq<Entry>, key: string)
    ensures Varied(ByArticle(Stating(entries, key))) <==> Contradicted(entries, key)
  {
    var kept := ByArticle(Stating(entries, key));
    if Varied(kept) {
      var i, j :| 0 <= i < |kept| && 0 <= j < |kept| && kept[i].value != kept[j].value;
      KeptIffFirstWord(entries, key, kept[i]);
      KeptIffFirstWord(entries, key, kept[j]);
      assert kept[i] in kept && kept[j] in kept;
      var a :| 0 <= a < |entries| && entries[a] == kept[i] && FirstWord(entries, a);
      var b :| 0 <= b < |entries| && entries[b] == kept[j] && FirstWord(entries, b);
      assert Disagree(entries, key, a, b);
    }
    if Contradicted(entries, key) {
      var a, b :| 0 <= a < |entries| && 0 <= b < |entries| && Disagree(entries, key, a, b);
      KeptIffFirstWord(entries, key, entries[a]);
      KeptIffFirstWord(entries, key, entries[b]);
      var i :| 0 <= i < |kept| && kept[i] == entries[a];
      var j :| 0 <= j < |kept| && kept[j] == entries[b];
      assert kept[i].value != kept[j].value;
    }
  }

  /** One article never contradicts itself. */
  lemma OneArticleNeverDisagrees(entries: seq<Entry>, key: string, i: nat, j: nat)
    requires i < |entries| && j < |entries| && entries[i].article == entries[j].article
    ensures !Disagree(entries, key, i, j)
  {
    if entries[i].key == entries[j].key {
      if i < j {
        assert !FirstWord(entries, j);
      } else if j < i {
        assert !FirstWord(entries, i);
      }
    }
  }

  lemma {:induction false} KeysIff(entries: seq<Entry>, key: string)
    ensures key in Keys(entries) <==> exists i | 0 <= i < |entries| :: entries[i].key == key
    ensures forall i, j | 0 <= i < j < |Keys(entries)| :: Keys(entries)[i] != Keys(entries)[j]
  {
    if entries != [] {
      KeysIff(entries[..|entries| - 1], key);
      assert forall i | 0 <= i < |entries| - 1 :: entries[..|entries| - 1][i] == entries[i];
    }
  }

  predicate Names(conflicts: seq<Conflict>, key: string) {
    exists i | 0 <= i < |conflicts| :: conflicts[i].fact == key
  }

  lemma NamesMore(conflicts: seq<Conflict>, c: Conflict, key: string)
    ensures Names(conflicts + [c], key) <==> Names(conflicts, key) || c.fact == key
  {
    assert (conflicts + [c])[|conflicts|] == c;
    assert forall i | 0 <= i < |conflicts| :: (conflicts + [c])[i] == conflicts[i];
  }

  lemma {:induction false} EscalatedIff(entries: seq<Entry>, keys: seq<string>, key: string)
    ensures Names(Escalated(entries, keys), key) <==> key in keys && Contradicted(entries, key)
  {
    if keys != [] {
      var n := |keys| - 1;
      EscalatedIff(entries, keys[..n], key);
      assert keys == keys[..n] + [keys[n]];
      NamesMore(Escalated(entries, keys[..n]), Conflict(keys[n], ByArticle(Stating(entries, keys[n]))), key);
    }
  }

  /** A label is escalated exactly when two articles first state different values for it. */
  lemma EscalatedIffContradicted(entries: seq<Entry>, key: string)
    ensures Names(Escalated(entries, Keys(entries)), key) <==> Contradicted(entries, key)
  {
    EscalatedIff(entries, Keys(entries), key);
    KeysIff(entries, key);
  }

  // ----- what is promised, and when it is kept ---------------------------------------------------

  /** Two entries on the label differ in article and in value, which is what the promise to
      escalate speaks of. */
  predicate StatedDifferently(entries: seq<Entry>, key: string) {
    exists i, j | 0 <= i < |entries| && 0 <= j < |entries| ::
      entries[i].key == entries[j].key == key && entries[i].article != entries[j].article && entries[i].value != entries[j].value
  }

  /** Two articles speak of the label. */
  predicate TwoSpeak(entries: seq<Entry>, key: string) {
    exists i, j | 0 <= i < |entries| && 0 <= j < |entries| ::
      entries[i].key == entries[j].key == key && entries[i].article != entries[j].article
  }

  /** One article states two values for the label. */
  predicate Wavers(entries: seq<Entry>, key: string) {
    exists i, j | 0 <= i < |entries| && 0 <= j < |entries| ::
      entries[i].key == entries[j].key == key && entries[i].article == entries[j].article && entries[i].value != entries[j].value
  }

  /** The first word its article says on the label of an entry. */
  lemma {:induction false} FirstWordBehind(entries: seq<Entry>, i: nat) returns (f: nat)
    requires i < |entries|
    ensures f <= i && FirstWord(entries, f) && entries[f].key == entries[i].key && entries[f].article == entries[i].article
  {
    if FirstWord(entries, i) {
      f := i;
    } else {
      var j :| 0 <= j < i && entries[j].article == entries[i].article && entries[j].key == entries[i].key;
      f := FirstWordBehind(entries, j);
    }
  }

  lemma DisagreeingArticlesDiffer(entries: seq<Entry>, key: string, i: nat, j: nat)
    requires i < |entries| && j < |entries| && Disagree(entries, key, i, j)
    ensures entries[i].article != entries[j].article
  {
    assert i != j;
  }

  /** First words that differ come from different articles. */
  lemma ContradictedIsStated(entries: seq<Entry>, key: string)
    requires Contradicted(entries, key)
    ensures StatedDifferently(entries, key)
  {
    var i, j :| 0 <= i < |entries| && 0 <= j < |entries| && Disagree(entries, key, i, j);
    assert entries[i].article != entries[j].article by {
      DisagreeingArticlesDiffer(entries, key, i, j);
    }
  }

  /** Articles that do not waver say all they say with their first words. */
  lemma SteadyWordsContradict(entries: seq<Entry>, key: string)
    requires StatedDifferently(entries, key) && !Wavers(entries, key)
    ensures Contradicted(entries, key)
  {
    var i, j :| 0 <= i < |entries| && 0 <= j < |entries| && entries[i].key == entries[j].key == key &&
                entries[i].article != entries[j].article && entries[i].value != entries[j].value;
    var a := FirstWordBehind(entries, i);
    var b := FirstWordBehind(entries, j);
    assert Disagree(entries, key, a, b);
  }

  /** Of two values of one article, another article's value differs from one. */
  lemma WaveringIsStated(entries: seq<Entry>, key: string)
    requires TwoSpeak(entries, key) && Wavers(entries, key)
    ensures StatedDifferently(entries, key)
  {
    var i, j :| 0 <= i < |entries| && 0 <= j < |entries| && entries[i].key == entries[j].key == key &&
                entries[i].article == entries[j].article && entries[i].value != entries[j].value;
    var m, n :| 0 <= m < |entries| && 0 <= n < |entries| && entries[m].key == entries[n].key == key &&
                entries[m].article != entries[n].article;
    var other := if entries[m].article == entries[i].article then n else m;
    var differs := if entries[other].value == entries[i].value then j else i;
    assert entries[other].article != entries[differs].article && entries[other].value != entries[differs].value;
  }

  /** "Escalated where two different articles state different values" holds of a label
      exactly when two first words differ, or one article alone speaks of it, or every
      article keeps to one value. */
  lemma PromiseIsKeptIff(entries: seq<Entry>, key: string)
    ensures (Names(Escalated(entries, Keys(entries)), key) <==> StatedDifferently(entries, key)) <==>
            Contradicted(entries, key) || !TwoSpeak(entries, key) || !Wavers(entries, key)
  {
    EscalatedIffContradicted(entries, key);
    if Contradicted(entries, key) {
      ContradictedIsStated(entries, key);
    } else if !Wavers(entries, key) {
      if StatedDifferently(entries, key) {
        SteadyWordsContradict(entries, key);
      }
    } else if TwoSpeak(entries, key) {
      WaveringIsStated(entries, key);
    }
  }

  lemma TwoStated(article: string, f: Fact, g: Fact)
    ensures Stated(article, [f]) == [EntryOf(article, f)]
    ensures Stated(article, [f, g]) == [EntryOf(article, f), EntryOf(article, g)]
  {
    assert [f, g][..1] == [f] && [f][..0] == [];
  }

  lemma TwoSources(a: Source, b: Source)
    ensures Statements([a, b]) == Stated(a.article, a.facts) + Stated(b.article, b.facts)
  {
    assert [a, b][..1] == [a] && [a][..0] == [];
    assert Statements([a]) == Stated(a.article, a.facts);
  }

  /** Only first words count: where one article states a value and then another one, and a
      second article the first value, two articles do state different values for the label,
      and nothing is escalated. */
  lemma LaterWordsAreIgnored(a: string, b: string, first: Fact, later: Fact)
    requires a != b && first.key == later.key && first.value != later.value
    ensures var entries := Statements([Source(a, [first, later]), Source(b, [first])]);
            && |entries| == 3 && entries[1].article != entries[2].article && entries[1].key == entries[2].key
            && entries[1].value != entries[2].value
            && Escalated(entries, Keys(entries)) == []
  {
    TwoStated(a, first, later);
    TwoStated(b, first, first);
    TwoSources(Source(a, [first, later]), Source(b, [first]));
    var entries := [EntryOf(a, first), EntryOf(a, later), EntryOf(b, first)];
    assert Statements([Source(a, [first, later]), Source(b, [first])]) == entries;
    OneFirstValue(entries);
    NothingEscalated(entries, Keys(entries));
  }

  lemma OneFirstValue(entries: seq<Entry>)
    requires |entries| == 3 && entries[0].article == entries[1].article && entries[0].key == entries[1].key
    requires entries[0].value == entries[2].value
    ensures forall key :: !Contradicted(entries, key)
  {
    assert !FirstWord(entries, 1);
    forall key, i, j | 0 <= i < 3 && 0 <= j < 3 ensures !Disagree(entries, key, i, j) {
    }
  }

  lemma {:induction false} NothingEscalated(entries: seq<Entry>, keys: seq<string>)
    requires forall k :: !Contradicted(entries, k)
    ensures Escalated(entries, keys) == []
  {
    if keys != [] {
      NothingEscalated(entries, keys[..|keys| - 1]);
    }
  }

  // ----- the loops ------------------------------------------------------------------------------------

  /** The dictionary of facts after some entries: `order` its insertion order. */
  ghost predicate Filed(entries: seq<Entry>, order: seq<string>, facts: map<string, seq<Entry>>) {
    && order == Keys(entries)
    && (forall k :: k in order <==> k in facts)
    && (forall k | k in facts :: facts[k] == Stating(entries, k))
  }

  lemma {:induction false} NothingStated(entries: seq<Entry>, key: string)
    requires key !in Keys(entries)
    ensures Stating(entries, key) == []
  {
    if entries != [] {
      NothingStated(entries[..|entries| - 1], key);
    }
  }

  lemma FileOne(entries: seq<Entry>, e: Entry, order: seq<string>, facts: map<string, seq<Entry>>)
    requires Filed(entries, order, facts)
    ensures Filed(entries + [e], if e.key in facts then order else order + [e.key],
                  facts[e.key := (if e.key in facts then facts[e.key] else []) + [e]])
  {
    assert (entries + [e])[..|entries|] == entries;
    if e.key !in facts {
      NothingStated(entries, e.key);
    }
  }

  /** More than one distinct value is two that differ. */
  lemma ManyIffVaried(entries: seq<Entry>, values: set<string>)
    requires values == set e | e in entries :: e.value
    ensures |values| > 1 <==> Varied(entries)
  {
    if |values| > 1 {
      var v :| v in values;
      assert values != {v};
      var w :| w in values && w != v;
      var i :| 0 <= i < |entries| && entries[i].value == v;
      var j :| 0 <= j < |entries| && entries[j].value == w;
      assert entries[i].value != entries[j].value;
    }
    if Varied(entries) {
      var i, j :| 0 <= i < |entries| && 0 <= j < |entries| && entries[i].value != entries[j].value;
      assert entries[i] in entries && entries[j] in entries;
      assert {entries[i].value, entries[j].value} <= values;
      SubsetIsSmaller({entries[i].value, entries[j].value}, values);
    }
  }

  /** One turn of the loop over the facts of a source. */
  lemma FileFact(before: seq<Entry>, source: Source, j: nat, order: seq<string>, facts: map<string, seq<Entry>>)
    requires j < |source.facts| && Filed(before + Stated(source.article, source.facts[..j]), order, facts)
    ensures var e := EntryOf(source.article, source.facts[j]);
            Filed(before + Stated(source.article, source.facts[..j + 1]),
                  if e.key in facts then order else order + [e.key],
                  facts[e.key := (if e.key in facts then facts[e.key] else []) + [e]])
  {
    var e := EntryOf(source.article, source.facts[j]);
    FileOne(before + Stated(source.article, source.facts[..j]), e, order, facts);
    OneFactMore(before, source, j);
  }

  lemma OneFactMore(before: seq<Entry>, source: Source, j: nat)
    requires j < |source.facts|
    ensures before + Stated(source.article, source.facts[..j + 1]) ==
            before + Stated(source.article, source.facts[..j]) + [EntryOf(source.article, source.facts[j])]
  {
    assert source.facts[..j + 1][..j] == source.facts[..j];
  }

  /** Two values take two articles, so the length test of the code decides nothing. */
  lemma TestIsContradiction(entries: seq<Entry>, key: string, values: set<string>)
    requires var kept := ByArticle(Stating(entries, key)); values == set e | e in kept :: e.value
    ensures |ByArticle(Stating(entries, key))| > 1 && |values| > 1 <==> Contradicted(entries, key)
  {
    VariedIffContradicted(entries, key);
    ManyIffVaried(ByArticle(Stating(entries, key)), values);
  }

  /** The values of `by_article` for one label. */
  method FirstPerArticle(entries: seq<Entry>) returns (kept: seq<Entry>)
    ensures kept == ByArticle(entries)
  {
    kept := [];
    for i := 0 to |entries|
      invariant kept == ByArticle(entries[..i])
    {
      assert entries[..i + 1][..i] == entries[..i];
      if !Speaks(kept, entries[i].article) {
        kept := kept + [entries[i]];
      }
    }
    assert entries[..|entries|] == entries;
  }

  /** The inner loop: the facts of one source. `order` and `facts` are one insertion-ordered
      dictionary. */
  method FileSource(source: Source, ghost before: seq<Entry>, order: seq<string>, facts: map<string, seq<Entry>>)
    returns (order': seq<string>, facts': map<string, seq<Entry>>)
    requires Filed(before, order, facts)
    ensures Filed(before + Stated(source.article, source.facts), order', facts')
  {
    order', facts' := order, facts;
    assert before + Stated(source.article, source.facts[..0]) == before;
    for j := 0 to |source.facts|
      invariant Filed(before + Stated(source.article, source.facts[..j]), order', facts')
    {
      FileFact(before, source, j, order', facts');
      var e := EntryOf(source.article, source.facts[j]);
      if e.key !in facts' {
        order' := order' + [e.key];
        facts' := facts'[e.key := []];
      }
      facts' := facts'[e.key := facts'[e.key] + [e]];
    }
    assert source.facts[..|source.facts|] == source.facts;
  }

  /** The first loop: every fact filed under its label. */
  method FileFacts(results: seq<Source>) returns (order: seq<string>, facts: map<string, seq<Entry>>)
    ensures Filed(Statements(results), order, facts)
  {
    order, facts := [], map[];
    for i := 0 to |results|
      invariant Filed(Statements(results[..i]), order, facts)
    {
      assert results[..i + 1][..i] == results[..i];
      order, facts := FileSource(results[i], Statements(results[..i]), order, facts);
    }
    assert results[..|results|] == results;
  }

  /** `_detect_explicit_conflicts`. */
  method DetectExplicitConflicts(results: seq<Source>) returns (conflicts: seq<Conflict>)
    ensures var entries := Statements(results); conflicts == Escalated(entries, Keys(entries))
  {
    var order, facts := FileFacts(results);
    ghost var all := Statements(results);
    conflicts := [];
    for i := 0 to |order|
      invariant conflicts == Escalated(all, order[..i])
    {
      var key := order[i];
      var kept := FirstPerArticle(facts[key]);
      var values := set e | e in kept :: e.value;
      TestIsContradiction(all, key, values);
      assert order[..i + 1][..i] == order[..i];
      if |kept| > 1 && |values| > 1 {
        conflicts := conflicts + [Conflict(key, kept)];
      }
    }
    assert order[..|order|] == order;
  }
}
