/** When normalising a group name takes away more than the role suffix at its end: exactly
    where a role phrase begins before that suffix. */
module GroupNames {
  import opened PrincipalNames
  import Texts

  // ----- words and blanks -------------------------------------------------------------------

  predicate StartsBlank(s: string) { s == "" || s[0] == ' ' }

  predicate EndsBlank(s: string) { s == "" || s[|s| - 1] == ' ' }

  function MaybeWord(x: string): seq<string> { if x == "" then [] else [x] }

  lemma LastBlank(a: string, z: string)
    requires a != "" && EndsBlank(a)
    ensures var a0 := a[..|a| - 1]; a + z == a0 + " " + z && a == a0 + " " + ""
  {
  }

  lemma FirstBlank(z: string, b: string)
    requires b != "" && StartsBlank(b)
    ensures z + b == z + " " + b[1..] && b == "" + " " + b[1..]
  {
  }

  lemma WordsAfterBlank(a: string, z: string)
    requires EndsBlank(a)
    ensures Words(a + z) == Words(a) + Words(z)
  {
    if a == "" {
      assert a + z == z;
    } else {
      LastBlank(a, z);
      WordsConcat(a[..|a| - 1], z);
      WordsConcat(a[..|a| - 1], "");
    }
  }

  lemma WordsBeforeBlank(z: string, b: string)
    requires StartsBlank(b)
    ensures Words(z + b) == Words(z) + Words(b)
  {
    if b == "" {
      assert z + b == z;
    } else {
      FirstBlank(z, b);
      WordsConcat(z, b[1..]);
      WordsConcat("", b[1..]);
    }
  }

  lemma WordsOfMaybe(x: string)
    requires ' ' !in x
    ensures Words(x) == MaybeWord(x)
  {
    if x != "" {
      OneWord(x);
    }
  }

  /** Where the last word of a text begins. */
  function WordStart(text: string): (s: nat)
    ensures s <= |text| && ' ' !in text[s..] && EndsBlank(text[..s])
    ensures text != "" && text[|text| - 1] != ' ' ==> s < |text|
  {
    if EndsBlank(text) then |text|
    else
      var n := |text| - 1;
      var s := WordStart(text[..n]);
      assert text[s..] == text[..n][s..] + [text[n]] && text[..n][..s] == text[..s];
      s
  }

  // ----- what the role suffix leaves ------------------------------------------------------------

  lemma {:induction false} StripConcat(u: seq<string>, v: seq<string>)
    ensures StripRoles(u + v) == if StripRoles(v) == [] then StripRoles(u) else u + StripRoles(v)
  {
    if v == [] {
      assert u + v == u;
    } else {
      var n := |v| - 1;
      assert (u + v)[..|u + v| - 1] == u + v[..n];
      StripConcat(u, v[..n]);
    }
  }

  /** The words of a text that its role suffix leaves. */
  function Kept(text: string): seq<string> { StripRoles(Words(text)) }

  /** The place where the last of them ends. */
  function End(text: string): (n: nat)
    ensures n <= |text|
    decreases |text|
  {
    if text == "" then 0
    else if text[|text| - 1] == ' ' then End(text[..|text| - 1])
    else if RoleToken(text[WordStart(text)..]) then End(text[..WordStart(text)])
    else |text|
  }

  lemma OneWordMore(before: string, w: string)
    requires EndsBlank(before) && Word(w)
    ensures Words(before + w) == Words(before) + [w]
  {
    WordsAfterBlank(before, w);
    OneWord(w);
  }

  lemma BlankIsNoWord(before: string)
    ensures Words(before + [' ']) == Words(before)
  {
    WordsStep(before, ' ');
  }

  /** A text falls apart at `End` into the words kept and the role suffix. */
  predicate Apart(head: string, tail: string) {
    && StripRoles(Words(tail)) == [] && StripRoles(Words(head)) == Words(head)
    && (StartsBlank(tail) || head == "") && End(head) == |head|
  }

  predicate ApartAt(text: string, l: nat) {
    l <= |text| && Apart(text[..l], text[l..])
  }

  lemma Slices(before: string, w: string, l: nat)
    requires l <= |before|
    ensures (before + w)[..l] == before[..l] && (before + w)[l..] == before[l..] + w
  {
  }

  lemma BlankMore(before: string, l: nat)
    requires ApartAt(before, l)
    ensures ApartAt(before + [' '], l)
  {
    Slices(before, [' '], l);
    BlankIsNoWord(before[l..]);
  }

  lemma RoleWordMore(head: string, tail: string, w: string)
    requires Apart(head, tail) && EndsBlank(tail) && (tail == "" ==> head == "") && Word(w) && RoleToken(w)
    ensures Apart(head, tail + w)
  {
    OneWordMore(tail, w);
    RoleGoes(Words(tail), w);
  }

  lemma RoleGoes(before: seq<string>, w: string)
    requires RoleToken(w) && StripRoles(before) == []
    ensures StripRoles(before + [w]) == []
  {
    assert (before + [w])[..|before|] == before;
  }

  lemma EndBeforeBlank(text: string)
    requires text != "" && EndsBlank(text)
    ensures End(text) < |text| && EndsBlank(text[End(text)..])
  {
    SuffixEndsBlank(text, End(text));
  }

  lemma SuffixEndsBlank(text: string, l: nat)
    requires l < |text| && EndsBlank(text)
    ensures EndsBlank(text[l..])
  {
    assert text[l..][|text| - l - 1] == text[|text| - 1];
  }

  lemma RoleMore(before: string, w: string, l: nat)
    requires EndsBlank(before) && Word(w) && RoleToken(w) && l == End(before) && ApartAt(before, l)
    ensures ApartAt(before + w, l)
  {
    if before != "" {
      EndBeforeBlank(before);
    }
    Slices(before, w, l);
    RoleWordMore(before[..l], before[l..], w);
  }

  lemma StripStops(before: seq<string>, w: string)
    requires !RoleToken(w)
    ensures StripRoles(before + [w]) == before + [w]
  {
  }

  lemma WholeIsApart(text: string, head: string, tail: string)
    requires head == text && tail == "" && StripRoles(Words(text)) == Words(text) && End(text) == |text|
    ensures Apart(head, tail)
  {
  }

  lemma WholeIsKept(text: string, before: seq<string>, w: string)
    requires Words(text) == before + [w] && !RoleToken(w)
    ensures StripRoles(Words(text)) == Words(text)
  {
    StripStops(before, w);
  }

  lemma AllAndNothing(text: string)
    ensures text[..|text|] == text && text[|text|..] == ""
  {
  }

  lemma NothingSetAside(text: string)
    requires StripRoles(Words(text)) == Words(text) && End(text) == |text|
    ensures ApartAt(text, |text|)
  {
    AllAndNothing(text);
    WholeIsApart(text, text[..|text|], text[|text|..]);
  }

  lemma {:induction false} EndParts(text: string)
    ensures ApartAt(text, End(text))
    decreases |text|
  {
    if text != "" {
      var n := |text| - 1;
      if text[n] == ' ' {
        assert text == text[..n] + [' '];
        EndParts(text[..n]);
        BlankMore(text[..n], End(text));
      } else {
        var before, w := text[..WordStart(text)], text[WordStart(text)..];
        assert text == before + w;
        if RoleToken(w) {
          EndParts(before);
          RoleMore(before, w, End(text));
        } else {
          OneWordMore(before, w);
          WholeIsKept(text, Words(before), w);
          NothingSetAside(text);
        }
      }
    }
  }

  lemma KeptHead(head: string, tail: string)
    requires Apart(head, tail)
    ensures Kept(head + tail) == Words(head)
  {
    if head == "" {
      assert head + tail == tail;
    } else {
      WordsBeforeBlank(head, tail);
      StripConcat(Words(head), Words(tail));
    }
  }

  /** The text up to `End` holds exactly the words kept. */
  lemma EndSplits(text: string)
    ensures Kept(text) == Words(text[..End(text)])
  {
    var head, tail := Halves(text);
    KeptHead(head, tail);
    assert text[..End(text)] == head;
  }

  lemma EndOfBlank(text: string)
    ensures End(text + [' ']) == End(text)
  {
    assert (text + [' '])[..|text|] == text;
  }

  lemma EndOfRole(text: string, w: string)
    requires Word(w) && RoleToken(w) && EndsBlank(text)
    ensures End(text + w) == End(text)
  {
    SameWordStart(text, w);
    WordStartOfWord(w);
    assert (text + w)[|text|..] == w && (text + w)[..|text|] == text;
  }

  lemma {:induction false} WordStartOfWord(w: string)
    requires Word(w)
    ensures WordStart(w) == 0
  {
    if |w| > 1 {
      WordStartOfWord(w[..|w| - 1]);
    }
  }

  lemma BlankBehind(head: string, before: string)
    requires End(head + before) == End(head)
    ensures End(head + (before + [' '])) == End(head)
  {
    assert head + (before + [' ']) == (head + before) + [' '];
    EndOfBlank(head + before);
  }

  lemma RoleBehind(head: string, before: string, w: string)
    requires End(head + before) == End(head) && EndsBlank(head + before) && Word(w) && RoleToken(w)
    ensures End(head + (before + w)) == End(head)
  {
    assert head + (before + w) == (head + before) + w;
    EndOfRole(head + before, w);
  }

  /** A text that ends with a word is that word behind a blank text. */
  lemma LastWord(tail: string) returns (before: string, w: string)
    requires tail != "" && tail[|tail| - 1] != ' '
    ensures tail == before + w && EndsBlank(before) && Word(w) && Words(tail) == Words(before) + [w]
    ensures StartsBlank(tail) ==> before != "" && StartsBlank(before)
  {
    var s := WordStart(tail);
    before, w := tail[..s], tail[s..];
    assert tail == before + w;
    OneWordMore(before, w);
    SameWordStart("", tail);
  }

  /** Nothing but role tokens behind a text leaves its end where it was. */
  lemma {:induction false} EndThrough(head: string, tail: string)
    requires StripRoles(Words(tail)) == [] && (StartsBlank(tail) || EndsBlank(head))
    ensures End(head + tail) == End(head)
    decreases |tail|
  {
    if tail == "" {
      assert head + tail == head;
    } else if tail[|tail| - 1] == ' ' {
      var before := tail[..|tail| - 1];
      assert tail == before + [' '];
      BlankIsNoWord(before);
      EndThrough(head, before);
      BlankBehind(head, before);
    } else {
      var before, w := LastWord(tail);
      RoleAtEnd(Words(before), w);
      EndsBlankBefore(head, before);
      EndThrough(head, before);
      RoleBehind(head, before, w);
    }
  }

  lemma EndsBlankBefore(head: string, before: string)
    requires EndsBlank(before) && (before != "" || EndsBlank(head))
    ensures EndsBlank(head + before)
  {
    if before == "" {
      assert head + before == head;
    }
  }

  lemma RoleAtEnd(before: seq<string>, w: string)
    requires StripRoles(before + [w]) == []
    ensures RoleToken(w) && StripRoles(before) == []
  {
    assert (before + [w])[..|before|] == before;
  }

  lemma {:induction false} SameWordStart(head: string, tail: string)
    requires tail != "" && tail[|tail| - 1] != ' ' && (StartsBlank(tail) || EndsBlank(head))
    ensures WordStart(head + tail) == |head| + WordStart(tail)
    ensures StartsBlank(tail) ==> WordStart(tail) > 0
  {
    var text, n := head + tail, |tail| - 1;
    assert text[..|text| - 1] == head + tail[..n];
    if EndsBlank(tail[..n]) {
      assert EndsBlank(head + tail[..n]);
    } else {
      SameWordStart(head, tail[..n]);
    }
  }

  // ----- letters ------------------------------------------------------------------------------------

  /** The letters of the words that are no department words. */
  function Weight(words: seq<string>): nat {
    if words == [] then 0
    else
      var n := |words| - 1;
      Weight(words[..n]) + if DepartmentWord(words[n]) then 0 else |words[n]|
  }

  lemma {:induction false} WeightConcat(u: seq<string>, v: seq<string>)
    ensures Weight(u + v) == Weight(u) + Weight(v)
  {
    if v == [] {
      assert u + v == u;
    } else {
      var n := |v| - 1;
      assert (u + v)[..|u + v| - 1] == u + v[..n];
      WeightConcat(u, v[..n]);
    }
  }

  lemma WeightOne(w: string)
    ensures Weight([w]) == if DepartmentWord(w) then 0 else |w|
  {
    assert [w][..0] == [];
  }

  lemma WeightMaybe(x: string)
    ensures Weight(MaybeWord(x)) <= |x|
  {
    WeightOne(x);
  }

  lemma {:induction false} StrippedIsLighter(words: seq<string>)
    ensures Weight(StripRoles(words)) <= Weight(words)
  {
    if words != [] && RoleToken(words[|words| - 1]) {
      StrippedIsLighter(words[..|words| - 1]);
    }
  }

  /** Department words weigh nothing, so what is left without them weighs the same. */
  lemma {:induction false} WeightWithoutDepartments(words: seq<string>)
    ensures Weight(WithoutDepartmentWords(words)) == Weight(words)
  {
    if words != [] {
      var n := |words| - 1;
      WeightWithoutDepartments(words[..n]);
      WeightConcat(WithoutDepartmentWords(words[..n]), [words[n]]);
      WeightOne(words[n]);
    }
  }

  // ----- role phrases ---------------------------------------------------------------------------------

  /** A phrase: its first and last word and what stands between. */
  datatype Phrase = Phrase(first: string, between: string, last: string) {
    function Text(): string { first + between + last }
  }

  /** Words that end like the first word of a phrase, or begin like its last, are no department
      words, and no role tokens but these words themselves. */
  ghost predicate Proper(p: Phrase) {
    && Word(p.first) && Word(p.last) && p.between != "" && StartsBlank(p.between) && EndsBlank(p.between)
    && (forall x: string :: (RoleToken(x + p.first) ==> x == "") && !DepartmentWord(x + p.first))
    && (forall y: string :: (RoleToken(p.last + y) ==> y == "") && !DepartmentWord(p.last + y))
  }

  lemma EndsLikeFirst(x: string, f: string)
    requires f == "thanh" || f == "chu" || f == "khach" || f == "nguoi"
    ensures (RoleToken(x + f) ==> x == "") && !DepartmentWord(x + f)
  {
    var t := x + f;
    assert t[|t| - 1] == f[|f| - 1] && t[|t| - 2] == f[|f| - 2];
  }

  lemma BeginsLikeLast(l: string, y: string)
    requires l == "vien" || l == "huu" || l == "cap"
    ensures (RoleToken(l + y) ==> y == "") && !DepartmentWord(l + y)
  {
    var t := l + y;
    assert t[0] == l[0] && t[1] == l[1] && t[2] == l[2];
  }

  function PhraseAt(k: nat): Phrase
    requires k < |PHRASES|
  {
    if k == 0 then Phrase("thanh", " ", "vien")
    else if k == 1 then Phrase("chu", " so ", "huu")
    else if k == 2 then Phrase("khach", " truy ", "cap")
    else Phrase("nguoi", " truy ", "cap")
  }

  lemma PhrasesAreProper(k: nat)
    requires k < |PHRASES|
    ensures Proper(PhraseAt(k)) && PhraseAt(k).Text() == PHRASES[k]
  {
    var p := PhraseAt(k);
    forall x: string ensures (RoleToken(x + p.first) ==> x == "") && !DepartmentWord(x + p.first) {
      EndsLikeFirst(x, p.first);
    }
    forall y: string ensures (RoleToken(p.last + y) ==> y == "") && !DepartmentWord(p.last + y) {
      BeginsLikeLast(p.last, y);
    }
  }

  // ----- one phrase, one occurrence ---------------------------------------------------------------------

  /** The words around an occurrence: it joins what stands before and behind it. */
  lemma WordsOfOccurrence(a: string, x: string, p: Phrase, y: string, b: string)
    requires Proper(p) && EndsBlank(a) && ' ' !in x && ' ' !in y && StartsBlank(b)
    ensures Words((a + x) + p.Text() + (y + b)) == Words(a) + ([x + p.first] + Words(p.between) + [p.last + y] + Words(b))
  {
    var f, l := x + p.first, p.last + y;
    Regroup(a, x, p, y, b);
    WordsAfterBlank(a, f + (p.between + (l + b)));
    WordsFromFirst(f, p.between, l, b);
  }

  lemma Regroup(a: string, x: string, p: Phrase, y: string, b: string)
    ensures (a + x) + p.Text() + (y + b) == a + ((x + p.first) + (p.between + ((p.last + y) + b)))
  {
  }

  lemma StaysBlank(between: string, z: string)
    requires between != "" && StartsBlank(between)
    ensures StartsBlank(between + z)
  {
  }

  lemma Flatten(f: string, mids: seq<string>, l: string, b: seq<string>)
    ensures [f] + (mids + ([l] + b)) == [f] + mids + [l] + b
  {
  }

  lemma WordsThenBlank(l: string, b: string)
    requires Word(l) && StartsBlank(b)
    ensures Words(l + b) == [l] + Words(b)
  {
    WordsBeforeBlank(l, b);
    OneWord(l);
  }

  lemma WordsFromFirst(f: string, between: string, l: string, b: string)
    requires Word(f) && Word(l) && between != "" && StartsBlank(between) && EndsBlank(between) && StartsBlank(b)
    ensures Words(f + (between + (l + b))) == [f] + Words(between) + [l] + Words(b)
  {
    StaysBlank(between, l + b);
    WordsBeforeBlank(f, between + (l + b));
    OneWord(f);
    WordsAfterBlank(between, l + b);
    WordsThenBlank(l, b);
    Flatten(f, Words(between), l, Words(b));
  }

  /** What the role suffix leaves of words that end with an occurrence and what follows it. */
  lemma OccurrenceWeighs(x: string, p: Phrase, mids: seq<string>, y: string, b: seq<string>)
    requires Proper(p)
    ensures var joined := [x + p.first] + mids + [p.last + y] + b;
            if StripRoles(joined) == [] then x == "" && y == "" && StripRoles(b) == []
            else Weight(StripRoles(joined)) > |x| + Weight(StripRoles(MaybeWord(y) + b))
  {
    var f, l := x + p.first, p.last + y;
    var joined := [f] + mids + [l] + b;
    StripConcat([f] + mids + [l], b);
    StripConcat(MaybeWord(y), b);
    if StripRoles(b) != [] {
      WeightConcat([f] + mids + [l], StripRoles(b));
      WeightConcat([f] + mids, [l]);
      WeightConcat([f], mids);
      WeightConcat(MaybeWord(y), StripRoles(b));
      WeightOne(f);
      WeightOne(l);
      WeightMaybe(y);
    } else {
      EndsWithOccurrence(x, p, mids, y);
    }
  }

  lemma EndsWithOccurrence(x: string, p: Phrase, mids: seq<string>, y: string)
    requires Proper(p)
    ensures var joined := [x + p.first] + mids + [p.last + y];
            if StripRoles(joined) == [] then x == "" && y == ""
            else Weight(StripRoles(joined)) > |x| + Weight(StripRoles(MaybeWord(y)))
  {
    var f, l := x + p.first, p.last + y;
    StripConcat([f] + mids, [l]);
    assert StripRoles([l]) == if RoleToken(l) then [] else [l] by { assert [l][..0] == []; }
    StrippedIsLighter(MaybeWord(y));
    WeightMaybe(y);
    if !RoleToken(l) {
      WeightConcat([f] + mids, [l]);
      WeightConcat([f], mids);
      WeightOne(f);
      WeightOne(l);
    } else {
      BeginsWithOccurrence(x, p, mids);
    }
  }

  lemma BeginsWithOccurrence(x: string, p: Phrase, mids: seq<string>)
    requires Proper(p)
    ensures var joined := [x + p.first] + mids;
            if StripRoles(joined) == [] then x == "" else Weight(StripRoles(joined)) > |x|
  {
    var f := x + p.first;
    StripConcat([f], mids);
    assert StripRoles([f]) == if RoleToken(f) then [] else [f] by { assert [f][..0] == []; }
    WeightOne(f);
    WeightConcat([f], StripRoles(mids));
  }

  // ----- all occurrences of one phrase --------------------------------------------------------------------

  /** An occurrence begins before `n`. */
  predicate BeginsBefore(phrase: string, text: string, n: nat) {
    exists i | 0 <= i < n :: OccursAt(phrase, text, i)
  }

  lemma {:induction false} FirstOccurrence(phrase: string, text: string, i: nat) returns (j: nat)
    requires OccursAt(phrase, text, i)
    ensures j <= i && OccursAt(phrase, text, j) && NoneBefore(phrase, text, j)
  {
    if NoneBefore(phrase, text, i) {
      j := i;
    } else {
      var k :| 0 <= k < i && OccursAt(phrase, text, k);
      j := FirstOccurrence(phrase, text, k);
    }
  }

  /** The text around an occurrence: `a + x` before and `y + b` behind it. */
  datatype Around = Around(a: string, x: string, y: string, b: string)

  predicate Surrounds(r: Around, phrase: string, text: string, i: nat) {
    && text == (r.a + r.x) + phrase + (r.y + r.b) && |r.a + r.x| == i
    && EndsBlank(r.a) && ' ' !in r.x && ' ' !in r.y && StartsBlank(r.b)
  }

  lemma Surroundings(phrase: string, text: string, i: nat) returns (r: Around)
    requires OccursAt(phrase, text, i)
    ensures Surrounds(r, phrase, text, i)
  {
    var before, behind := text[..i], text[i + |phrase|..];
    assert text == before + phrase + behind;
    r := Cut(before, behind);
  }

  lemma Cut(before: string, behind: string) returns (r: Around)
    ensures r.a + r.x == before && r.y + r.b == behind
    ensures EndsBlank(r.a) && ' ' !in r.x && ' ' !in r.y && StartsBlank(r.b)
  {
    var s, k := WordStart(before), Texts.Find(behind, ' ');
    r := Around(before[..s], before[s..], behind[..k], behind[k..]);
  }

  /** Replacing every occurrence of a phrase: words joined by it part, and what the role
      suffix leaves gets no heavier; where an occurrence begins before its end, it gets
      lighter; and role tokens alone stay role tokens. */
  ghost predicate Lightens(p: Phrase, text: string)
    requires Word(p.first)
  {
    var t := Replaced(text, p.Text());
    && Weight(Kept(t)) <= Weight(Kept(text))
    && (Kept(text) == [] ==> Kept(t) == [])
    && (BeginsBefore(p.Text(), text, End(text)) ==> Weight(Kept(t)) < Weight(Kept(text)))
  }

  /** The same of the words of both texts: `u` those before the occurrence, `v` those of the
      text behind it once replaced. */
  lemma WordsLighten(a: seq<string>, x: string, p: Phrase, mids: seq<string>, y: string, b: seq<string>, v: seq<string>)
    requires Proper(p)
    requires Weight(StripRoles(v)) <= Weight(StripRoles(MaybeWord(y) + b)) && (StripRoles(MaybeWord(y) + b) == [] ==> StripRoles(v) == [])
    ensures var joined := [x + p.first] + mids + [p.last + y] + b;
            var before, now := StripRoles(a + joined), StripRoles(a + MaybeWord(x) + v);
            if StripRoles(joined) == [] then x == "" && before == now
            else Weight(now) < Weight(before) && before != []
  {
    var joined := [x + p.first] + mids + [p.last + y] + b;
    OccurrenceWeighs(x, p, mids, y, b);
    StripConcat(a, joined);
    StripConcat(a + MaybeWord(x), v);
    if StripRoles(joined) == [] {
      assert MaybeWord(y) + b == b && a + MaybeWord(x) == a;
    } else {
      WeightConcat(a, StripRoles(joined));
      WeightConcat(a + MaybeWord(x), StripRoles(v));
      WeightConcat(a, MaybeWord(x));
      WeightMaybe(x);
      StrippedIsLighter(a + MaybeWord(x));
    }
  }

  lemma {:induction false} ReplacingLightens(p: Phrase, text: string)
    requires Proper(p)
    ensures Lightens(p, text)
    decreases |text|
  {
    if i: nat :| OccursAt(p.Text(), text, i) {
      var j := FirstOccurrence(p.Text(), text, i);
      var r := Surroundings(p.Text(), text, j);
      ReplacingLightens(p, r.y + r.b);
      FirstLightens(p, text, j, r);
    } else {
      assert |p.Text()| >= 2;
      ReplacedShrinks(text, p.Text());
    }
  }

  lemma FirstLightens(p: Phrase, text: string, j: nat, r: Around)
    requires Proper(p) && Surrounds(r, p.Text(), text, j) && NoneBefore(p.Text(), text, j) && Lightens(p, r.y + r.b)
    ensures Lightens(p, text)
  {
    var rest := Replaced(r.y + r.b, p.Text());
    FirstOccurrenceGoes(r.a + r.x, p.Text(), r.y + r.b);
    WordsConcat(r.a + r.x, rest);
    WordsAfterBlank(r.a, r.x);
    WordsOfMaybe(r.x);
    WordsBeforeBlank(r.y, r.b);
    WordsOfMaybe(r.y);
    WordsOfOccurrence(r.a, r.x, p, r.y, r.b);
    WordsLighten(Words(r.a), r.x, p, Words(p.between), r.y, Words(r.b), Words(rest));
    if r.x == "" {
      EndByOccurrence(p, text, j, r);
    }
  }

  /** Where the occurrence and all behind it are role tokens, the words kept end before it. */
  lemma EndByOccurrence(p: Phrase, text: string, j: nat, r: Around)
    requires Proper(p) && Surrounds(r, p.Text(), text, j) && r.x == ""
    ensures StripRoles([r.x + p.first] + Words(p.between) + [p.last + r.y] + Words(r.b)) == [] ==> End(text) <= j
  {
    var joined := [r.x + p.first] + Words(p.between) + [p.last + r.y] + Words(r.b);
    if StripRoles(joined) == [] {
      var rest := p.Text() + (r.y + r.b);
      assert text == r.a + rest;
      WordsFromOccurrence(p, r.y, r.b);
      assert r.x + p.first == p.first;
      EndThrough(r.a, rest);
    }
  }

  lemma FromFirst(p: Phrase, y: string, b: string)
    ensures p.Text() + (y + b) == p.first + (p.between + ((p.last + y) + b))
  {
  }

  lemma WordsFromOccurrence(p: Phrase, y: string, b: string)
    requires Proper(p) && ' ' !in y && StartsBlank(b)
    ensures Words(p.Text() + (y + b)) == [p.first] + Words(p.between) + [p.last + y] + Words(b)
  {
    FromFirst(p, y, b);
    WordsFromFirst(p.first, p.between, p.last + y, b);
  }

  /** In a text of role tokens alone an occurrence begins where a word does. */
  lemma OccurrenceInRoles(p: Phrase, text: string, i: nat)
    requires Proper(p) && Kept(text) == [] && OccursAt(p.Text(), text, i)
    ensures EndsBlank(text[..i])
  {
    var r := Surroundings(p.Text(), text, i);
    WordsOfOccurrence(r.a, r.x, p, r.y, r.b);
    var joined := [r.x + p.first] + Words(p.between) + [p.last + r.y] + Words(r.b);
    StripConcat(Words(r.a), joined);
    OccurrenceWeighs(r.x, p, Words(p.between), r.y, Words(r.b));
    assert text[..i] == r.a + r.x == r.a;
  }

  // ----- behind the words kept -------------------------------------------------------------------------------

  /** Where nothing begins before `head` is over, replacing goes on behind it. */
  lemma {:induction false} ReplacedBehind(head: string, tail: string, phrase: string)
    requires phrase != "" && NoneBefore(phrase, head + tail, |head|)
    ensures Replaced(head + tail, phrase) == head + Replaced(tail, phrase)
  {
    if head == "" {
      assert head + tail == tail && head + Replaced(tail, phrase) == Replaced(tail, phrase);
    } else {
      var c, rest := head[0], head[1..] + tail;
      HeadApart(head, tail);
      HeadApart(head, Replaced(tail, phrase));
      assert !OccursAt(phrase, [c] + rest, 0);
      forall j | 0 <= j < |head[1..]| ensures !OccursAt(phrase, rest, j) {
        OccursBehind(phrase, c, rest, j);
      }
      ReplacedBehind(head[1..], tail, phrase);
      ReplacedStep(c, rest, phrase);
    }
  }

  lemma HeadApart(head: string, tail: string)
    requires head != ""
    ensures head + tail == [head[0]] + (head[1..] + tail)
  {
  }

  lemma OccursBehind(phrase: string, c: char, rest: string, j: nat)
    ensures OccursAt(phrase, rest, j) <==> OccursAt(phrase, [c] + rest, j + 1)
  {
    assert ([c] + rest)[1..] == rest;
    OccursShift(phrase, [c] + rest, j);
  }

  /** A tail of role tokens stays one, and still begins blank. */
  lemma TailStays(p: Phrase, tail: string)
    requires Proper(p) && Kept(tail) == []
    ensures Kept(Replaced(tail, p.Text())) == []
    ensures StartsBlank(tail) ==> StartsBlank(Replaced(tail, p.Text()))
  {
    ReplacingLightens(p, tail);
    if tail != "" && tail[0] == ' ' {
      assert p.Text()[0] == p.first[0] != ' ';
      assert !OccursAt(p.Text(), tail, 0);
      assert tail == [tail[0]] + tail[1..];
      ReplacedStep(tail[0], tail[1..], p.Text());
    }
  }

  /** A phrase that does not begin before the end of the words kept takes nothing from them. */
  lemma BehindTheEnd(p: Phrase, head: string, tail: string)
    requires Proper(p) && Apart(head, tail) && NoneBefore(p.Text(), head + tail, |head|)
    ensures var tail' := Replaced(tail, p.Text());
            Replaced(head + tail, p.Text()) == head + tail' && Apart(head, tail') && End(head + tail') == |head|
  {
    ReplacedBehind(head, tail, p.Text());
    TailStays(p, tail);
    EndThrough(head, Replaced(tail, p.Text()));
  }

  /** The word behind the blank at `k` does not begin like `phrase`. */
  predicate UnlikeAt(phrase: string, other: string, k: nat)
    requires |phrase| >= 2
  {
    k + 2 < |other| && other[k + 1] != ' ' && !(other[k + 1] == phrase[0] && other[k + 2] == phrase[1])
  }

  /** No inner word of a phrase begins like another phrase. */
  predicate Unlike(phrase: string, other: string) {
    |phrase| >= 2 && forall k | 0 <= k < |other| && other[k] == ' ' :: UnlikeAt(phrase, other, k)
  }

  lemma FirstLetters(j: nat)
    requires j < |PHRASES|
    ensures var p := PHRASES[j];
            |p| >= 2 && ((p[0] == 't' && p[1] == 'h') || (p[0] == 'c' && p[1] == 'h') || (p[0] == 'k' && p[1] == 'h') || (p[0] == 'n' && p[1] == 'g'))
  {
  }

  lemma InnerWords(other: string, k: nat)
    requires other == "thanh vien" || other == "chu so huu" || other == "khach truy cap" || other == "nguoi truy cap"
    requires k < |other| && other[k] == ' '
    ensures k + 2 < |other| && (other[k + 1] == 'v' || other[k + 1] == 's' || (other[k + 1] == 'h' && other[k + 2] == 'u') ||
                                (other[k + 1] == 't' && other[k + 2] == 'r') || (other[k + 1] == 'c' && other[k + 2] == 'a'))
  {
  }

  lemma PhrasesAreUnlike(j: nat, k: nat)
    requires j < |PHRASES| && k < |PHRASES|
    ensures Unlike(PHRASES[j], PHRASES[k])
  {
    var phrase, other := PHRASES[j], PHRASES[k];
    FirstLetters(j);
    forall i | 0 <= i < |other| && other[i] == ' ' ensures UnlikeAt(phrase, other, i) {
      InnerWords(other, i);
    }
  }

  /** Where the phrase first occurs behind `a`, replacing it does not change whether the text
      begins with the rest of another phrase. */
  lemma BeginningAt(p: Phrase, other: string, m: nat, a: string, b: string)
    requires Proper(p) && Unlike(p.Text(), other) && 0 < m < |other| && a != "" && EndsBlank(a)
    requires NoneBefore(p.Text(), a + p.Text() + b, |a|)
    ensures other[m..] <= a + p.Text() + b <==> other[m..] <= Replaced(a + p.Text() + b, p.Text())
  {
    FirstOccurrenceGoes(a, p.Text(), b);
    if |a| >= |other| - m {
      LongerBeginning(other[m..], a, p.Text() + b, " " + Replaced(b, p.Text()));
      assert a + (p.Text() + b) == a + p.Text() + b && a + (" " + Replaced(b, p.Text())) == a + " " + Replaced(b, p.Text());
    } else {
      NoSuchBeginning(p, other, m, a, b, Replaced(b, p.Text()));
    }
  }

  /** An occurrence in a role tail stands behind a blank. */
  lemma InTail(p: Phrase, tail: string, j: nat) returns (a: string, b: string)
    requires Proper(p) && Kept(tail) == [] && StartsBlank(tail) && OccursAt(p.Text(), tail, j)
    ensures tail == a + p.Text() + b && |a| == j && a != "" && EndsBlank(a)
  {
    a, b := tail[..j], tail[j + |p.Text()|..];
    OccurrenceInRoles(p, tail, j);
    assert tail == a + p.Text() + b;
    assert p.Text()[0] == p.first[0] != ' ';
  }

  /** The first letters of a role tail decide alike, before and after replacing, whether they
      are the rest of a phrase. */
  lemma SameBeginning(p: Phrase, other: string, m: nat, tail: string)
    requires Proper(p) && Unlike(p.Text(), other) && 0 < m < |other| && Kept(tail) == [] && StartsBlank(tail)
    ensures other[m..] <= tail <==> other[m..] <= Replaced(tail, p.Text())
  {
    if i: nat :| OccursAt(p.Text(), tail, i) {
      var j := FirstOccurrence(p.Text(), tail, i);
      var a, b := InTail(p, tail, j);
      BeginningAt(p, other, m, a, b);
    } else {
      assert |p.Text()| >= 2;
      ReplacedShrinks(tail, p.Text());
    }
  }

  lemma LongerBeginning(rest: string, a: string, x: string, y: string)
    requires |rest| <= |a|
    ensures rest <= a + x <==> rest <= a + y
  {
  }

  /** The rest of a phrase reaches neither into an occurrence nor into the blanks it leaves. */
  lemma NoSuchBeginning(p: Phrase, other: string, m: nat, a: string, b: string, replaced: string)
    requires Proper(p) && Unlike(p.Text(), other) && 0 < m < |other| && a != "" && EndsBlank(a) && |a| < |other| - m
    ensures !(other[m..] <= a + p.Text() + b) && !(other[m..] <= a + " " + replaced)
  {
    var k := m + |a| - 1;
    assert other[k] == other[m..][|a| - 1] && other[k + 1] == other[m..][|a|];
    if other[k] == ' ' {
      assert UnlikeAt(p.Text(), other, k) && other[k + 2] == other[m..][|a| + 1];
    }
  }

  /** A phrase begins before the end of `head` whatever role tail follows, or not at all. */
  lemma SameOccurrence(p: Phrase, other: string, head: string, tail: string, i: nat)
    requires Proper(p) && Unlike(p.Text(), other) && Kept(tail) == [] && StartsBlank(tail) && i < |head| && other != ""
    ensures OccursAt(other, head + tail, i) <==> OccursAt(other, head + Replaced(tail, p.Text()), i)
  {
    var tail' := Replaced(tail, p.Text());
    var m := |head| - i;
    if m < |other| {
      SameBeginning(p, other, m, tail);
      OccursAcross(other, head, tail, i, m);
      OccursAcross(other, head, tail', i, m);
    } else {
      assert (head + tail)[i..i + |other|] == head[i..i + |other|] == (head + tail')[i..i + |other|];
    }
  }

  lemma OccursAcross(other: string, head: string, tail: string, i: nat, m: nat)
    requires i < |head| && m == |head| - i && m < |other|
    ensures OccursAt(other, head + tail, i) <==> head[i..] == other[..m] && other[m..] <= tail
  {
    var text := head + tail;
    if i + |other| <= |text| {
      var part := text[i..i + |other|];
      assert part[..m] == head[i..] && part[m..] == tail[..|other| - m];
      assert part == part[..m] + part[m..] && other == other[..m] + other[m..];
    }
  }

  // ----- all phrases ---------------------------------------------------------------------------------------------

  /** No phrase among the first `k` begins before the end of the words kept. */
  predicate SuffixHolds(text: string, k: nat)
    requires k <= |PHRASES|
  {
    forall j | 0 <= j < k :: !BeginsBefore(PHRASES[j], text, End(text))
  }

  /** One text behaves like another: the same words are kept, and the same phrases begin
      before they end. */
  predicate Alike(text: string, other: string) {
    && Kept(other) == Kept(text)
    && forall j | 0 <= j < |PHRASES| :: BeginsBefore(PHRASES[j], other, End(other)) == BeginsBefore(PHRASES[j], text, End(text))
  }

  lemma SamePhrases(p: Phrase, j: nat, head: string, tail: string)
    requires Proper(p) && j < |PHRASES| && Unlike(p.Text(), PHRASES[j]) && Kept(tail) == [] && (StartsBlank(tail) || head == "")
    ensures BeginsBefore(PHRASES[j], head + tail, |head|) == BeginsBefore(PHRASES[j], head + Replaced(tail, p.Text()), |head|)
  {
    assert PHRASES[j] != "";
    forall i | 0 <= i < |head|
      ensures OccursAt(PHRASES[j], head + tail, i) <==> OccursAt(PHRASES[j], head + Replaced(tail, p.Text()), i)
    {
      SameOccurrence(p, PHRASES[j], head, tail, i);
    }
  }

  /** The same phrases begin before the head is over, whatever role tail follows. */
  lemma SameForAll(p: Phrase, k: nat, head: string, tail: string)
    requires k < |PHRASES| && p == PhraseAt(k) && Kept(tail) == [] && (StartsBlank(tail) || head == "")
    ensures forall j | 0 <= j < |PHRASES| ::
              BeginsBefore(PHRASES[j], head + Replaced(tail, p.Text()), |head|) == BeginsBefore(PHRASES[j], head + tail, |head|)
  {
    PhrasesAreProper(k);
    forall j | 0 <= j < |PHRASES|
      ensures BeginsBefore(PHRASES[j], head + Replaced(tail, p.Text()), |head|) == BeginsBefore(PHRASES[j], head + tail, |head|)
    {
      PhrasesAreUnlike(k, j);
      SamePhrases(p, j, head, tail);
    }
  }

  lemma AlikeParts(text: string, other: string, head: string, tail: string, tail': string)
    requires text == head + tail && other == head + tail' && Apart(head, tail) && Apart(head, tail')
    requires End(text) == |head| == End(other)
    requires forall j | 0 <= j < |PHRASES| :: BeginsBefore(PHRASES[j], other, |head|) == BeginsBefore(PHRASES[j], text, |head|)
    ensures Alike(text, other)
  {
    KeptHead(head, tail);
    KeptHead(head, tail');
  }

  lemma QuietParts(text: string, k: nat, p: Phrase, head: string, tail: string)
    requires k < |PHRASES| && p == PhraseAt(k) && text == head + tail && Apart(head, tail) && End(text) == |head|
    requires NoneBefore(p.Text(), text, |head|)
    ensures p.Text() != "" && Alike(text, Replaced(text, p.Text()))
  {
    PhrasesAreProper(k);
    BehindTheEnd(p, head, tail);
    SameForAll(p, k, head, tail);
    AlikeParts(text, Replaced(text, p.Text()), head, tail, Replaced(tail, p.Text()));
  }

  lemma Halves(text: string) returns (head: string, tail: string)
    ensures text == head + tail && |head| == End(text) && Apart(head, tail)
  {
    EndParts(text);
    head, tail := text[..End(text)], text[End(text)..];
  }

  lemma NotBefore(phrase: string, text: string, n: nat)
    requires !BeginsBefore(phrase, text, n)
    ensures NoneBefore(phrase, text, n)
  {
  }

  /** A phrase that does not begin before the end of the words kept leaves a text alike. */
  lemma QuietPhrase(text: string, k: nat)
    requires k < |PHRASES| && !BeginsBefore(PHRASES[k], text, End(text)) && PHRASES[k] != ""
    ensures Alike(text, Replaced(text, PHRASES[k]))
  {
    PhrasesAreProper(k);
    var head, tail := Halves(text);
    NotBefore(PHRASES[k], text, |head|);
    QuietParts(text, k, PhraseAt(k), head, tail);
  }

  lemma {:induction false} BlankedStaysAlike(text: string, k: nat)
    requires k <= |PHRASES| && SuffixHolds(text, k)
    ensures Alike(text, Blanked(text, k))
  {
    if k > 0 {
      BlankedStaysAlike(text, k - 1);
      assert !BeginsBefore(PHRASES[k - 1], text, End(text));
      assert PHRASES[k - 1] != "";
      QuietPhrase(Blanked(text, k - 1), k - 1);
    }
  }

  lemma LoudPhrase(text: string, k: nat)
    requires k < |PHRASES| && PHRASES[k] != ""
    ensures Weight(Kept(Replaced(text, PHRASES[k]))) <= Weight(Kept(text))
    ensures BeginsBefore(PHRASES[k], text, End(text)) ==> Weight(Kept(Replaced(text, PHRASES[k]))) < Weight(Kept(text))
  {
    PhrasesAreProper(k);
    ReplacingLightens(PhraseAt(k), text);
  }

  lemma OnePhraseMore(text: string, k: nat)
    requires 0 < k <= |PHRASES|
    ensures SuffixHolds(text, k) <==> SuffixHolds(text, k - 1) && !BeginsBefore(PHRASES[k - 1], text, End(text))
  {
  }

  lemma {:induction false} BlankedGetsLighter(text: string, k: nat)
    requires k <= |PHRASES|
    ensures Weight(Kept(Blanked(text, k))) <= Weight(Kept(text))
    ensures !SuffixHolds(text, k) ==> Weight(Kept(Blanked(text, k))) < Weight(Kept(text))
  {
    if k > 0 {
      BlankedGetsLighter(text, k - 1);
      assert PHRASES[k - 1] != "";
      OnePhraseMore(text, k);
      if SuffixHolds(text, k - 1) {
        BlankedStaysAlike(text, k - 1);
      }
      LoudPhrase(Blanked(text, k - 1), k - 1);
    }
  }

  /** Normalising takes no more than the role suffix and the department words exactly when no
      role phrase begins before the end of the last word that the role suffix leaves. */
  lemma OnlySuffixGoesIff(text: string)
    ensures GroupName(text) == SuffixOnly(text) <==> SuffixHolds(text, |PHRASES|)
  {
    if SuffixHolds(text, |PHRASES|) {
      BlankedStaysAlike(text, |PHRASES|);
    } else {
      BlankedGetsLighter(text, |PHRASES|);
      WeightWithoutDepartments(Kept(text));
      WeightWithoutDepartments(Kept(Blanked(text, |PHRASES|)));
    }
  }

  // ----- the documented names ---------------------------------------------------------------------------------------

  lemma LettersOfOccurrences(phrase: string, text: string)
    requires |phrase| >= 3
    ensures forall i: nat | OccursAt(phrase, text, i) ::
              i + 2 < |text| && text[i] == phrase[0] && text[i + 1] == phrase[1] && text[i + 2] == phrase[2]
  {
    forall i: nat | OccursAt(phrase, text, i)
      ensures i + 2 < |text| && text[i] == phrase[0] && text[i + 1] == phrase[1] && text[i + 2] == phrase[2]
    {
      assert text[i..i + |phrase|][0] == phrase[0] && text[i..i + |phrase|][1] == phrase[1] && text[i..i + |phrase|][2] == phrase[2];
    }
  }

  lemma NoPhraseInMembers()
    ensures forall j | 0 <= j < |PHRASES| :: !Occurs(PHRASES[j], "nhan su members")
  {
    forall j | 0 <= j < |PHRASES| ensures !Occurs(PHRASES[j], "nhan su members") {
      FirstLetters(j);
    }
  }

  lemma NoPhraseInOwners()
    ensures forall j | 0 <= j < |PHRASES| :: !Occurs(PHRASES[j], "phong nhan su owners")
  {
    forall j | 0 <= j < |PHRASES| ensures !Occurs(PHRASES[j], "phong nhan su owners") {
      FirstLetters(j);
      assert |PHRASES[j]| >= 3 && (PHRASES[j][0] == 'n' ==> PHRASES[j][2] == 'u');
      LettersOfOccurrences(PHRASES[j], "phong nhan su owners");
    }
  }

  lemma RoleBehindTwo(a: string, b: string, role: string)
    requires Word(a) && Word(b) && Word(role) && RoleToken(role) && !RoleToken(b) && !DepartmentWord(a) && !DepartmentWord(b)
    ensures SuffixOnly(a + " " + b + " " + role) == [a] + [b]
  {
    TwoAndOne(a, b, role);
    StripConcat([a] + [b], [role]);
    RoleGoes([], role);
    assert [] + [role] == [role];
    StripStops([a], b);
    NoneDropped([a] + [b]);
  }

  lemma DepartmentBeforeTwo(d: string, a: string, b: string, role: string)
    requires Word(d) && Word(a) && Word(b) && Word(role) && RoleToken(role) && !RoleToken(b)
    requires DepartmentWord(d) && !DepartmentWord(a) && !DepartmentWord(b)
    ensures SuffixOnly(d + " " + (a + " " + b + " " + role)) == [a] + [b]
  {
    OneWord(d);
    WordsConcat(d, a + " " + b + " " + role);
    TwoAndOne(a, b, role);
    StripConcat([d], [a] + [b] + [role]);
    StripConcat([a] + [b], [role]);
    RoleGoes([], role);
    assert [] + [role] == [role];
    StripStops([a], b);
    DropFirst(d, a, b);
  }

  lemma DropFirst(d: string, a: string, b: string)
    requires DepartmentWord(d) && !DepartmentWord(a) && !DepartmentWord(b)
    ensures WithoutDepartmentWords([d] + ([a] + [b])) == [a] + [b]
  {
    var words := [d] + ([a] + [b]);
    assert words[..2] == [d] + [a] && ([d] + [a])[..1] == [d] && [d][..0] == [];
    assert WithoutDepartmentWords([d]) == [];
    assert WithoutDepartmentWords([d] + [a]) == [] + [a] == [a];
  }

  lemma ExampleTokens(a: string, b: string, members: string, owners: string, d: string)
    requires a == "nhan" && b == "su" && members == "members" && owners == "owners" && d == "phong"
    ensures Word(a) && Word(b) && Word(members) && Word(owners) && Word(d)
    ensures RoleToken(members) && RoleToken(owners) && !RoleToken(b) && DepartmentWord(d) && !DepartmentWord(a) && !DepartmentWord(b)
  {
  }

  lemma ExampleTexts(a: string, b: string, members: string, owners: string, d: string)
    requires a == "nhan" && b == "su" && members == "members" && owners == "owners" && d == "phong"
    ensures a + " " + b + " " + members == "nhan su members" && d + " " + (a + " " + b + " " + owners) == "phong nhan su owners"
  {
  }

  lemma NamesOfExamples(a: string, b: string, members: string, owners: string, d: string)
    requires a == "nhan" && b == "su" && members == "members" && owners == "owners" && d == "phong"
    ensures SuffixOnly("nhan su members") == [a] + [b] && SuffixOnly("phong nhan su owners") == [a] + [b]
  {
    ExampleTokens(a, b, members, owners, d);
    ExampleTexts(a, b, members, owners, d);
    RoleBehindTwo(a, b, members);
    DepartmentBeforeTwo(d, a, b, owners);
  }

  /** Both documented names stand for the department "nhan su". */
  lemma DocumentedNames()
    ensures GroupName("nhan su members") == ["nhan"] + ["su"] && GroupName("phong nhan su owners") == ["nhan"] + ["su"]
  {
    NoPhraseInMembers();
    NoPhraseInOwners();
    SuffixOnlyWithoutPhrases("nhan su members");
    SuffixOnlyWithoutPhrases("phong nhan su owners");
    NamesOfExamples("nhan", "su", "members", "owners", "phong");
  }
}
