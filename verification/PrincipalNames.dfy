/** Names and addresses a provider principal carries: the loops over local lists that
    matching rests on. */
module PrincipalNames {
  import opened Lists
  import opened Options

  // ----- e-mail addresses -----------------------------------------------------------------

  /** `rsplit("|", 1)[-1]`. */
  function AfterLastBar(s: string): string {
    if s == "" || s[|s| - 1] == '|' then "" else AfterLastBar(s[..|s| - 1]) + [s[|s| - 1]]
  }

  /** The raw texts in the order they are read: e-mail, login, id, display name. */
  datatype Carried = Carried(email: string, login: string, id: string, name: string)

  function Texts(c: Carried): seq<string> { [c.email, AfterLastBar(c.login), c.id, c.name] }

  /** Every address found, text by text. `find` is the e-mail pattern with lower-casing. */
  function Found(find: string -> seq<string>, texts: seq<string>): seq<string> {
    if texts == [] then []
    else
      var last := texts[|texts| - 1];
      Found(find, texts[..|texts| - 1]) + if last == "" then [] else find(last)
  }

  /** `emails_of`: the addresses found, best source first, each once. */
  method EmailsOf(find: string -> seq<string>, c: Carried) returns (found: seq<string>)
    ensures found == Firsts(Found(find, Texts(c)))
  {
    found := [];
    var texts := Texts(c);
    for i := 0 to |texts|
      invariant found == Firsts(Found(find, texts[..i]))
    {
      assert texts[..i + 1][..i] == texts[..i];
      ghost var before := Found(find, texts[..i]);
      assert before + [] == before;
      if texts[i] != "" {
        var addresses := find(texts[i]);
        for k := 0 to |addresses|
          invariant found == Firsts(before + addresses[..k])
        {
          FirstsGrows(before, addresses, k);
          if addresses[k] !in found {
            found := found + [addresses[k]];
          }
        }
        assert addresses[..|addresses|] == addresses;
      }
    }
    assert texts[..|texts|] == texts;
  }

  /** The login is read behind its last bar. */
  lemma {:induction false} BehindTheLastBar(s: string)
    ensures '|' !in AfterLastBar(s)
    ensures if '|' in s then |AfterLastBar(s)| < |s| && s == s[..|s| - |AfterLastBar(s)| - 1] + "|" + AfterLastBar(s) else AfterLastBar(s) == s
  {
    if s != "" {
      var n := |s| - 1;
      assert s == s[..n] + [s[n]];
      if s[n] != '|' {
        BehindTheLastBar(s[..n]);
        if '|' in s[..n] {
          var k := |s[..n]| - |AfterLastBar(s[..n])| - 1;
          assert s[..n][..k] == s[..k];
        }
      }
    }
  }

  /** The addresses of one text; an empty one is not searched. */
  function AddressesIn(find: string -> seq<string>, text: string): seq<string> { if text == "" then [] else find(text) }

  /** The sources in their order: the e-mail, the login, the id, the display name. */
  lemma SourcesInOrder(find: string -> seq<string>, c: Carried)
    ensures Found(find, Texts(c)) ==
            AddressesIn(find, c.email) + AddressesIn(find, AfterLastBar(c.login)) + AddressesIn(find, c.id) + AddressesIn(find, c.name)
  {
    var t := Texts(c);
    assert t[..3][..2] == t[..2] && t[..2][..1] == t[..1] && t[..1][..0] == [];
    assert Found(find, t[..1]) == [] + AddressesIn(find, c.email) == AddressesIn(find, c.email);
    assert Found(find, t[..2]) == Found(find, t[..1]) + AddressesIn(find, AfterLastBar(c.login));
    assert Found(find, t[..3]) == Found(find, t[..2]) + AddressesIn(find, c.id);
  }

  /** Each address stands where it is first found. */
  lemma {:induction false} FirstFindsInOrder(found: seq<string>, k: nat) returns (i: nat)
    requires k < |Firsts(found)|
    ensures i < |found| && found[i] == Firsts(found)[k] && found[i] !in found[..i] && |Firsts(found[..i])| == k
  {
    var n := |found| - 1;
    if k < |Firsts(found[..n])| {
      i := FirstFindsInOrder(found[..n], k);
      assert found[..n][..i] == found[..i];
    } else {
      i := n;
      FirstsKeepsMembers(found[..n], found[n]);
    }
  }

  // ----- group names ----------------------------------------------------------------------------

  predicate RoleToken(t: string) {
    t in ["members", "member", "owners", "owner", "visitors", "visitor", "thanh", "vien", "chu", "so", "huu", "khach"]
  }

  predicate DepartmentWord(t: string) {
    t in ["phong", "ban", "bo", "phan", "department", "dept", "team", "group", "nhom", "division"]
  }

  /** The role phrases, in the order they are replaced. */
  const PHRASES: seq<string> := ["thanh vien", "chu so huu", "khach truy cap", "nguoi truy cap"]

  predicate OccursAt(phrase: string, text: string, i: nat) {
    i + |phrase| <= |text| && text[i..i + |phrase|] == phrase
  }

  predicate Occurs(phrase: string, text: string) {
    exists i | 0 <= i < |text| :: OccursAt(phrase, text, i)
  }

  /** `text.replace(phrase, " ")`: from the left, without overlaps. */
  function Replaced(text: string, phrase: string): string
    requires phrase != ""
  {
    if text == "" then ""
    else if OccursAt(phrase, text, 0) then " " + Replaced(text[|phrase|..], phrase)
    else [text[0]] + Replaced(text[1..], phrase)
  }

  /** The text once the first `k` phrases are replaced. */
  function Blanked(text: string, k: nat): string
    requires k <= |PHRASES|
  {
    if k == 0 then text else Replaced(Blanked(text, k - 1), PHRASES[k - 1])
  }

  /** The words so far once `c` is read; it starts a new one after a space. */
  function Grow(words: seq<string>, starts: bool, c: char): seq<string>
    requires starts || words != []
  {
    if c == ' ' then words
    else if starts then words + [[c]]
    else words[..|words| - 1] + [words[|words| - 1] + [c]]
  }

  /** `split()`; a folded name has no white space but single spaces. */
  function Words(text: string): (words: seq<string>)
    ensures text != "" && text[|text| - 1] != ' ' ==> words != []
  {
    if text == "" then []
    else
      var n := |text| - 1;
      Grow(Words(text[..n]), n == 0 || text[n - 1] == ' ', text[n])
  }

  lemma OccursShift(phrase: string, text: string, j: nat)
    requires text != ""
    ensures OccursAt(phrase, text[1..], j) <==> OccursAt(phrase, text, j + 1)
  {
    if j + 1 + |phrase| <= |text| {
      assert text[1..][j..j + |phrase|] == text[j + 1..j + 1 + |phrase|];
    }
  }

  /** No occurrence of the phrase begins before `i`. */
  predicate NoneBefore(phrase: string, text: string, i: nat) {
    forall j | 0 <= j < i :: !OccursAt(phrase, text, j)
  }

  lemma ReplacedStep(c: char, rest: string, phrase: string)
    requires phrase != "" && !OccursAt(phrase, [c] + rest, 0)
    ensures Replaced([c] + rest, phrase) == [c] + Replaced(rest, phrase)
  {
    assert ([c] + rest)[1..] == rest;
  }

  lemma ReplacedStart(phrase: string, b: string)
    requires phrase != ""
    ensures Replaced(phrase + b, phrase) == " " + Replaced(b, phrase)
  {
    assert (phrase + b)[|phrase|..] == b && OccursAt(phrase, phrase + b, 0);
  }

  /** The first occurrence of a phrase parts what stands before it from what follows. */
  lemma {:induction false} FirstOccurrenceGoes(a: string, phrase: string, b: string)
    requires phrase != "" && NoneBefore(phrase, a + phrase + b, |a|)
    ensures Replaced(a + phrase + b, phrase) == a + " " + Replaced(b, phrase)
  {
    if a == "" {
      assert a + phrase + b == phrase + b && a + " " == " ";
      ReplacedStart(phrase, b);
    } else {
      var rest := a[1..] + phrase + b;
      assert a + phrase + b == [a[0]] + rest && ([a[0]] + rest)[1..] == rest;
      assert !OccursAt(phrase, [a[0]] + rest, 0);
      forall j | 0 <= j < |a[1..]| ensures !OccursAt(phrase, rest, j) {
        OccursShift(phrase, [a[0]] + rest, j);
      }
      FirstOccurrenceGoes(a[1..], phrase, b);
      ReplacedStep(a[0], rest, phrase);
      assert [a[0]] + (a[1..] + " " + Replaced(b, phrase)) == a + " " + Replaced(b, phrase);
    }
  }

  /** Replacing never lengthens a text, and keeps the length only where nothing occurs. */
  lemma {:induction false} ReplacedShrinks(text: string, phrase: string)
    requires |phrase| >= 2
    ensures |Replaced(text, phrase)| <= |text|
    ensures !Occurs(phrase, text) ==> Replaced(text, phrase) == text
    ensures Occurs(phrase, text) ==> |Replaced(text, phrase)| < |text|
  {
    if text != "" {
      if OccursAt(phrase, text, 0) {
        ReplacedShrinks(text[|phrase|..], phrase);
      } else {
        ReplacedShrinks(text[1..], phrase);
        OccursLater(text, phrase);
      }
    }
  }

  lemma OccursLater(text: string, phrase: string)
    requires text != "" && |phrase| >= 2 && !OccursAt(phrase, text, 0)
    ensures Occurs(phrase, text) <==> Occurs(phrase, text[1..])
  {
    if Occurs(phrase, text) {
      var i :| 0 <= i < |text| && OccursAt(phrase, text, i);
      OccursShift(phrase, text, i - 1);
    } else if Occurs(phrase, text[1..]) {
      var i :| 0 <= i < |text[1..]| && OccursAt(phrase, text[1..], i);
      OccursShift(phrase, text, i);
    }
  }

  lemma {:induction false} BlankedSoFar(text: string, k: nat)
    requires k <= |PHRASES|
    ensures |Blanked(text, k)| <= |text|
    ensures Blanked(text, k) == text <==> forall j | 0 <= j < k :: !Occurs(PHRASES[j], text)
    ensures Blanked(text, k) != text ==> |Blanked(text, k)| < |text|
  {
    if k > 0 {
      BlankedSoFar(text, k - 1);
      assert |PHRASES[k - 1]| >= 2;
      ReplacedShrinks(Blanked(text, k - 1), PHRASES[k - 1]);
    }
  }

  /** The phrases are not confined to the end: they change a name exactly when one of them
      occurs anywhere in it, inside words too. */
  lemma BlankedIff(text: string)
    ensures Blanked(text, |PHRASES|) == text <==> forall j | 0 <= j < |PHRASES| :: !Occurs(PHRASES[j], text)
  {
    BlankedSoFar(text, |PHRASES|);
  }

  /** What is left after the role suffix. */
  function StripRoles(tokens: seq<string>): seq<string> {
    if tokens != [] && RoleToken(tokens[|tokens| - 1]) then StripRoles(tokens[..|tokens| - 1]) else tokens
  }

  function WithoutDepartmentWords(tokens: seq<string>): seq<string> {
    if tokens == [] then []
    else
      var before := WithoutDepartmentWords(tokens[..|tokens| - 1]);
      if DepartmentWord(tokens[|tokens| - 1]) then before else before + [tokens[|tokens| - 1]]
  }

  /** The tokens of a normalised group name; joined by spaces they are the name. */
  function GroupName(text: string): seq<string> {
    WithoutDepartmentWords(StripRoles(Words(Blanked(text, |PHRASES|))))
  }

  /** The same if only a role suffix at the end were removed. */
  function SuffixOnly(text: string): seq<string> {
    WithoutDepartmentWords(StripRoles(Words(text)))
  }

  lemma WordsStep(before: string, c: char)
    ensures Words(before + [c]) == Grow(Words(before), before == "" || before[|before| - 1] == ' ', c)
  {
    var text := before + [c];
    assert text[..|text| - 1] == before;
  }

  lemma {:induction false} WordsConcat(a: string, b: string)
    ensures Words(a + " " + b) == Words(a) + Words(b)
  {
    if b == "" {
      assert a + " " + b == a + [' '];
      WordsStep(a, ' ');
    } else {
      var m := |b| - 1;
      WordsConcat(a, b[..m]);
      WordsStep(a + " " + b[..m], b[m]);
      WordsStep(b[..m], b[m]);
      LastLetter(a, b);
      GrowConcat(Words(a), Words(b[..m]), m == 0 || b[m - 1] == ' ', b[m]);
    }
  }

  lemma LastLetter(a: string, b: string)
    requires b != ""
    ensures var before, last := b[..|b| - 1], b[|b| - 1];
            && before + [last] == b && a + " " + before + [last] == a + " " + b
            && (a + " " + before)[|a + " " + before| - 1] == if before == "" then ' ' else before[|before| - 1]
  {
  }

  lemma GrowConcat(x: seq<string>, y: seq<string>, starts: bool, c: char)
    requires starts || y != []
    ensures Grow(x + y, starts, c) == x + Grow(y, starts, c)
  {
    assert x + y + [[c]] == x + (y + [[c]]);
  }

  predicate Word(w: string) { w != "" && ' ' !in w }

  lemma {:induction false} OneWord(w: string)
    requires Word(w)
    ensures Words(w) == [w]
  {
    var n := |w| - 1;
    if n > 0 {
      OneWord(w[..n]);
      assert w[..n] + [w[n]] == w;
    } else {
      assert w == [w[0]];
    }
  }

  /** A text with no space but at its start holds no phrase. */
  lemma NoPhraseInWord(w: string, spaces: nat)
    requires Word(w) && spaces <= 2
    ensures forall j | 0 <= j < |PHRASES| :: !Occurs(PHRASES[j], seq(spaces, _ => ' ') + w)
  {
    var text := seq(spaces, _ => ' ') + w;
    forall j | 0 <= j < |PHRASES| ensures !Occurs(PHRASES[j], text) {
      var gap := if j == 0 || j == 2 || j == 3 then 5 else 3;
      assert PHRASES[j][0] != ' ' && PHRASES[j][gap] == ' ';
      forall i | 0 <= i < |text| ensures !OccursAt(PHRASES[j], text, i) {
      }
    }
  }

  lemma BlankedStart(w: string)
    requires Word(w)
    ensures Blanked("thanh vien" + " " + w, |PHRASES|) == "  " + w
  {
    var text := "thanh vien" + " " + w;
    FirstPhraseGoes(w);
    assert seq(2, _ => ' ') + w == "  " + w;
    NoPhraseInWord(w, 2);
    assert Blanked(text, 1) == "  " + w;
    StaysBlanked(text, "  " + w, |PHRASES|);
  }

  lemma FirstPhraseGoes(w: string)
    requires Word(w)
    ensures Replaced("thanh vien" + " " + w, PHRASES[0]) == "  " + w
  {
    var phrase, text := PHRASES[0], "thanh vien" + " " + w;
    assert phrase == "thanh vien" && OccursAt(phrase, text, 0) && text[|phrase|..] == " " + w;
    assert seq(1, _ => ' ') + w == " " + w && " " + (" " + w) == "  " + w;
    NoPhraseInWord(w, 1);
    ReplacedShrinks(" " + w, phrase);
  }

  lemma {:induction false} StaysBlanked(text: string, rest: string, k: nat)
    requires 1 <= k <= |PHRASES| && Blanked(text, 1) == rest && forall j | 0 <= j < |PHRASES| :: !Occurs(PHRASES[j], rest)
    ensures Blanked(text, k) == rest
  {
    if k > 1 {
      StaysBlanked(text, rest, k - 1);
      assert !Occurs(PHRASES[k - 1], rest) && |PHRASES[k - 1]| >= 2;
      ReplacedShrinks(rest, PHRASES[k - 1]);
    }
  }

  /** Where no token is a department word and the last is no role, nothing goes. */
  lemma {:induction false} TokensStay(tokens: seq<string>)
    requires tokens != [] ==> !RoleToken(tokens[|tokens| - 1])
    requires forall i | 0 <= i < |tokens| :: !DepartmentWord(tokens[i])
    ensures WithoutDepartmentWords(StripRoles(tokens)) == tokens
  {
    NoneDropped(tokens);
  }

  lemma {:induction false} NoneDropped(tokens: seq<string>)
    requires forall i | 0 <= i < |tokens| :: !DepartmentWord(tokens[i])
    ensures WithoutDepartmentWords(tokens) == tokens
  {
    if tokens != [] {
      NoneDropped(tokens[..|tokens| - 1]);
    }
  }

  lemma TwoAndOne(a: string, b: string, w: string)
    requires Word(a) && Word(b) && Word(w)
    ensures Words(a + " " + b + " " + w) == [a] + [b] + [w]
    ensures Words("  " + w) == [w]
  {
    OneWord(a);
    OneWord(b);
    OneWord(w);
    WordsConcat(a + " " + b, w);
    WordsConcat(a, b);
    assert "  " + w == " " + " " + w && " " == "" + " " + "";
    WordsConcat(" ", w);
    WordsConcat("", "");
    assert Words("") + Words("") == [] && [] + [w] == [w];
  }

  lemma SuffixKeepsPhrase(a: string, b: string, w: string)
    requires Word(a) && Word(b) && Word(w) && !RoleToken(w) && !DepartmentWord(a) && !DepartmentWord(b) && !DepartmentWord(w)
    ensures SuffixOnly(a + " " + b + " " + w) == [a] + [b] + [w]
  {
    TwoAndOne(a, b, w);
    TokensStay([a] + [b] + [w]);
  }

  lemma BlankedLeavesWord(text: string, w: string)
    requires Word(w) && !RoleToken(w) && !DepartmentWord(w) && Blanked(text, |PHRASES|) == "  " + w
    ensures GroupName(text) == [w]
  {
    TwoAndOne(w, w, w);
    TokensStay([w]);
  }

  /** A name that begins with a role phrase loses it, although a word that is no role ends
      the name. */
  lemma PhrasesGoAnywhere(w: string)
    requires Word(w) && !RoleToken(w) && !DepartmentWord(w)
    ensures var text := "thanh vien" + " " + w; GroupName(text) == [w] && SuffixOnly(text) == ["thanh"] + ["vien"] + [w]
  {
    BlankedStart(w);
    BlankedLeavesWord("thanh vien" + " " + w, w);
    assert "thanh vien" == "thanh" + " " + "vien";
    SuffixKeepsPhrase("thanh", "vien", w);
  }

  /** Without a phrase, only the role suffix and the department words go. */
  lemma SuffixOnlyWithoutPhrases(text: string)
    requires forall j | 0 <= j < |PHRASES| :: !Occurs(PHRASES[j], text)
    ensures GroupName(text) == SuffixOnly(text)
  {
    BlankedIff(text);
  }

  /** Only role tokens at the end are set aside, and all of them. */
  lemma {:induction false} OnlyTheSuffixGoes(tokens: seq<string>)
    ensures StripRoles(tokens) <= tokens
    ensures StripRoles(tokens) != [] ==> !RoleToken(StripRoles(tokens)[|StripRoles(tokens)| - 1])
    ensures forall i | |StripRoles(tokens)| <= i < |tokens| :: RoleToken(tokens[i])
  {
    if tokens != [] && RoleToken(tokens[|tokens| - 1]) {
      OnlyTheSuffixGoes(tokens[..|tokens| - 1]);
      assert forall i | 0 <= i < |tokens| - 1 :: tokens[..|tokens| - 1][i] == tokens[i];
    }
  }

  lemma {:induction false} NoDepartmentWordStays(tokens: seq<string>, t: string)
    ensures t in WithoutDepartmentWords(tokens) <==> t in tokens && !DepartmentWord(t)
  {
    if tokens != [] {
      assert tokens == tokens[..|tokens| - 1] + [tokens[|tokens| - 1]];
      NoDepartmentWordStays(tokens[..|tokens| - 1], t);
    }
  }

  /** `normalize_group_name` of a folded name, as tokens. */
  method NormalizeGroupName(folded: string) returns (name: seq<string>)
    ensures name == GroupName(folded)
  {
    var text := folded;
    for k := 0 to |PHRASES|
      invariant text == Blanked(folded, k)
    {
      assert PHRASES[k] != "";
      text := Replaced(text, PHRASES[k]);
    }
    var tokens := Words(text);
    while tokens != [] && RoleToken(tokens[|tokens| - 1])
      invariant StripRoles(tokens) == StripRoles(Words(text))
      decreases |tokens|
    {
      tokens := tokens[..|tokens| - 1];
    }
    name := WithoutDepartmentWords(tokens);
  }

  // ----- departments ---------------------------------------------------------------------------------

  /** An active department of the company: its id and its normalised name. */
  datatype Department = Department(id: string, name: seq<string>)

  function Matches(wanted: seq<string>, departments: seq<Department>): seq<string> {
    if departments == [] then []
    else
      var last := departments[|departments| - 1];
      Matches(wanted, departments[..|departments| - 1]) + if last.name == wanted then [last.id] else []
  }

  function MatchDepartment(wanted: seq<string>, departments: seq<Department>): Option<string> {
    if wanted == [] then None
    else
      var matches := Matches(wanted, departments);
      if |matches| == 1 then Some(matches[0]) else None
  }

  predicate DistinctDepartments(departments: seq<Department>) {
    forall i, j | 0 <= i < j < |departments| :: departments[i].id != departments[j].id
  }

  lemma {:induction false} MatchesIff(wanted: seq<string>, departments: seq<Department>, id: string)
    requires DistinctDepartments(departments)
    ensures id in Matches(wanted, departments) <==> Department(id, wanted) in departments
    ensures forall i, j | 0 <= i < j < |Matches(wanted, departments)| :: Matches(wanted, departments)[i] != Matches(wanted, departments)[j]
  {
    if departments != [] {
      var n := |departments| - 1;
      var last := departments[n];
      assert departments == departments[..n] + [last];
      MatchesIff(wanted, departments[..n], id);
      MatchesIff(wanted, departments[..n], last.id);
      assert forall i | 0 <= i < n :: departments[..n][i].id != last.id;
    }
  }

  /** A group is matched exactly when one department, and only one, carries its name. */
  lemma MatchIffOnlyOne(wanted: seq<string>, departments: seq<Department>, id: string)
    requires DistinctDepartments(departments)
    ensures MatchDepartment(wanted, departments) == Some(id) <==>
            && wanted != [] && Department(id, wanted) in departments
            && forall d | d in departments && d.name == wanted :: d.id == id
  {
    var matches := Matches(wanted, departments);
    MatchesIff(wanted, departments, id);
    forall d | d in departments && d.name == wanted ensures d.id in matches {
      assert d == Department(d.id, wanted);
      MatchesIff(wanted, departments, d.id);
    }
    forall i | 0 <= i < |matches| ensures Department(matches[i], wanted) in departments {
      MatchesIff(wanted, departments, matches[i]);
    }
    if id in matches && |matches| > 1 {
      assert matches[0] != matches[1];
      assert Department(matches[0], wanted) in departments && Department(matches[1], wanted) in departments;
    }
  }
}
