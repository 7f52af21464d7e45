/** The text whose hash selects a cached answer, and when it determines its fields. */
module CacheKeys {
  import opened Decimals
  import opened Texts

  /** What `_sources_epoch` reads; `newest` is the text of a timestamp, or "None". */
  datatype Sources = DocumentsOnly | Unreadable | Lessons(count: nat, newest: string)

  datatype KeyFields = KeyFields(
    prompt: string,
    retrieval: string,
    extended: bool,
    cacheExtended: bool,
    language: string,
    sources: Sources,
    question: string)

  function SourcesText(s: Sources): string {
    match s
    case DocumentsOnly => "documents"
    case Unreadable => "all"
    case Lessons(count, newest) => "all:" + Decimal(count) + ":" + newest
  }

  function Bit(b: bool): string { if b then "1" else "0" }

  function Join(parts: seq<string>): string {
    if parts == [] then ""
    else if |parts| == 1 then parts[0]
    else parts[0] + "|" + Join(parts[1..])
  }

  function Parts(k: KeyFields): seq<string> {
    [k.prompt, k.retrieval, "extended=" + Bit(k.extended), "cache_extended=" + Bit(k.cacheExtended),
     "query_language=" + k.language, "sources=" + SourcesText(k.sources), k.question]
  }

  /** `cache_input`; `question` is already stripped. */
  function CacheInput(k: KeyFields): string { Join(Parts(k)) }

  lemma JoinLast(a: string, b: string)
    ensures Join([a, b]) == a + "|" + b
  {
    assert [a, b][1..] == [b];
  }

  lemma JoinMore(a: string, rest: seq<string>)
    requires rest != []
    ensures Join([a] + rest) == a + "|" + Join(rest)
  {
    assert ([a] + rest)[1..] == rest;
  }

  /** The text written out. */
  lemma CacheInputText(k: KeyFields)
    ensures CacheInput(k) ==
            k.prompt + "|" + (k.retrieval + "|" + ("extended=" + Bit(k.extended) + "|" + ("cache_extended=" + Bit(k.cacheExtended) + "|" +
            ("query_language=" + k.language + "|" + ("sources=" + SourcesText(k.sources) + "|" + k.question)))))
  {
    var p := Parts(k);
    JoinLast(p[5], p[6]);
    JoinMore(p[4], [p[5], p[6]]);
    JoinMore(p[3], [p[4], p[5], p[6]]);
    JoinMore(p[2], [p[3], p[4], p[5], p[6]]);
    JoinMore(p[1], [p[2], p[3], p[4], p[5], p[6]]);
    JoinMore(p[0], [p[1], p[2], p[3], p[4], p[5], p[6]]);
  }

  predicate NoBar(s: string) { '|' !in s }

  /** No field before the question contains the separator. */
  predicate Plain(k: KeyFields) {
    && NoBar(k.prompt) && NoBar(k.retrieval) && NoBar(k.language)
    && (k.sources.Lessons? ==> NoBar(k.sources.newest))
  }

  lemma {:induction false} JoinIsInjective(p: seq<string>, q: seq<string>)
    requires |p| == |q| && Join(p) == Join(q)
    requires forall i | 0 <= i < |p| - 1 :: NoBar(p[i]) && NoBar(q[i])
    ensures p == q
  {
    if |p| > 1 {
      SplitAt('|', p[0], Join(p[1..]), q[0], Join(q[1..]));
      JoinIsInjective(p[1..], q[1..]);
      assert p == [p[0]] + p[1..] && q == [q[0]] + q[1..];
    }
  }

  lemma SourcesPlain(s: Sources)
    requires s.Lessons? ==> NoBar(s.newest)
    ensures NoBar(SourcesText(s))
  {
    if s.Lessons? {
      ValueOfDecimal(s.count);
    }
  }

  lemma SourcesTextIsInjective(s: Sources, t: Sources)
    requires SourcesText(s) == SourcesText(t)
    ensures s == t
  {
    var a, b := SourcesText(s), SourcesText(t);
    assert s.Lessons? ==> a[3] == ':';
    assert t.Lessons? ==> b[3] == ':';
    if s.Lessons? && t.Lessons? {
      assert a[4..] == Decimal(s.count) + ":" + s.newest && b[4..] == Decimal(t.count) + ":" + t.newest;
      ValueOfDecimal(s.count);
      ValueOfDecimal(t.count);
      SplitAt(':', Decimal(s.count), s.newest, Decimal(t.count), t.newest);
      DecimalIsInjective(s.count, t.count);
    }
  }

  lemma PartsArePlain(k: KeyFields)
    requires Plain(k)
    ensures |Parts(k)| == 7 && forall i | 0 <= i < 6 :: NoBar(Parts(k)[i])
  {
    SourcesPlain(k.sources);
  }

  lemma SamePrefix(prefix: string, a: string, b: string)
    requires prefix + a == prefix + b
    ensures a == b
  {
    assert (prefix + a)[|prefix|..] == a && (prefix + b)[|prefix|..] == b;
  }

  lemma PartsAreInjective(k: KeyFields, l: KeyFields)
    requires Parts(k) == Parts(l)
    ensures k == l
  {
    var p, q := Parts(k), Parts(l);
    assert forall i | 0 <= i < 7 :: p[i] == q[i];
    SamePrefix("extended=", Bit(k.extended), Bit(l.extended));
    SamePrefix("cache_extended=", Bit(k.cacheExtended), Bit(l.cacheExtended));
    SamePrefix("query_language=", k.language, l.language);
    SamePrefix("sources=", SourcesText(k.sources), SourcesText(l.sources));
    SourcesTextIsInjective(k.sources, l.sources);
  }

  /** Keys with the same text have the same fields, whatever the questions contain. */
  lemma CacheInputIsInjective(k: KeyFields, l: KeyFields)
    requires Plain(k) && Plain(l) && CacheInput(k) == CacheInput(l)
    ensures k == l
  {
    PartsArePlain(k);
    PartsArePlain(l);
    JoinIsInjective(Parts(k), Parts(l));
    PartsAreInjective(k, l);
  }

  lemma JoinTwo(a: string, b: string, rest: seq<string>)
    requires rest != []
    ensures Join([a, b] + rest) == a + "|" + b + "|" + Join(rest)
  {
    var p := [a, b] + rest;
    assert p[1..] == [b] + rest && p[1..][1..] == rest;
    assert Join(p[1..]) == b + "|" + Join(rest);
  }

  /** The text from the third field on. */
  function AfterVersions(k: KeyFields): string { "|" + Join(Parts(k)[2..]) }

  lemma FirstTwo(k: KeyFields, prompt: string, retrieval: string)
    ensures CacheInput(k.(prompt := prompt, retrieval := retrieval)) == prompt + "|" + retrieval + AfterVersions(k)
  {
    var rest := Parts(k)[2..];
    JoinTwo(prompt, retrieval, rest);
    assert Parts(k.(prompt := prompt, retrieval := retrieval)) == [prompt, retrieval] + rest;
    assert prompt + "|" + retrieval + "|" + Join(rest) == prompt + "|" + retrieval + ("|" + Join(rest));
  }

  lemma FirstTwoOf(k: KeyFields)
    ensures CacheInput(k) == k.prompt + "|" + k.retrieval + AfterVersions(k)
  {
    FirstTwo(k, k.prompt, k.retrieval);
    assert k.(prompt := k.prompt, retrieval := k.retrieval) == k;
  }

  /** Any separator in the prompt version gives the key a twin with the same text: what
      follows it may as well begin the retrieval version. */
  lemma PromptBarHasTwin(k: KeyFields, a: string, b: string)
    requires k.prompt == a + "|" + b
    ensures var twin := k.(prompt := a, retrieval := b + "|" + k.retrieval); twin != k && CacheInput(twin) == CacheInput(k)
  {
    FirstTwoOf(k);
    FirstTwo(k, a, b + "|" + k.retrieval);
    assert |k.prompt| > |a|;
    assert a + "|" + (b + "|" + k.retrieval) == (a + "|" + b) + "|" + k.retrieval;
  }

  /** And any separator in the retrieval version: what precedes it may as well end the
      prompt version. */
  lemma RetrievalBarHasTwin(k: KeyFields, a: string, b: string)
    requires k.retrieval == a + "|" + b
    ensures var twin := k.(prompt := k.prompt + "|" + a, retrieval := b); twin != k && CacheInput(twin) == CacheInput(k)
  {
    FirstTwoOf(k);
    FirstTwo(k, k.prompt + "|" + a, b);
    assert |k.retrieval| > |b|;
    assert (k.prompt + "|" + a) + "|" + b == k.prompt + "|" + (a + "|" + b);
  }

  /** No other pair of versions gives the same text. */
  ghost predicate VersionsAreDetermined(k: KeyFields) {
    forall prompt, retrieval :: CacheInput(k.(prompt := prompt, retrieval := retrieval)) == CacheInput(k) ==>
      prompt == k.prompt && retrieval == k.retrieval
  }

  /** A text without the separator on either side of one is cut there alone. */
  lemma OneBar(a: string, x: string, b: string, y: string, rest: string)
    requires NoBar(a) && NoBar(x) && a + "|" + x + rest == b + "|" + y + rest
    ensures a == b && x == y
  {
    var s, t := a + "|" + x, b + "|" + y;
    assert |s| == |t| && s == (s + rest)[..|s|] && t == (t + rest)[..|s|];
    assert s[|b|] == t[|b|] == '|';
    assert |a| == |b|;
    assert a == s[..|a|] && b == t[..|a|] && x == s[|a| + 1..] && y == t[|a| + 1..];
  }

  /** The text determines the versions exactly when neither contains the separator. */
  lemma VersionsAreDeterminedIff(k: KeyFields)
    ensures VersionsAreDetermined(k) <==> NoBar(k.prompt) && NoBar(k.retrieval)
  {
    if NoBar(k.prompt) && NoBar(k.retrieval) {
      FirstTwoOf(k);
      forall prompt, retrieval | CacheInput(k.(prompt := prompt, retrieval := retrieval)) == CacheInput(k)
        ensures prompt == k.prompt && retrieval == k.retrieval
      {
        FirstTwo(k, prompt, retrieval);
        OneBar(k.prompt, k.retrieval, prompt, retrieval, AfterVersions(k));
      }
    } else if !NoBar(k.prompt) {
      var i :| 0 <= i < |k.prompt| && k.prompt[i] == '|';
      PromptBarHasTwin(k, k.prompt[..i], k.prompt[i + 1..]);
    } else {
      var i :| 0 <= i < |k.retrieval| && k.retrieval[i] == '|';
      RetrievalBarHasTwin(k, k.retrieval[..i], k.retrieval[i + 1..]);
    }
  }
}
