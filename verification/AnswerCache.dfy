/** The answer cache under interleaved requests, changing permissions and a moving clock:
    what may be said of any answer it serves, and of the document selections kept in the
    same table for questions that span many documents. */
module AnswerCache {
  import opened CacheKeys
  import opened CitationChecks
  import opened Options
  import opened Sets
  import opened Texts

  /** All the fingerprint reads of a user; `rest` stands for company, departments, roles and
      permissions. */
  datatype Profile = Profile(userId: string, rest: string)

  /** What is not modelled here: the hashes, the sectioning of an answer, and the lower-casing
      and spacing of a question. */
  datatype Tools = Tools(reader: Reader, grounded: string -> string, sha: string -> string, fingerprint: Profile -> string,
                         normal: string -> string)

  /** Digests are hexadecimal, and different inputs have different digests. */
  ghost predicate Collisionless(t: Tools) {
    && (forall a, b :: t.sha(a) == t.sha(b) ==> a == b)
    && (forall p, q :: t.fingerprint(p) == t.fingerprint(q) ==> p == q)
    && (forall a :: NoBar(t.sha(a))) && (forall p :: NoBar(t.fingerprint(p)))
  }

  datatype Row = Row(owner: string, question: string, fingerprint: string,
                     answer: string, citations: Option<seq<Cited>>, expires: int)

  /** What a row is for: an answer, or the selection made for a question among documents
      that `material` describes. */
  datatype Source = AnswerTo(fields: KeyFields, history: bool, outcome: Outcome) | SelectionFor(question: string, material: string)

  /** The text that is hashed into `question_hash`. */
  function TextOf(t: Tools, source: Source): string {
    match source
    case AnswerTo(fields, _, _) => CacheInput(fields)
    case SelectionFor(question, material) => "corpus|" + t.normal(question) + "|" + t.sha(material)
  }

  function QuestionHash(t: Tools, k: KeyFields): string { t.sha(CacheInput(k)) }

  /** The unique column `cache_key`. */
  function CacheKey(t: Tools, question: string, fingerprint: string): string {
    t.sha(question + "|" + fingerprint)
  }

  const SIX_HOURS: int := 21600

  // ----- requests and the table ------------------------------------------------------------

  datatype Phase = Begun | LookedUp(hit: Option<Row>, at: int) | Generating | Finished

  /** One call of `ask`: who asks, under which key, and whether earlier turns are in front. */
  datatype Request = Request(profile: Profile, fields: KeyFields, history: bool, enrichment: bool, phase: Phase)

  /** Records of what was stored and found; `at` is the clock of the store and of the lookup. */
  datatype StoreRecord = StoreRecord(profile: Profile, source: Source, row: Row, at: int)
  datatype ServeRecord = ServeRecord(profile: Profile, fields: KeyFields, history: bool, enrichment: bool, row: Row, at: int, readable: set<string>)
  datatype ReuseRecord = ReuseRecord(profile: Profile, question: string, material: string, row: Row, at: int)

  datatype State = State(
    now: int,
    rows: map<string, Row>,
    readable: set<(Profile, string)>,
    requests: map<nat, Request>,
    stored: seq<StoreRecord>,
    served: seq<ServeRecord>,
    reused: seq<ReuseRecord>,
    ambiguous: bool)

  datatype Outcome = Outcome(answer: string, citations: seq<Cited>, refusal: bool, artifacts: bool, corpus: bool)

  datatype Step =
    | Begin(id: nat, profile: Profile, fields: KeyFields, history: bool, enrichment: bool)
    | Lookup(id: nat)
    | Validate(id: nat)
    | Remember(id: nat, outcome: Outcome, ok: bool)
    | FindSelection(id: nat, material: string)
    | KeepSelection(id: nat, material: string, selection: string, lifetime: int, ok: bool)
    | Permissions(readable: set<(Profile, string)>)
    | Tick(now: int)
    | Purge(keys: set<string>)

  function ReadableBy(readable: set<(Profile, string)>, p: Profile): set<string> {
    set pair | pair in readable && pair.0 == p :: pair.1
  }

  /** The WHERE clause of `get_cached`. */
  predicate Matches(row: Row, question: string, fingerprint: string, owner: string, now: int) {
    row.question == question && row.expires > now && row.fingerprint == fingerprint && row.owner == owner
  }

  /** Every row sits under its own key. */
  predicate Keyed(t: Tools, rows: map<string, Row>) {
    forall k | k in rows :: k == CacheKey(t, rows[k].question, rows[k].fingerprint)
  }

  function Matching(rows: map<string, Row>, question: string, fingerprint: string, owner: string, now: int): set<string> {
    set k | k in rows && Matches(rows[k], question, fingerprint, owner, now)
  }

  /** `scalar_one_or_none` over the matching rows: nothing, the row, or an exception. */
  ghost predicate IsLookup(rows: map<string, Row>, keys: set<string>, hit: Option<Row>)
    requires keys <= rows.Keys
  {
    if keys == {} then hit == None else hit.Some? && exists k | k in keys :: rows[k] == hit.value
  }

  /** Only a fresh, cited, plain answer to a question without earlier turns is kept. */
  predicate CacheWorthy(q: Request, o: Outcome) {
    !o.refusal && o.citations != [] && !o.artifacts && !o.corpus && !q.history
  }

  function RowOf(t: Tools, q: Request, o: Outcome, now: int): Row {
    Row(q.profile.userId, QuestionHash(t, q.fields), t.fingerprint(q.profile), o.answer, Some(o.citations), now + SIX_HOURS)
  }

  function SelectionRow(t: Tools, q: Request, material: string, selection: string, expires: int): Row {
    Row(q.profile.userId, t.sha(TextOf(t, SelectionFor(q.fields.question, material))), t.fingerprint(q.profile), selection, Some([]), expires)
  }

  /** `cache_answer`: insert, or replace the row of the same key. */
  function Upsert(t: Tools, rows: map<string, Row>, row: Row): map<string, Row> {
    rows[CacheKey(t, row.question, row.fingerprint) := row]
  }

  // ----- steps --------------------------------------------------------------------------------

  function Move(s: State, id: nat, phase: Phase): State
    requires id in s.requests
  {
    s.(requests := s.requests[id := s.requests[id].(phase := phase)])
  }

  ghost predicate LookupStep(t: Tools, s: State, id: nat, s': State) {
    && id in s.requests && s.requests[id].phase == Begun
    && var q := s.requests[id];
       if q.history || q.enrichment then s' == Move(s, id, Generating)
       else
         var keys := Matching(s.rows, QuestionHash(t, q.fields), t.fingerprint(q.profile), q.profile.userId, s.now);
         if |keys| > 1 then s' == Move(s, id, Finished).(ambiguous := true)
         else exists hit :: IsLookup(s.rows, keys, hit) && s' == Move(s, id, LookedUp(hit, s.now))
  }

  predicate ValidateStep(t: Tools, s: State, id: nat, s': State) {
    && id in s.requests && s.requests[id].phase.LookedUp?
    && var q := s.requests[id];
       var readable := ReadableBy(s.readable, q.profile);
       match q.phase.hit
       case None => s' == Move(s, id, Generating)
       case Some(row) =>
         if !Stands(t.reader, t.grounded(row.answer), row.citations, readable) then s' == Move(s, id, Generating)
         else
           var record := ServeRecord(q.profile, q.fields, q.history, q.enrichment, row, q.phase.at, readable);
           s' == Move(s, id, Finished).(served := s.served + [record])
  }

  predicate RememberStep(t: Tools, s: State, id: nat, o: Outcome, ok: bool, s': State) {
    && id in s.requests && s.requests[id].phase == Generating
    && var q := s.requests[id];
       if !CacheWorthy(q, o) || !ok then s' == Move(s, id, Finished)
       else
         var row := RowOf(t, q, o, s.now);
         s' == Move(s, id, Finished).(rows := Upsert(t, s.rows, row),
                                      stored := s.stored + [StoreRecord(q.profile, AnswerTo(q.fields, q.history, o), row, s.now)])
  }

  /** `cache_get` of `_corpus_context`, by a request that is generating. */
  ghost predicate FindStep(t: Tools, s: State, id: nat, material: string, s': State) {
    && id in s.requests && s.requests[id].phase == Generating
    && var q := s.requests[id];
       var keys := Matching(s.rows, t.sha(TextOf(t, SelectionFor(q.fields.question, material))), t.fingerprint(q.profile), q.profile.userId, s.now);
       if |keys| > 1 then s' == s.(ambiguous := true)
       else
         exists hit :: IsLookup(s.rows, keys, hit) &&
           s' == if hit == None then s
                 else s.(reused := s.reused + [ReuseRecord(q.profile, q.fields.question, material, hit.value, s.now)])
  }

  /** `cache_put` of `_corpus_context`; its lifetime is a setting. */
  predicate KeepStep(t: Tools, s: State, id: nat, material: string, selection: string, lifetime: int, ok: bool, s': State) {
    && id in s.requests && s.requests[id].phase == Generating
    && var q := s.requests[id];
       if !ok then s' == s
       else
         var row := SelectionRow(t, q, material, selection, s.now + lifetime);
         s' == s.(rows := Upsert(t, s.rows, row),
                  stored := s.stored + [StoreRecord(q.profile, SelectionFor(q.fields.question, material), row, s.now)])
  }

  ghost predicate Next(t: Tools, s: State, step: Step, s': State) {
    match step
    case Begin(id, profile, fields, history, enrichment) =>
      id !in s.requests && s' == s.(requests := s.requests[id := Request(profile, fields, history, enrichment, Begun)])
    case Lookup(id) => LookupStep(t, s, id, s')
    case Validate(id) => ValidateStep(t, s, id, s')
    case Remember(id, o, ok) => RememberStep(t, s, id, o, ok, s')
    case FindSelection(id, material) => FindStep(t, s, id, material, s')
    case KeepSelection(id, material, selection, lifetime, ok) => KeepStep(t, s, id, material, selection, lifetime, ok, s')
    case Permissions(readable) => s' == s.(readable := readable)
    case Tick(now) => s.now <= now && s' == s.(now := now)
    case Purge(keys) => s' == s.(rows := s.rows - keys)
  }

  predicate Init(s: State) {
    s.rows == map[] && s.requests == map[] && s.stored == [] && s.served == [] && s.reused == [] && !s.ambiguous
  }

  ghost predicate Run(t: Tools, states: seq<State>, steps: seq<Step>) {
    && |states| == |steps| + 1 && Init(states[0])
    && forall i | 0 <= i < |steps| :: Next(t, states[i], steps[i], states[i + 1])
  }

  // ----- what always holds -----------------------------------------------------------------------

  /** A cited answer that is no refusal, shows no artifacts and rests on no selection. */
  predicate PlainOutcome(o: Outcome) {
    !o.refusal && o.citations != [] && !o.artifacts && !o.corpus
  }

  predicate SoundStore(t: Tools, w: StoreRecord) {
    && w.row.owner == w.profile.userId
    && w.row.question == t.sha(TextOf(t, w.source)) && w.row.fingerprint == t.fingerprint(w.profile)
    && w.row.citations.Some?
    && (if w.source.AnswerTo? then
          && !w.source.history && PlainOutcome(w.source.outcome) && w.row.expires == w.at + 21600
          && w.row.answer == w.source.outcome.answer && w.row.citations.value == w.source.outcome.citations
        else w.row.citations.value == [])
  }

  /** The row was stored before, by a request with this profile and this key text. */
  predicate StoredFor(t: Tools, stored: seq<StoreRecord>, row: Row, p: Profile, text: string) {
    exists i | 0 <= i < |stored| ::
      stored[i].row == row && SoundStore(t, stored[i]) && stored[i].profile == p && TextOf(t, stored[i].source) == text
  }

  predicate Stored(t: Tools, stored: seq<StoreRecord>, row: Row) {
    exists i | 0 <= i < |stored| :: stored[i].row == row && SoundStore(t, stored[i])
  }

  predicate SoundRow(t: Tools, stored: seq<StoreRecord>, key: string, row: Row) {
    key == CacheKey(t, row.question, row.fingerprint) && Stored(t, stored, row)
  }

  predicate SoundRequest(t: Tools, stored: seq<StoreRecord>, q: Request) {
    q.phase.LookedUp? && q.phase.hit.Some? ==>
      && !q.history && !q.enrichment && q.phase.at < q.phase.hit.value.expires
      && StoredFor(t, stored, q.phase.hit.value, q.profile, CacheInput(q.fields))
  }

  predicate SoundServe(t: Tools, stored: seq<StoreRecord>, v: ServeRecord) {
    && !v.history && !v.enrichment && v.at < v.row.expires
    && StoredFor(t, stored, v.row, v.profile, CacheInput(v.fields))
    && Stands(t.reader, t.grounded(v.row.answer), v.row.citations, v.readable)
  }

  predicate SoundReuse(t: Tools, stored: seq<StoreRecord>, v: ReuseRecord) {
    v.at < v.row.expires && StoredFor(t, stored, v.row, v.profile, TextOf(t, SelectionFor(v.question, v.material)))
  }

  predicate Inv(t: Tools, s: State) {
    && (forall k | k in s.rows :: SoundRow(t, s.stored, k, s.rows[k]))
    && (forall i | i in s.requests :: SoundRequest(t, s.stored, s.requests[i]))
    && (forall v | v in s.served :: SoundServe(t, s.stored, v))
    && (forall v | v in s.reused :: SoundReuse(t, s.stored, v))
    && !s.ambiguous
  }

  /** Two rows of one question and fingerprint would have one key, so a lookup never finds
      two rows and `scalar_one_or_none` never raises. */
  lemma LookupIsUnambiguous(t: Tools, s: State, question: string, fingerprint: string, owner: string)
    requires Inv(t, s)
    ensures |Matching(s.rows, question, fingerprint, owner, s.now)| <= 1
  {
    var keys := Matching(s.rows, question, fingerprint, owner, s.now);
    var only := CacheKey(t, question, fingerprint);
    forall k | k in keys ensures k == only {
      assert SoundRow(t, s.stored, k, s.rows[k]);
    }
    assert keys <= {only};
    SubsetIsSmaller(keys, {only});
  }

  /** A matching row was stored for this very profile and key text. */
  lemma MatchingRowIsOurs(t: Tools, s: State, k: string, p: Profile, text: string)
    requires Collisionless(t) && Inv(t, s) && k in s.rows
    requires Matches(s.rows[k], t.sha(text), t.fingerprint(p), p.userId, s.now)
    ensures StoredFor(t, s.stored, s.rows[k], p, text)
  {
    assert SoundRow(t, s.stored, k, s.rows[k]);
    var i :| 0 <= i < |s.stored| && s.stored[i].row == s.rows[k] && SoundStore(t, s.stored[i]);
    assert t.fingerprint(s.stored[i].profile) == t.fingerprint(p);
    assert t.sha(TextOf(t, s.stored[i].source)) == t.sha(text);
  }

  lemma MoveKeeps(t: Tools, s: State, id: nat, phase: Phase)
    requires Inv(t, s) && id in s.requests && SoundRequest(t, s.stored, s.requests[id].(phase := phase))
    ensures Inv(t, Move(s, id, phase))
  {
    var s' := Move(s, id, phase);
    forall i | i in s'.requests ensures SoundRequest(t, s'.stored, s'.requests[i]) {
      assert i != id ==> SoundRequest(t, s.stored, s.requests[i]);
    }
  }

  /** What a query returns was stored for whoever asks. */
  lemma HitIsOurs(t: Tools, s: State, p: Profile, text: string, hit: Option<Row>)
    requires Collisionless(t) && Inv(t, s) && hit.Some?
    requires IsLookup(s.rows, Matching(s.rows, t.sha(text), t.fingerprint(p), p.userId, s.now), hit)
    ensures s.now < hit.value.expires && StoredFor(t, s.stored, hit.value, p, text)
  {
    var keys := Matching(s.rows, t.sha(text), t.fingerprint(p), p.userId, s.now);
    var k :| k in keys && s.rows[k] == hit.value;
    MatchingRowIsOurs(t, s, k, p, text);
  }

  lemma LookupKeeps(t: Tools, s: State, id: nat, s': State)
    requires Collisionless(t) && Inv(t, s) && LookupStep(t, s, id, s')
    ensures Inv(t, s')
  {
    var q := s.requests[id];
    if q.history || q.enrichment {
      MoveKeeps(t, s, id, Generating);
    } else {
      LookupIsUnambiguous(t, s, QuestionHash(t, q.fields), t.fingerprint(q.profile), q.profile.userId);
      var keys := Matching(s.rows, QuestionHash(t, q.fields), t.fingerprint(q.profile), q.profile.userId, s.now);
      var hit :| IsLookup(s.rows, keys, hit) && s' == Move(s, id, LookedUp(hit, s.now));
      if hit.Some? {
        HitIsOurs(t, s, q.profile, CacheInput(q.fields), hit);
      }
      MoveKeeps(t, s, id, LookedUp(hit, s.now));
    }
  }

  lemma ValidateKeeps(t: Tools, s: State, id: nat, s': State)
    requires Inv(t, s) && ValidateStep(t, s, id, s')
    ensures Inv(t, s')
  {
    assert SoundRequest(t, s.stored, s.requests[id]);
    MoveKeeps(t, s, id, Generating);
    MoveKeeps(t, s, id, Finished);
  }

  lemma ReuseKeeps(t: Tools, s: State, v: ReuseRecord)
    requires Inv(t, s) && SoundReuse(t, s.stored, v)
    ensures Inv(t, s.(reused := s.reused + [v]))
  {
  }

  lemma FindKeeps(t: Tools, s: State, id: nat, material: string, s': State)
    requires Collisionless(t) && Inv(t, s) && FindStep(t, s, id, material, s')
    ensures Inv(t, s')
  {
    var q := s.requests[id];
    var text := TextOf(t, SelectionFor(q.fields.question, material));
    LookupIsUnambiguous(t, s, t.sha(text), t.fingerprint(q.profile), q.profile.userId);
    var keys := Matching(s.rows, t.sha(text), t.fingerprint(q.profile), q.profile.userId, s.now);
    var hit :| IsLookup(s.rows, keys, hit) &&
               s' == if hit == None then s
                     else s.(reused := s.reused + [ReuseRecord(q.profile, q.fields.question, material, hit.value, s.now)]);
    if hit.Some? {
      HitIsOurs(t, s, q.profile, text, hit);
      ReuseKeeps(t, s, ReuseRecord(q.profile, q.fields.question, material, hit.value, s.now));
    }
  }

  /** Records only accumulate. */
  lemma MoreStored(t: Tools, stored: seq<StoreRecord>, w: StoreRecord)
    ensures forall row | Stored(t, stored, row) :: Stored(t, stored + [w], row)
    ensures forall row, p, text | StoredFor(t, stored, row, p, text) :: StoredFor(t, stored + [w], row, p, text)
  {
    assert forall i | 0 <= i < |stored| :: (stored + [w])[i] == stored[i];
  }

  lemma StoreKeeps(t: Tools, s: State, w: StoreRecord)
    requires Inv(t, s) && SoundStore(t, w)
    ensures Inv(t, s.(rows := Upsert(t, s.rows, w.row), stored := s.stored + [w]))
  {
    var s' := s.(rows := Upsert(t, s.rows, w.row), stored := s.stored + [w]);
    MoreStored(t, s.stored, w);
    assert s'.stored[|s.stored|] == w;
    assert Stored(t, s'.stored, w.row);
    forall k | k in s'.rows ensures SoundRow(t, s'.stored, k, s'.rows[k]) {
      assert k in s.rows ==> SoundRow(t, s.stored, k, s.rows[k]);
    }
    forall i | i in s'.requests ensures SoundRequest(t, s'.stored, s'.requests[i]) {
      assert SoundRequest(t, s.stored, s.requests[i]);
    }
    forall v | v in s'.served ensures SoundServe(t, s'.stored, v) {
      assert SoundServe(t, s.stored, v);
    }
    forall v | v in s'.reused ensures SoundReuse(t, s'.stored, v) {
      assert SoundReuse(t, s.stored, v);
    }
  }

  lemma RememberKeeps(t: Tools, s: State, id: nat, o: Outcome, ok: bool, s': State)
    requires Inv(t, s) && RememberStep(t, s, id, o, ok, s')
    ensures Inv(t, s')
  {
    var q := s.requests[id];
    MoveKeeps(t, s, id, Finished);
    if CacheWorthy(q, o) && ok {
      StoreKeeps(t, Move(s, id, Finished), StoreRecord(q.profile, AnswerTo(q.fields, q.history, o), RowOf(t, q, o, s.now), s.now));
    }
  }

  lemma KeepKeeps(t: Tools, s: State, id: nat, material: string, selection: string, lifetime: int, ok: bool, s': State)
    requires Inv(t, s) && KeepStep(t, s, id, material, selection, lifetime, ok, s')
    ensures Inv(t, s')
  {
    var q := s.requests[id];
    if ok {
      StoreKeeps(t, s, StoreRecord(q.profile, SelectionFor(q.fields.question, material),
                                   SelectionRow(t, q, material, selection, s.now + lifetime), s.now));
    }
  }

  lemma StepKeeps(t: Tools, s: State, step: Step, s': State)
    requires Collisionless(t) && Inv(t, s) && Next(t, s, step, s')
    ensures Inv(t, s')
  {
    match step
    case Begin(_, _, _, _, _) =>
    case Lookup(id) => LookupKeeps(t, s, id, s');
    case Validate(id) => ValidateKeeps(t, s, id, s');
    case Remember(id, o, ok) => RememberKeeps(t, s, id, o, ok, s');
    case FindSelection(id, material) => FindKeeps(t, s, id, material, s');
    case KeepSelection(id, material, selection, lifetime, ok) => KeepKeeps(t, s, id, material, selection, lifetime, ok, s');
    case Permissions(_) =>
    case Tick(_) =>
    case Purge(_) =>
  }

  lemma {:induction false} RunKeeps(t: Tools, states: seq<State>, steps: seq<Step>, n: nat)
    requires Collisionless(t) && Run(t, states, steps) && n < |states|
    ensures Inv(t, states[n])
  {
    if n > 0 {
      RunKeeps(t, states, steps, n - 1);
      assert Next(t, states[n - 1], steps[n - 1], states[n]);
      StepKeeps(t, states[n - 1], steps[n - 1], states[n]);
    }
  }

  // ----- what is promised ---------------------------------------------------------------------------

  /** Every answer served on any run was stored as an answer for the same profile, so for the
      same owner and the same permissions snapshot, less than six hours before the lookup,
      with no earlier turns on either side; and for the same key fields wherever no version
      contains the separator. It was a cited answer, no refusal, without artifacts, is served
      with its text and citations unchanged, and not where a visual or figures are asked for.
      It uses at least one marker, declares every marker it uses, and cites only chunks that
      were readable when it was served. No lookup was ever ambiguous. */
  lemma ServedAnswersAreOurs(t: Tools, states: seq<State>, steps: seq<Step>, n: nat, v: ServeRecord) returns (w: StoreRecord)
    requires Collisionless(t) && Run(t, states, steps) && n < |states| && v in states[n].served
    ensures !states[n].ambiguous
    ensures w in states[n].stored && w.row == v.row && w.profile == v.profile && w.row.owner == v.profile.userId
    ensures w.source.AnswerTo? && !w.source.history && !v.history && !v.enrichment && v.at < w.at + 21600
    ensures var o := w.source.outcome;
            && !o.refusal && o.citations != [] && !o.artifacts && !o.corpus
            && v.row.answer == o.answer && v.row.citations == Some(o.citations)
    ensures Plain(w.source.fields) && Plain(v.fields) ==> w.source.fields == v.fields
    ensures var used := t.reader.markers(t.grounded(v.row.answer));
            used != {} && v.row.citations.Some? && used <= Declared(t.reader, v.row.citations.value)
    ensures forall m | m in t.reader.markers(t.grounded(v.row.answer)) ::
              exists c | c in v.row.citations.value :: c.Cited? && m in t.reader.markers("[" + c.source + "]")
    ensures forall c | c in v.row.citations.value :: c.Cited? && c.chunkId in v.readable
  {
    RunKeeps(t, states, steps, n);
    assert SoundServe(t, states[n].stored, v);
    w := RecordOf(t, states[n].stored, v.row, v.profile, CacheInput(v.fields));
    if Plain(w.source.fields) && Plain(v.fields) {
      CacheInputIsInjective(w.source.fields, v.fields);
    }
    StandsInFull(t.reader, t.grounded(v.row.answer), v.row.citations, v.readable);
  }

  // ----- what is not withheld ------------------------------------------------------------------------

  /** A request without earlier turns and without a wish for visuals finds the row of its key
      text, permissions snapshot and owner that has not expired. */
  lemma LookupFinds(t: Tools, s: State, id: nat, s': State, k: string)
    requires Inv(t, s) && LookupStep(t, s, id, s') && !s.requests[id].history && !s.requests[id].enrichment
    requires k in s.rows && s.now < s.rows[k].expires && s.rows[k].owner == s.requests[id].profile.userId
    requires s.rows[k].question == t.sha(CacheInput(s.requests[id].fields)) && s.rows[k].fingerprint == t.fingerprint(s.requests[id].profile)
    ensures s'.requests[id].phase == LookedUp(Some(s.rows[k]), s.now)
  {
    var q := s.requests[id];
    LookupIsUnambiguous(t, s, QuestionHash(t, q.fields), t.fingerprint(q.profile), q.profile.userId);
    var keys := Matching(s.rows, QuestionHash(t, q.fields), t.fingerprint(q.profile), q.profile.userId, s.now);
    assert k in keys;
    OnlyOne(keys, k);
  }

  lemma OnlyOne(keys: set<string>, k: string)
    requires k in keys && |keys| <= 1
    ensures keys == {k}
  {
    SubsetIsSmaller({k} + keys, keys);
    assert |keys - {k}| == 0;
  }

  /** A selection kept is what the next request of the same profile finds for that question,
      up to case and spacing, among those documents. */
  lemma KeptSelectionIsFound(t: Tools, s: State, id: nat, material: string, selection: string, lifetime: int, s': State, other: nat, s'': State)
    requires Inv(t, s) && KeepStep(t, s, id, material, selection, lifetime, true, s') && lifetime > 0
    requires FindStep(t, s', other, material, s'') && s'.requests[other].profile == s'.requests[id].profile
    requires t.normal(s'.requests[other].fields.question) == t.normal(s'.requests[id].fields.question)
    ensures |s''.reused| == |s'.reused| + 1
    ensures var found := s''.reused[|s'.reused|]; found.row.answer == selection && found.row.expires == s.now + lifetime
  {
    KeepKeeps(t, s, id, material, selection, lifetime, true, s');
    var q := s'.requests[id];
    var question, fingerprint := t.sha(TextOf(t, SelectionFor(q.fields.question, material))), t.fingerprint(q.profile);
    LookupIsUnambiguous(t, s', question, fingerprint, q.profile.userId);
    OnlyOne(Matching(s'.rows, question, fingerprint, q.profile.userId, s'.now), CacheKey(t, question, fingerprint));
  }

  /** A hit is served exactly when it stands; otherwise the request goes on to generate. */
  lemma ServedIff(t: Tools, s: State, id: nat, s': State)
    requires ValidateStep(t, s, id, s')
    ensures var q := s.requests[id];
            var stands := && q.phase.hit.Some? && q.phase.hit.value.citations.Some?
                          && Backed(t.reader, t.grounded(q.phase.hit.value.answer), q.phase.hit.value.citations.value,
                                    set pair | pair in s.readable && pair.0 == q.profile :: pair.1);
            && |s'.served| == |s.served| + (if stands then 1 else 0)
            && s'.requests[id].phase == (if stands then Finished else Generating)
  {
    var q := s.requests[id];
    if q.phase.hit.Some? {
      StandsInFull(t.reader, t.grounded(q.phase.hit.value.answer), q.phase.hit.value.citations, ReadableBy(s.readable, q.profile));
    }
  }

  /** An answer is kept exactly when it is plain and was given without earlier turns: under the
      hash of its key text and the permissions snapshot, for its owner and six hours. */
  lemma RememberedIff(t: Tools, s: State, id: nat, o: Outcome, ok: bool, s': State)
    requires RememberStep(t, s, id, o, ok, s')
    ensures var q := s.requests[id];
            var question, fingerprint := t.sha(CacheInput(q.fields)), t.fingerprint(q.profile);
            if ok && !o.refusal && o.citations != [] && !o.artifacts && !o.corpus && !q.history
            then s'.rows == s.rows[t.sha(question + "|" + fingerprint) :=
                                   Row(q.profile.userId, question, fingerprint, o.answer, Some(o.citations), s.now + 21600)]
            else s'.rows == s.rows
  {
  }

  lemma RecordOf(t: Tools, stored: seq<StoreRecord>, row: Row, p: Profile, text: string) returns (w: StoreRecord)
    requires StoredFor(t, stored, row, p, text)
    ensures w in stored && w.row == row && SoundStore(t, w) && w.profile == p && TextOf(t, w.source) == text
  {
    var i :| 0 <= i < |stored| && stored[i].row == row && SoundStore(t, stored[i]) && stored[i].profile == p &&
             TextOf(t, stored[i].source) == text;
    w := stored[i];
  }

  /** The parts before and after a last separator are determined. */
  lemma SplitAtLast(a: string, x: string, b: string, y: string)
    requires NoBar(x) && NoBar(y) && a + "|" + x == b + "|" + y
    ensures a == b && x == y
  {
    var s, t := a + "|" + x, b + "|" + y;
    assert s[|a|] == '|' && t[|b|] == '|';
    assert forall i | |a| < i < |s| :: s[i] == x[i - |a| - 1];
    assert forall i | |b| < i < |t| :: t[i] == y[i - |b| - 1];
    assert |a| == |b|;
    assert a == s[..|a|] && b == t[..|b|] && x == s[|a| + 1..] && y == t[|b| + 1..];
  }

  /** Selections have one text only for one question, up to case and spacing, and one
      description of the documents. */
  lemma SelectionTextIsInjective(t: Tools, a: Source, b: Source)
    requires Collisionless(t) && a.SelectionFor? && b.SelectionFor? && TextOf(t, a) == TextOf(t, b)
    ensures t.normal(a.question) == t.normal(b.question) && a.material == b.material
  {
    SplitAtLast("corpus|" + t.normal(a.question), t.sha(a.material), "corpus|" + t.normal(b.question), t.sha(b.material));
    SamePrefix("corpus|", t.normal(a.question), t.normal(b.question));
  }

  /** No answer has the text of a selection, unless the prompt version is "corpus". */
  lemma AnswersAreNoSelections(t: Tools, a: Source, b: Source)
    requires a.AnswerTo? && b.SelectionFor? && NoBar(a.fields.prompt) && TextOf(t, a) == TextOf(t, b)
    ensures a.fields.prompt == "corpus"
  {
    var k := a.fields;
    FirstTwoOf(k);
    var x, y := k.retrieval + AfterVersions(k), t.normal(b.question) + "|" + t.sha(b.material);
    assert k.prompt + "|" + x == k.prompt + "|" + k.retrieval + AfterVersions(k);
    assert "corpus" + "|" + y == "corpus|" + t.normal(b.question) + "|" + t.sha(b.material);
    SplitAt('|', k.prompt, x, "corpus", y);
  }

  /** Every selection found on any run was kept for the same profile, has not expired, and
      was kept as a selection for the same question, up to case and spacing, among the same
      documents; only under a prompt version "corpus" could it be an answer. */
  lemma ReusedSelectionsAreOurs(t: Tools, states: seq<State>, steps: seq<Step>, n: nat, v: ReuseRecord) returns (w: StoreRecord)
    requires Collisionless(t) && Run(t, states, steps) && n < |states| && v in states[n].reused
    ensures w in states[n].stored && w.row == v.row && w.profile == v.profile && w.row.owner == v.profile.userId && v.at < v.row.expires
    ensures w.source.SelectionFor? ==> t.normal(w.source.question) == t.normal(v.question) && w.source.material == v.material
    ensures w.source.AnswerTo? && NoBar(w.source.fields.prompt) ==> w.source.fields.prompt == "corpus"
  {
    RunKeeps(t, states, steps, n);
    assert SoundReuse(t, states[n].stored, v);
    var mine := SelectionFor(v.question, v.material);
    w := RecordOf(t, states[n].stored, v.row, v.profile, TextOf(t, mine));
    if w.source.SelectionFor? {
      SelectionTextIsInjective(t, w.source, mine);
    } else if NoBar(w.source.fields.prompt) {
      AnswersAreNoSelections(t, w.source, mine);
    }
  }

  /** Storing an answer or a selection replaces no row of another owner, another permissions
      snapshot or another question. */
  lemma UpsertKeepsOthers(t: Tools, states: seq<State>, steps: seq<Step>, n: nat, k: string)
    requires Collisionless(t) && Run(t, states, steps) && n < |steps| && (steps[n].Remember? || steps[n].KeepSelection?)
    requires k in states[n].rows && (k !in states[n + 1].rows || states[n + 1].rows[k] != states[n].rows[k])
    ensures steps[n].id in states[n].requests
    ensures var q, row := states[n].requests[steps[n].id], states[n].rows[k];
            && row.owner == q.profile.userId && row.fingerprint == t.fingerprint(q.profile)
            && row.question == if steps[n].Remember? then QuestionHash(t, q.fields)
                               else t.sha(TextOf(t, SelectionFor(q.fields.question, steps[n].material)))
  {
    RunKeeps(t, states, steps, n);
    assert Next(t, states[n], steps[n], states[n + 1]);
    var s := states[n];
    assert SoundRow(t, s.stored, k, s.rows[k]);
    var q := s.requests[steps[n].id];
    var row := if steps[n].Remember? then RowOf(t, q, steps[n].outcome, s.now)
               else SelectionRow(t, q, steps[n].material, steps[n].selection, s.now + steps[n].lifetime);
    ReplacedRowIsOurs(t, s.stored, k, s.rows[k], row);
  }

  /** Rows of one key have one question and one fingerprint, and so one owner. */
  lemma ReplacedRowIsOurs(t: Tools, stored: seq<StoreRecord>, k: string, row: Row, other: Row)
    requires Collisionless(t) && SoundRow(t, stored, k, row) && k == CacheKey(t, other.question, other.fingerprint)
    requires NoBar(other.question)
    ensures row.question == other.question && row.fingerprint == other.fingerprint
    ensures forall p: Profile | t.fingerprint(p) == other.fingerprint :: row.owner == p.userId
  {
    var i :| 0 <= i < |stored| && stored[i].row == row && SoundStore(t, stored[i]);
    assert row.question + "|" + row.fingerprint == other.question + "|" + other.fingerprint;
    SplitAt('|', row.question, row.fingerprint, other.question, other.fingerprint);
  }

  // ----- the repository -----------------------------------------------------------------------------

  /** The table behind `AIRepository.get_cached` and `cache_answer`. */
  class AnswerTable {
    const tools: Tools
    var rows: map<string, Row>

    constructor (tools: Tools)
      ensures this.tools == tools && rows == map[]
    {
      this.tools := tools;
      rows := map[];
    }

    /** None only where no row matches. `raised` is the exception for several matches. */
    method GetCached(question: string, fingerprint: string, owner: string, now: int) returns (hit: Option<Row>, raised: bool)
      ensures var keys := Matching(rows, question, fingerprint, owner, now);
              raised == (|keys| > 1) && (!raised ==> IsLookup(rows, keys, hit))
      ensures !raised && hit.Some? ==>
                && hit.value in rows.Values && hit.value.question == question && hit.value.fingerprint == fingerprint
                && hit.value.owner == owner && now < hit.value.expires
      ensures !raised && hit.None? ==>
                forall k | k in rows :: rows[k].question != question || rows[k].fingerprint != fingerprint || rows[k].owner != owner || rows[k].expires <= now
    {
      var keys := Matching(rows, question, fingerprint, owner, now);
      hit, raised := None, |keys| > 1;
      if keys != {} {
        var k :| k in keys;
        hit := Some(rows[k]);
      } else {
        assert forall k | k in rows :: k !in keys;
      }
    }

    /** The row takes the place of its key and no other key changes. Where every row sits
        under its own key, this stays so, and until it expires a lookup by its question,
        fingerprint and owner finds it and nothing else. */
    method CacheAnswer(row: Row)
      modifies this`rows
      ensures rows == Upsert(tools, old(rows), row)
      ensures var key := CacheKey(tools, row.question, row.fingerprint);
              && key in rows && rows[key] == row && rows.Keys == old(rows).Keys + {key}
              && (forall other | other in old(rows) && other != key :: rows[other] == old(rows)[other])
              && (Keyed(tools, old(rows)) ==>
                    Keyed(tools, rows) && forall now | now < row.expires ::
                      Matching(rows, row.question, row.fingerprint, row.owner, now) == {key})
    {
      rows := rows[CacheKey(tools, row.question, row.fingerprint) := row];
    }
  }
}
