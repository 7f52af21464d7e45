/** When generated text may be used again: the citation and permission checks on earlier
    assistant turns and on cached answers. */
module CitationChecks {
  import opened Options

  /** What is not modelled here: the citation ids a text mentions, and reading a chunk id
      (`uuid.UUID`, giving its canonical text). */
  datatype Reader = Reader(markers: string -> set<string>, uuid: string -> Option<string>)

  /** One element of a stored citation list. `chunkId` is "" when missing. */
  datatype Cited = NotAnObject | Cited(source: string, chunkId: string)

  /** A stored message; `citations` is None where the stored text is not a JSON list. */
  datatype Turn = Turn(role: string, content: string, grounded: string, citations: Option<seq<Cited>>)

  function Own(r: Reader, c: Cited): set<string> {
    if c.Cited? then r.markers("[" + c.source + "]") else {}
  }

  predicate WellFormed(r: Reader, c: Cited) {
    c.Cited? && c.chunkId != "" && |Own(r, c)| == 1 && r.uuid(c.chunkId).Some?
  }

  predicate AllWellFormed(r: Reader, items: seq<Cited>) {
    forall c | c in items :: WellFormed(r, c)
  }

  /** The markers a citation list declares. */
  function Declared(r: Reader, items: seq<Cited>): set<string> {
    if items == [] then {} else Declared(r, items[..|items| - 1]) + Own(r, items[|items| - 1])
  }

  function Id(r: Reader, c: Cited): string {
    if c.Cited? && r.uuid(c.chunkId).Some? then r.uuid(c.chunkId).value else ""
  }

  function Ids(r: Reader, items: seq<Cited>): (ids: seq<string>)
    ensures |ids| == |items| && forall i | 0 <= i < |ids| :: ids[i] == Id(r, items[i])
  {
    seq(|items|, i requires 0 <= i < |items| => Id(r, items[i]))
  }

  function Text(t: Turn): string {
    if t.grounded != "" then t.grounded else t.content
  }

  /** The turn cites exactly the markers its text uses, and every citation can be read. */
  predicate Accountable(r: Reader, t: Turn) {
    && t.citations.Some? && t.citations.value != []
    && AllWellFormed(r, t.citations.value)
    && Declared(r, t.citations.value) == r.markers(Text(t))
  }

  predicate Readable(r: Reader, items: seq<Cited>, readable: set<string>) {
    forall c | c in items :: Id(r, c) in readable
  }

  /** A turn that may be shown to the model again. */
  predicate Reusable(r: Reader, readable: set<string>, t: Turn) {
    || t.role == "user"
    || (t.role == "assistant" && Accountable(r, t) && Readable(r, t.citations.value, readable))
  }

  function ReusableTurns(r: Reader, readable: set<string>, turns: seq<Turn>): seq<Turn> {
    if turns == [] then []
    else
      var before := ReusableTurns(r, readable, turns[..|turns| - 1]);
      var t := turns[|turns| - 1];
      if Reusable(r, readable, t) then before + [t] else before
  }

  // ----- one citation list ------------------------------------------------------------------

  lemma WellFormedPrefix(r: Reader, items: seq<Cited>, i: nat)
    requires i < |items|
    ensures AllWellFormed(r, items[..i + 1]) <==> AllWellFormed(r, items[..i]) && WellFormed(r, items[i])
    ensures Declared(r, items[..i + 1]) == Declared(r, items[..i]) + Own(r, items[i])
    ensures Ids(r, items[..i + 1]) == Ids(r, items[..i]) + [Id(r, items[i])]
  {
    assert items[..i + 1] == items[..i] + [items[i]];
    assert items[..i + 1][..i] == items[..i];
  }

  lemma MalformedSpoils(r: Reader, items: seq<Cited>, i: nat)
    requires i < |items| && !WellFormed(r, items[i])
    ensures !AllWellFormed(r, items)
  {
    assert items[i] in items;
  }

  /** Reading a citation list up to the first malformed element: the loop both checks share. */
  method ReadCitations(r: Reader, items: seq<Cited>) returns (ok: bool, ids: seq<string>, declared: set<string>)
    ensures ok <==> AllWellFormed(r, items)
    ensures ok ==> ids == Ids(r, items) && declared == Declared(r, items)
  {
    ok, ids, declared := true, [], {};
    for i := 0 to |items|
      invariant ok && AllWellFormed(r, items[..i])
      invariant ids == Ids(r, items[..i]) && declared == Declared(r, items[..i])
    {
      WellFormedPrefix(r, items, i);
      var item := items[i];
      if item.NotAnObject? || item.chunkId == "" {
        MalformedSpoils(r, items, i);
        return false, [], declared;
      }
      var marker := r.markers("[" + item.source + "]");
      if |marker| != 1 {
        MalformedSpoils(r, items, i);
        return false, [], declared;
      }
      declared := declared + marker;
      if r.uuid(item.chunkId).None? {
        MalformedSpoils(r, items, i);
        return false, [], declared;
      }
      ids := ids + [r.uuid(item.chunkId).value];
    }
    assert items[..|items|] == items;
  }

  // ----- the history --------------------------------------------------------------------------

  /** What the first loop files for the turns read so far. */
  ghost predicate FiledTurns(r: Reader, turns: seq<Turn>, n: nat, filed: map<nat, seq<string>>, all: seq<string>)
    requires n <= |turns|
  {
    && (forall i | 0 <= i < n :: i in filed <==> turns[i].role == "assistant" && Accountable(r, turns[i]))
    && (forall i | i in filed :: i < n && turns[i].citations.Some? && filed[i] == Ids(r, turns[i].citations.value))
    && (forall i, id | i in filed && id in filed[i] :: id in all)
  }

  /** What the permission query answers about the ids it was asked. */
  function Authorized(asked: seq<string>, readable: set<string>): set<string> {
    set id | id in asked && id in readable
  }

  /** Asking about all turns at once decides each turn as asking about it alone would. */
  lemma AskedTogether(r: Reader, items: seq<Cited>, all: seq<string>, readable: set<string>)
    requires forall id | id in Ids(r, items) :: id in all
    ensures (forall id | id in Ids(r, items) :: id in Authorized(all, readable)) <==> Readable(r, items, readable)
  {
    var ids := Ids(r, items);
    if forall id | id in ids :: id in Authorized(all, readable) {
      forall c | c in items ensures Id(r, c) in readable {
        var i :| 0 <= i < |items| && items[i] == c;
        assert ids[i] in ids;
      }
    }
    if Readable(r, items, readable) {
      forall id | id in ids ensures id in Authorized(all, readable) {
        var i :| 0 <= i < |ids| && ids[i] == id;
        assert items[i] in items;
      }
    }
  }

  /** The first loop of `_authorized_conversation_history`. */
  method FileTurns(r: Reader, turns: seq<Turn>) returns (filed: map<nat, seq<string>>, all: seq<string>)
    ensures FiledTurns(r, turns, |turns|, filed, all)
  {
    filed, all := map[], [];
    for i := 0 to |turns|
      invariant FiledTurns(r, turns, i, filed, all)
    {
      var t := turns[i];
      if t.role != "assistant" || t.citations.None? || t.citations.value == [] {
        continue;
      }
      var ok, ids, stored := ReadCitations(r, t.citations.value);
      if r.markers(Text(t)) != stored {
        ids := [];
      }
      if ok && ids != [] {
        filed := filed[i := ids];
        all := all + ids;
      }
    }
  }

  /** `_authorized_conversation_history`: exactly the reusable turns, in their order. */
  method AuthorizedConversationHistory(r: Reader, turns: seq<Turn>, readable: set<string>) returns (safe: seq<Turn>)
    ensures safe == ReusableTurns(r, readable, turns)
  {
    var filed, all := FileTurns(r, turns);
    var authorized := Authorized(all, readable);
    safe := [];
    for i := 0 to |turns|
      invariant safe == ReusableTurns(r, readable, turns[..i])
    {
      var t := turns[i];
      assert turns[..i + 1][..i] == turns[..i];
      if t.role == "user" {
        safe := safe + [t];
      } else if t.role == "assistant" && i in filed {
        AskedTogether(r, t.citations.value, all, readable);
        if forall id | id in filed[i] :: id in authorized {
          safe := safe + [t];
        }
      }
    }
    assert turns[..|turns|] == turns;
  }

  lemma {:induction false} DeclaredIff(r: Reader, items: seq<Cited>, m: string)
    ensures m in Declared(r, items) <==> exists c | c in items :: c.Cited? && m in r.markers("[" + c.source + "]")
  {
    if items != [] {
      assert items == items[..|items| - 1] + [items[|items| - 1]];
      DeclaredIff(r, items[..|items| - 1], m);
    }
  }

  /** A citation that can be followed: it names one marker and has a chunk id that reads. */
  predicate Follows(r: Reader, c: Cited) {
    c.Cited? && c.chunkId != "" && |r.markers("[" + c.source + "]")| == 1 && r.uuid(c.chunkId).Some?
  }

  lemma {:induction false} KeptIffReusable(r: Reader, readable: set<string>, turns: seq<Turn>, t: Turn)
    ensures t in ReusableTurns(r, readable, turns) <==> t in turns && Reusable(r, readable, t)
  {
    if turns != [] {
      assert turns == turns[..|turns| - 1] + [turns[|turns| - 1]];
      KeptIffReusable(r, readable, turns[..|turns| - 1], t);
    }
  }

  /** No text resting on a chunk the user may not read now reaches the model. A turn is kept
      exactly when it is in the history and is the user's, or the assistant's with a list of
      citations that is not empty, each of which can be followed to a chunk readable now, and
      whose markers together are those of the text shown. */
  lemma KeptTurnsAreReadable(r: Reader, readable: set<string>, turns: seq<Turn>, t: Turn)
    ensures t in ReusableTurns(r, readable, turns) <==>
            && t in turns
            && (t.role == "user" ||
                (&& t.role == "assistant" && t.citations.Some? && t.citations.value != []
                 && LeadTo(r, t.citations.value, readable)
                 && (var used := r.markers(if t.grounded != "" then t.grounded else t.content);
                     NamesAll(r, t.citations.value, used) && NamesOnly(r, t.citations.value, used))))
  {
    KeptIffReusable(r, readable, turns, t);
    if t.citations.Some? {
      MarkersCovered(r, r.markers(Text(t)), t.citations.value);
      LeadToIff(r, t.citations.value, readable);
    }
  }

  /** Each citation can be followed to a chunk readable now. */
  predicate LeadTo(r: Reader, items: seq<Cited>, readable: set<string>) {
    forall c | c in items :: Follows(r, c) && r.uuid(c.chunkId).value in readable
  }

  /** Every marker used is named by some citation, and no other marker is. */
  predicate NamesAll(r: Reader, items: seq<Cited>, used: set<string>) {
    forall m | m in used :: exists c | c in items :: c.Cited? && m in r.markers("[" + c.source + "]")
  }

  predicate NamesOnly(r: Reader, items: seq<Cited>, used: set<string>) {
    forall c | c in items :: c.Cited? ==> r.markers("[" + c.source + "]") <= used
  }

  lemma LeadToIff(r: Reader, items: seq<Cited>, readable: set<string>)
    ensures LeadTo(r, items, readable) <==> AllWellFormed(r, items) && Readable(r, items, readable)
  {
  }

  /** Markers are declared, and declared ones are among them, element by element. */
  lemma MarkersCovered(r: Reader, used: set<string>, items: seq<Cited>)
    ensures used <= Declared(r, items) <==> NamesAll(r, items, used)
    ensures Declared(r, items) <= used <==> NamesOnly(r, items, used)
  {
    forall m ensures m in Declared(r, items) <==> exists c | c in items :: c.Cited? && m in r.markers("[" + c.source + "]") {
      DeclaredIff(r, items, m);
    }
  }

  /** Kept turns stay in their order: turn `k` of the result has `k` kept turns before it. */
  lemma {:induction false} KeptTurnsInOrder(r: Reader, readable: set<string>, turns: seq<Turn>, k: nat) returns (i: nat)
    requires k < |ReusableTurns(r, readable, turns)|
    ensures i < |turns| && ReusableTurns(r, readable, turns)[k] == turns[i] && |ReusableTurns(r, readable, turns[..i])| == k
  {
    var n := |turns| - 1;
    if k < |ReusableTurns(r, readable, turns[..n])| {
      i := KeptTurnsInOrder(r, readable, turns[..n], k);
      assert turns[..n][..i] == turns[..i];
    } else {
      i := n;
    }
  }

  /** Losing permissions never lets a turn back in. */
  lemma {:induction false} RevokingOnlyRemoves(r: Reader, before: set<string>, after: set<string>, turns: seq<Turn>)
    requires after <= before
    ensures ReusableTurns(r, after, turns) == ReusableTurns(r, after, ReusableTurns(r, before, turns))
  {
    if turns != [] {
      var n := |turns| - 1;
      RevokingOnlyRemoves(r, before, after, turns[..n]);
      var kept := ReusableTurns(r, before, turns[..n]);
      assert (kept + [turns[n]])[..|kept|] == kept;
    }
  }

  // ----- a cached answer ----------------------------------------------------------------------

  /** A cached answer stands when it uses markers, declares them all, and every chunk it
      cites is readable under the very id text that was stored. */
  predicate Stands(r: Reader, grounded: string, citations: Option<seq<Cited>>, readable: set<string>) {
    && citations.Some? && citations.value != []
    && AllWellFormed(r, citations.value)
    && r.markers(grounded) != {} && r.markers(grounded) <= Declared(r, citations.value)
    && forall c | c in citations.value :: c.chunkId in Authorized(Ids(r, citations.value), readable)
  }

  /** The list is not empty, each citation can be followed, the id text of each is readable now
      and is what the id of one of them reads to, and the text uses markers and only such as
      the list names. */
  predicate Backed(r: Reader, grounded: string, items: seq<Cited>, readable: set<string>) {
    && items != [] && (forall c | c in items :: Follows(r, c)) && ReadBack(r, items, readable)
    && r.markers(grounded) != {} && NamesAll(r, items, r.markers(grounded))
  }

  /** A cached answer stands exactly when it is backed by a list of citations. */
  lemma StandsInFull(r: Reader, grounded: string, citations: Option<seq<Cited>>, readable: set<string>)
    ensures Stands(r, grounded, citations, readable) <==> citations.Some? && Backed(r, grounded, citations.value, readable)
  {
    if citations.Some? {
      MarkersCovered(r, r.markers(grounded), citations.value);
      FollowsIff(r, citations.value);
      if AllWellFormed(r, citations.value) {
        CitedAreAuthorized(r, citations.value, readable);
      }
    }
  }

  /** The id text of each citation is readable now, and what the id of one of them reads to. */
  predicate ReadBack(r: Reader, items: seq<Cited>, readable: set<string>) {
    forall c | c in items :: c.Cited? ==>
      c.chunkId in readable && exists d | d in items :: d.Cited? && r.uuid(d.chunkId) == Some(c.chunkId)
  }

  lemma FollowsIff(r: Reader, items: seq<Cited>)
    ensures AllWellFormed(r, items) <==> forall c | c in items :: Follows(r, c)
  {
  }

  lemma CitedAreAuthorized(r: Reader, items: seq<Cited>, readable: set<string>)
    requires AllWellFormed(r, items)
    ensures (forall c | c in items :: c.chunkId in Authorized(Ids(r, items), readable)) <==> ReadBack(r, items, readable)
  {
    forall c | c in items
      ensures c.chunkId in Ids(r, items) <==> exists d | d in items :: d.Cited? && r.uuid(d.chunkId) == Some(c.chunkId)
    {
      IdsIff(r, items, c.chunkId);
    }
  }

  lemma IdsIff(r: Reader, items: seq<Cited>, id: string)
    requires AllWellFormed(r, items)
    ensures id in Ids(r, items) <==> exists d | d in items :: d.Cited? && r.uuid(d.chunkId) == Some(id)
  {
    if id in Ids(r, items) {
      var i :| 0 <= i < |items| && Ids(r, items)[i] == id;
      assert items[i] in items && WellFormed(r, items[i]);
    }
    if d :| d in items && d.Cited? && r.uuid(d.chunkId) == Some(id) {
      var i :| 0 <= i < |items| && items[i] == d;
      assert Ids(r, items)[i] == id;
    }
  }

  /** The validation of a cache hit in `ask`. */
  method CachedAnswerStands(r: Reader, grounded: string, citations: Option<seq<Cited>>, readable: set<string>) returns (hit: bool)
    ensures hit <==> Stands(r, grounded, citations, readable)
  {
    var valid := citations.Some? && citations.value != [];
    var ids: seq<string>, declared: set<string> := [], {};
    if valid {
      valid, ids, declared := ReadCitations(r, citations.value);
    }
    var used := r.markers(grounded);
    if used == {} || !(used <= declared) {
      valid := false;
    }
    var authorized := if valid then Authorized(ids, readable) else {};
    hit := valid && forall c | c in citations.value :: c.chunkId in authorized;
  }
}
