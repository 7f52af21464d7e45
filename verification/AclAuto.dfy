/** Resolving provider principals without an administrator: the passes that fill one result,
    against what each principal alone deserves. */
module AclAuto {
  import opened Options
  import opened PrincipalNames
  import opened Texts

  /** A principal of the provider's access list. `emails` are its addresses and `words` its
      normalised group name; "" stands for a missing type, id or name. */
  datatype Principal = Principal(kind: string, id: string, name: string, emails: seq<string>, words: seq<string>)

  datatype Via = Company(name: string) | ByEmail(name: string, user: string) | ByName(name: string, department: string)

  /** `AutoResolution`. */
  datatype Resolution = Resolution(
    users: map<string, string>,
    departments: set<string>,
    resolved: map<string, Via>,
    withoutAccount: set<string>,
    ignored: set<string>)

  /** What the passes look up: the active accounts of the connector's company by lower-cased
      address, its active departments, and the two kinds of earlier decision. */
  datatype Directory = Directory(
    accounts: map<string, string>,
    departments: seq<Department>,
    alreadyResolved: set<(string, string)>,
    matchedUsers: set<string>)

  function Kind(p: Principal): string { if p.kind == "" then "unknown" else p.kind }

  function Key(p: Principal): string { Kind(p) + ":" + p.id }

  predicate Person(p: Principal) { Kind(p) == "user" || Kind(p) == "siteUser" }

  predicate Group(p: Principal) { Kind(p) == "group" || Kind(p) == "siteGroup" }

  predicate CompanyLink(id: string) { id == "link:organization" || id == "link:anonymous" }

  predicate WholeCompany(p: Principal) { Kind(p) == "domain" || CompanyLink(p.id) }

  predicate GrantsNothing(p: Principal) {
    Kind(p) == "application" || Kind(p) == "device" || Kind(p) == "unknown" || (Kind(p) == "link" && !CompanyLink(p.id))
  }

  predicate Waiting(dir: Directory, p: Principal) {
    p.id != "" && (Kind(p), p.id) !in dir.alreadyResolved
  }

  // ----- what one principal deserves ----------------------------------------------------------

  datatype Verdict = Resolved(via: Via) | Nothing | NoAccount | KnownIdentity | LeftForAdministrator

  function FirstAccount(accounts: map<string, string>, emails: seq<string>): Option<string> {
    if emails == [] then None
    else if emails[0] in accounts then Some(accounts[emails[0]])
    else FirstAccount(accounts, emails[1..])
  }

  /** The account with one of the addresses, best address first. */
  function Hit(dir: Directory, p: Principal): Option<string> {
    var hit := FirstAccount(dir.accounts, p.emails);
    if hit == Some("") then None else hit
  }

  function Target(dir: Directory, p: Principal): Option<string> {
    var target := MatchDepartment(p.words, dir.departments);
    if target == Some("") then None else target
  }

  function VerdictOn(dir: Directory, p: Principal): Verdict {
    if WholeCompany(p) then Resolved(Company(p.name))
    else if GrantsNothing(p) then Nothing
    else if Person(p) then
      if p.id in dir.matchedUsers then KnownIdentity
      else if Hit(dir, p).Some? then Resolved(ByEmail(p.name, Hit(dir, p).value))
      else NoAccount
    else if Group(p) && Target(dir, p).Some? then Resolved(ByName(p.name, Target(dir, p).value))
    else LeftForAdministrator
  }

  // ----- the passes ---------------------------------------------------------------------------

  /** Whole-organisation principals, and ones that grant nothing. */
  function CompanyOne(r: Resolution, p: Principal): Resolution {
    if WholeCompany(p) then r.(resolved := r.resolved[Key(p) := Company(p.name)])
    else if GrantsNothing(p) then r.(ignored := r.ignored + {Key(p)})
    else r
  }

  /** A person not matched by identity. */
  function PersonOne(dir: Directory, r: Resolution, p: Principal): Resolution {
    if !Person(p) || p.id in dir.matchedUsers then r
    else if Hit(dir, p).Some? then
      r.(users := r.users[p.id := Hit(dir, p).value], resolved := r.resolved[Key(p) := ByEmail(p.name, Hit(dir, p).value)])
    else r.(withoutAccount := r.withoutAccount + {p.id})
  }

  function GroupOne(dir: Directory, r: Resolution, p: Principal): Resolution {
    if !Group(p) || Target(dir, p).None? then r
    else
      r.(departments := r.departments + {Target(dir, p).value}, resolved := r.resolved[Key(p) := ByName(p.name, Target(dir, p).value)])
  }

  function CompanyPass(ps: seq<Principal>, r: Resolution): Resolution {
    if ps == [] then r else CompanyOne(CompanyPass(ps[..|ps| - 1], r), ps[|ps| - 1])
  }

  function PeoplePass(dir: Directory, ps: seq<Principal>, r: Resolution): Resolution {
    if ps == [] then r else PersonOne(dir, PeoplePass(dir, ps[..|ps| - 1], r), ps[|ps| - 1])
  }

  function GroupPass(dir: Directory, ps: seq<Principal>, r: Resolution): Resolution {
    if ps == [] then r else GroupOne(dir, GroupPass(dir, ps[..|ps| - 1], r), ps[|ps| - 1])
  }

  function Pending(dir: Directory, ps: seq<Principal>): seq<Principal> {
    if ps == [] then []
    else
      var before := Pending(dir, ps[..|ps| - 1]);
      if Waiting(dir, ps[|ps| - 1]) then before + [ps[|ps| - 1]] else before
  }

  predicate WantsCompany(ps: seq<Principal>) {
    exists p | p in ps :: WholeCompany(p)
  }

  function AllDepartments(dir: Directory): set<string> {
    set d | d in dir.departments :: d.id
  }

  const EMPTY: Resolution := Resolution(map[], {}, map[], {}, {})

  function Resolve(dir: Directory, principals: seq<Principal>): Resolution {
    var ps := Pending(dir, principals);
    var r := GroupPass(dir, ps, PeoplePass(dir, ps, CompanyPass(ps, EMPTY)));
    if WantsCompany(ps) then r.(departments := r.departments + AllDepartments(dir)) else r
  }

  // ----- keys ----------------------------------------------------------------------------------

  predicate Plain(p: Principal) { ':' !in Kind(p) }

  /** `type:id` determines both where the type holds no colon. */
  lemma KeyIsInjective(p: Principal, q: Principal)
    requires Plain(p) && Plain(q) && Key(p) == Key(q)
    ensures Kind(p) == Kind(q) && p.id == q.id
  {
    SplitAt(':', Kind(p), p.id, Kind(q), q.id);
  }

  /** No other principal of the list shares an id or a key with `p`. */
  ghost predicate Unmistakable(ps: seq<Principal>, p: Principal) {
    Plain(p) && forall q | q in ps :: Plain(q) && (p.id == q.id ==> p == q)
  }

  /** Distinct ids, and types without a colon. */
  ghost predicate WellKept(ps: seq<Principal>) {
    forall p | p in ps :: Unmistakable(ps, p)
  }

  // ----- what a result says of one principal ---------------------------------------------------

  datatype Entry = Entry(via: Option<Via>, ignored: bool, user: Option<string>, noAccount: bool)

  const BLANK: Entry := Entry(None, false, None, false)

  function View(r: Resolution, p: Principal): Entry {
    Entry(if Key(p) in r.resolved then Some(r.resolved[Key(p)]) else None,
          Key(p) in r.ignored,
          if p.id in r.users then Some(r.users[p.id]) else None,
          p.id in r.withoutAccount)
  }

  /** The one entry a verdict leaves. */
  function EntryOf(v: Verdict): Entry {
    match v
    case Resolved(via) => BLANK.(via := Some(via), user := if via.ByEmail? then Some(via.user) else None)
    case Nothing => BLANK.(ignored := true)
    case NoAccount => BLANK.(noAccount := true)
    case KnownIdentity => BLANK
    case LeftForAdministrator => BLANK
  }

  /** The passes as seen from one principal. */
  function CompanyView(p: Principal, e: Entry): Entry {
    if WholeCompany(p) then e.(via := Some(Company(p.name)))
    else if GrantsNothing(p) then e.(ignored := true)
    else e
  }

  function PersonView(dir: Directory, p: Principal, e: Entry): Entry {
    if !Person(p) || p.id in dir.matchedUsers then e
    else if Hit(dir, p).Some? then e.(user := Hit(dir, p), via := Some(ByEmail(p.name, Hit(dir, p).value)))
    else e.(noAccount := true)
  }

  function GroupView(dir: Directory, p: Principal, e: Entry): Entry {
    if !Group(p) || Target(dir, p).None? then e else e.(via := Some(ByName(p.name, Target(dir, p).value)))
  }

  /** Turning to another principal leaves this one's entry alone. */
  lemma OneTurn(dir: Directory, r: Resolution, p: Principal, q: Principal)
    requires Plain(p) && Plain(q) && (p.id == q.id ==> p == q)
    ensures View(CompanyOne(r, q), p) == if p == q then CompanyView(p, View(r, p)) else View(r, p)
    ensures View(PersonOne(dir, r, q), p) == if p == q then PersonView(dir, p, View(r, p)) else View(r, p)
    ensures View(GroupOne(dir, r, q), p) == if p == q then GroupView(dir, p, View(r, p)) else View(r, p)
  {
    if Key(p) == Key(q) {
      KeyIsInjective(p, q);
    }
  }

  /** A whole pass does to a principal what its own turn does, wherever that turn comes. */
  lemma {:induction false} CompanyPassAt(dir: Directory, ps: seq<Principal>, r: Resolution, p: Principal)
    requires Unmistakable(ps, p)
    ensures View(CompanyPass(ps, r), p) == if p in ps then CompanyView(p, View(r, p)) else View(r, p)
  {
    if ps != [] {
      var n := |ps| - 1;
      assert ps == ps[..n] + [ps[n]];
      CompanyPassAt(dir, ps[..n], r, p);
      OneTurn(dir, CompanyPass(ps[..n], r), p, ps[n]);
    }
  }

  lemma {:induction false} PeoplePassAt(dir: Directory, ps: seq<Principal>, r: Resolution, p: Principal)
    requires Unmistakable(ps, p)
    ensures View(PeoplePass(dir, ps, r), p) == if p in ps then PersonView(dir, p, View(r, p)) else View(r, p)
  {
    if ps != [] {
      var n := |ps| - 1;
      assert ps == ps[..n] + [ps[n]];
      PeoplePassAt(dir, ps[..n], r, p);
      OneTurn(dir, PeoplePass(dir, ps[..n], r), p, ps[n]);
    }
  }

  lemma {:induction false} GroupPassAt(dir: Directory, ps: seq<Principal>, r: Resolution, p: Principal)
    requires Unmistakable(ps, p)
    ensures View(GroupPass(dir, ps, r), p) == if p in ps then GroupView(dir, p, View(r, p)) else View(r, p)
  {
    if ps != [] {
      var n := |ps| - 1;
      assert ps == ps[..n] + [ps[n]];
      GroupPassAt(dir, ps[..n], r, p);
      OneTurn(dir, GroupPass(dir, ps[..n], r), p, ps[n]);
    }
  }

  lemma {:induction false} PendingIff(dir: Directory, ps: seq<Principal>, p: Principal)
    ensures p in Pending(dir, ps) <==> p in ps && Waiting(dir, p)
  {
    if ps != [] {
      assert ps == ps[..|ps| - 1] + [ps[|ps| - 1]];
      PendingIff(dir, ps[..|ps| - 1], p);
    }
  }

  /** A person or a matched group whose id is one of the two company links. */
  predicate Overlaps(dir: Directory, p: Principal) {
    CompanyLink(p.id) && ((Person(p) && p.id !in dir.matchedUsers) || (Group(p) && Target(dir, p).Some?))
  }

  /** For one principal the three passes together leave its verdict's entry, and nothing
      else, exactly when the company test and a later pass do not both take it. */
  lemma ViewsCompose(dir: Directory, p: Principal)
    ensures GroupView(dir, p, PersonView(dir, p, CompanyView(p, BLANK))) == EntryOf(VerdictOn(dir, p)) <==> !Overlaps(dir, p)
  {
  }

  lemma DepartmentsAreNotViewed(r: Resolution, more: set<string>, p: Principal)
    ensures View(r.(departments := r.departments + more), p) == View(r, p)
  {
  }

  lemma ThreePasses(dir: Directory, principals: seq<Principal>, p: Principal)
    requires WellKept(principals) && p in principals
    ensures View(Resolve(dir, principals), p) ==
            if Waiting(dir, p) then GroupView(dir, p, PersonView(dir, p, CompanyView(p, BLANK))) else BLANK
  {
    var ps := Pending(dir, principals);
    assert Unmistakable(principals, p);
    forall q | q in ps ensures q in principals {
      PendingIff(dir, principals, q);
    }
    PendingIff(dir, principals, p);
    var r1 := CompanyPass(ps, EMPTY);
    var r2 := PeoplePass(dir, ps, r1);
    CompanyPassAt(dir, ps, EMPTY, p);
    PeoplePassAt(dir, ps, r1, p);
    GroupPassAt(dir, ps, r2, p);
    assert View(EMPTY, p) == BLANK;
    DepartmentsAreNotViewed(GroupPass(dir, ps, r2), AllDepartments(dir), p);
  }

  /** Every waiting principal lands in exactly one place, the one it alone deserves: resolved,
      granting nothing, a person without an account, already matched by identity, or left for
      an administrator. This fails exactly for a person or matched group whose id is a company
      link, which lands twice. A principal that an explicit mapping has settled is not touched. */
  lemma EachLandsOnce(dir: Directory, principals: seq<Principal>, p: Principal)
    requires WellKept(principals) && p in principals
    ensures Waiting(dir, p) ==> (View(Resolve(dir, principals), p) == EntryOf(VerdictOn(dir, p)) <==> !Overlaps(dir, p))
    ensures !Waiting(dir, p) ==> View(Resolve(dir, principals), p) == BLANK
  {
    ThreePasses(dir, principals, p);
    ViewsCompose(dir, p);
  }

  // ----- in the fields of the result -----------------------------------------------------------------

  /** The first address with an account is the one at `i`. */
  predicate FirstWithAccount(accounts: map<string, string>, emails: seq<string>, i: nat) {
    i < |emails| && emails[i] in accounts && forall j | 0 <= j < i :: emails[j] !in accounts
  }

  lemma {:induction false} FirstAccountIff(accounts: map<string, string>, emails: seq<string>) returns (i: nat)
    ensures FirstAccount(accounts, emails).Some? ==>
              FirstWithAccount(accounts, emails, i) && FirstAccount(accounts, emails).value == accounts[emails[i]]
    ensures FirstAccount(accounts, emails).None? <==> forall j | 0 <= j < |emails| :: emails[j] !in accounts
  {
    i := 0;
    if emails != [] && emails[0] !in accounts {
      var k := FirstAccountIff(accounts, emails[1..]);
      i := k + 1;
      assert forall j | 0 <= j < |emails| - 1 :: emails[1..][j] == emails[j + 1];
    }
  }

  predicate LinkToAll(id: string) { id == "link:organization" || id == "link:anonymous" }

  /** A person without a known identity gets the account of the first of its addresses that
      has one, or is recorded as without one. */
  lemma PersonIsRecorded(dir: Directory, principals: seq<Principal>, p: Principal, i: nat)
    requires WellKept(principals) && p in principals && p.id != "" && (p.kind == "user" || p.kind == "siteUser") && !LinkToAll(p.id)
    requires (p.kind, p.id) !in dir.alreadyResolved && p.id !in dir.matchedUsers
    ensures var r, key := Resolve(dir, principals), p.kind + ":" + p.id;
            && (FirstWithAccount(dir.accounts, p.emails, i) && dir.accounts[p.emails[i]] != "" ==>
                  && p.id in r.users && r.users[p.id] == dir.accounts[p.emails[i]] && p.id !in r.withoutAccount
                  && key in r.resolved && r.resolved[key] == ByEmail(p.name, dir.accounts[p.emails[i]]))
            && ((forall j | 0 <= j < |p.emails| :: p.emails[j] !in dir.accounts) ==>
                  p.id !in r.users && key !in r.resolved && p.id in r.withoutAccount)
  {
    EachLandsOnce(dir, principals, p);
    var k := FirstAccountIff(dir.accounts, p.emails);
    assert View(Resolve(dir, principals), p) == EntryOf(VerdictOn(dir, p));
  }

  /** The department alone carries this name. */
  predicate Alone(departments: seq<Department>, words: seq<string>, d: Department) {
    words != [] && d in departments && d.name == words && forall e | e in departments && e.name == words :: e.id == d.id
  }

  lemma AloneIff(departments: seq<Department>, words: seq<string>)
    requires DistinctDepartments(departments)
    ensures forall d | Alone(departments, words, d) :: MatchDepartment(words, departments) == Some(d.id)
    ensures MatchDepartment(words, departments).Some? ==> Alone(departments, words, Department(MatchDepartment(words, departments).value, words))
  {
    forall d | Alone(departments, words, d) ensures MatchDepartment(words, departments) == Some(d.id) {
      MatchIffOnlyOne(words, departments, d.id);
    }
    if MatchDepartment(words, departments).Some? {
      MatchIffOnlyOne(words, departments, MatchDepartment(words, departments).value);
    }
  }

  /** A group gets the one department that carries its name, and none where no department or
      several do. */
  lemma GroupIsRecorded(dir: Directory, principals: seq<Principal>, p: Principal)
    requires WellKept(principals) && p in principals && p.id != "" && (p.kind == "group" || p.kind == "siteGroup") && !LinkToAll(p.id)
    requires (p.kind, p.id) !in dir.alreadyResolved && DistinctDepartments(dir.departments) && forall d | d in dir.departments :: d.id != ""
    ensures var r, key := Resolve(dir, principals), p.kind + ":" + p.id;
            && (forall d | Alone(dir.departments, p.words, d) ::
                  d.id in r.departments && key in r.resolved && r.resolved[key] == ByName(p.name, d.id))
            && ((forall d | d in dir.departments :: !Alone(dir.departments, p.words, d)) ==> key !in r.resolved)
  {
    EachLandsOnce(dir, principals, p);
    AloneIff(dir.departments, p.words);
    GroupIsGranted(dir, principals, p);
  }

  lemma GroupIsGranted(dir: Directory, principals: seq<Principal>, p: Principal)
    requires WellKept(principals) && p in principals && p.id != "" && (p.kind == "group" || p.kind == "siteGroup") && !LinkToAll(p.id)
    requires (p.kind, p.id) !in dir.alreadyResolved && DistinctDepartments(dir.departments)
    ensures Target(dir, p).Some? ==> Target(dir, p).value in Resolve(dir, principals).departments
  {
    PendingIff(dir, principals, p);
    if Target(dir, p).Some? {
      GrantedDepartments(dir, principals, Target(dir, p).value);
    }
  }

  /** The whole organisation, and links open to it or beyond, mean every active department;
      applications, devices, principals of no type and other links mean nothing. */
  lemma OthersAreRecorded(dir: Directory, principals: seq<Principal>, p: Principal)
    requires WellKept(principals) && p in principals && p.id != "" && DistinctDepartments(dir.departments)
    requires var kind := if p.kind == "" then "unknown" else p.kind; (kind, p.id) !in dir.alreadyResolved
    ensures var r, kind := Resolve(dir, principals), if p.kind == "" then "unknown" else p.kind;
            var key := kind + ":" + p.id;
            && (kind == "domain" || (LinkToAll(p.id) && kind !in ["user", "siteUser", "group", "siteGroup"]) ==>
                  key in r.resolved && r.resolved[key] == Company(p.name) && forall d | d in dir.departments :: d.id in r.departments)
            && (!LinkToAll(p.id) && kind in ["application", "device", "unknown", "link"] ==> key in r.ignored && key !in r.resolved)
  {
    EachLandsOnce(dir, principals, p);
    PendingIff(dir, principals, p);
    forall d | d in dir.departments && WholeCompany(p) ensures d.id in Resolve(dir, principals).departments {
      GrantedDepartments(dir, principals, d.id);
    }
  }

  // ----- granted departments ---------------------------------------------------------------------

  predicate NamedBy(dir: Directory, ps: seq<Principal>, id: string) {
    exists p | p in ps :: Group(p) && Target(dir, p) == Some(id)
  }

  lemma {:induction false} CompanyPassDepartments(ps: seq<Principal>, r: Resolution)
    ensures CompanyPass(ps, r).departments == r.departments
  {
    if ps != [] {
      CompanyPassDepartments(ps[..|ps| - 1], r);
    }
  }

  lemma {:induction false} PeoplePassDepartments(dir: Directory, ps: seq<Principal>, r: Resolution)
    ensures PeoplePass(dir, ps, r).departments == r.departments
  {
    if ps != [] {
      PeoplePassDepartments(dir, ps[..|ps| - 1], r);
    }
  }

  lemma {:induction false} GroupPassDepartments(dir: Directory, ps: seq<Principal>, r: Resolution, id: string)
    ensures id in GroupPass(dir, ps, r).departments <==> id in r.departments || NamedBy(dir, ps, id)
  {
    if ps != [] {
      var n := |ps| - 1;
      GroupPassDepartments(dir, ps[..n], r, id);
      assert ps == ps[..n] + [ps[n]];
      assert NamedBy(dir, ps, id) <==> NamedBy(dir, ps[..n], id) || (Group(ps[n]) && Target(dir, ps[n]) == Some(id));
    }
  }

  /** Granted are exactly the departments a waiting group names alone, or all of them where a
      waiting principal stands for the whole company; always active ones of the company. */
  lemma GrantedDepartments(dir: Directory, principals: seq<Principal>, id: string)
    requires DistinctDepartments(dir.departments)
    ensures var ps := Pending(dir, principals);
            id in Resolve(dir, principals).departments <==> (WantsCompany(ps) && id in AllDepartments(dir)) || NamedBy(dir, ps, id)
    ensures id in Resolve(dir, principals).departments ==> id in AllDepartments(dir)
  {
    var ps := Pending(dir, principals);
    CompanyPassDepartments(ps, EMPTY);
    PeoplePassDepartments(dir, ps, CompanyPass(ps, EMPTY));
    GroupPassDepartments(dir, ps, PeoplePass(dir, ps, CompanyPass(ps, EMPTY)), id);
    if NamedBy(dir, ps, id) {
      var p :| p in ps && Group(p) && Target(dir, p) == Some(id);
      MatchIffOnlyOne(p.words, dir.departments, id);
    }
  }

  // ----- the order of the lists ---------------------------------------------------------------------

  predicate FromKey(ps: seq<Principal>, k: string) { exists p | p in ps :: Key(p) == k }

  predicate FromId(ps: seq<Principal>, i: string) { exists p | p in ps :: p.id == i }

  /** Everything recorded was recorded of some principal of the list. */
  ghost predicate Stems(ps: seq<Principal>, r: Resolution) {
    && (forall k | k in r.resolved :: FromKey(ps, k)) && (forall k | k in r.ignored :: FromKey(ps, k))
    && (forall i | i in r.users :: FromId(ps, i)) && (forall i | i in r.withoutAccount :: FromId(ps, i))
  }

  lemma {:induction false} PassesStem(dir: Directory, all: seq<Principal>, ps: seq<Principal>, r: Resolution)
    requires Stems(all, r) && forall p | p in ps :: p in all
    ensures Stems(all, CompanyPass(ps, r)) && Stems(all, PeoplePass(dir, ps, r)) && Stems(all, GroupPass(dir, ps, r))
  {
    if ps != [] {
      var n := |ps| - 1;
      assert ps == ps[..n] + [ps[n]];
      PassesStem(dir, all, ps[..n], r);
      assert ps[n] in all;
      assert FromKey(all, Key(ps[n])) && FromId(all, ps[n].id);
    }
  }

  lemma ResolveStems(dir: Directory, principals: seq<Principal>)
    ensures Stems(principals, Resolve(dir, principals))
  {
    var ps := Pending(dir, principals);
    forall p | p in ps ensures p in principals {
      PendingIff(dir, principals, p);
    }
    PassesStem(dir, principals, ps, EMPTY);
    PassesStem(dir, principals, ps, CompanyPass(ps, EMPTY));
    PassesStem(dir, principals, ps, PeoplePass(dir, ps, CompanyPass(ps, EMPTY)));
  }

  ghost predicate SameMembers<T(!new)>(a: seq<T>, b: seq<T>) {
    forall x :: x in a <==> x in b
  }

  /** Results that stem from a list and agree on all its members agree. */
  lemma ViewsDetermine(ps: seq<Principal>, qs: seq<Principal>, r: Resolution, t: Resolution)
    requires SameMembers(ps, qs) && Stems(ps, r) && Stems(qs, t) && r.departments == t.departments
    requires forall p | p in ps :: View(r, p) == View(t, p)
    ensures r == t
  {
    forall k ensures (k in r.resolved <==> k in t.resolved) && (k in r.ignored <==> k in t.ignored)
      ensures k in r.resolved ==> r.resolved[k] == t.resolved[k]
    {
      if FromKey(ps, k) || FromKey(qs, k) {
        var p :| p in ps && Key(p) == k;
        assert View(r, p) == View(t, p);
      }
    }
    forall i ensures (i in r.users <==> i in t.users) && (i in r.withoutAccount <==> i in t.withoutAccount)
      ensures i in r.users ==> r.users[i] == t.users[i]
    {
      if FromId(ps, i) || FromId(qs, i) {
        var p :| p in ps && p.id == i;
        assert View(r, p) == View(t, p);
      }
    }
    assert r.resolved == t.resolved && r.users == t.users;
    assert r.ignored == t.ignored && r.withoutAccount == t.withoutAccount;
  }

  lemma SameVerdict(dir: Directory, other: Directory, p: Principal)
    requires other == dir.(departments := other.departments) && SameMembers(dir.departments, other.departments)
    requires DistinctDepartments(dir.departments) && DistinctDepartments(other.departments)
    ensures Target(dir, p) == Target(other, p) && VerdictOn(dir, p) == VerdictOn(other, p)
  {
    var a, b := MatchDepartment(p.words, dir.departments), MatchDepartment(p.words, other.departments);
    if a.Some? {
      MatchIffOnlyOne(p.words, dir.departments, a.value);
      MatchIffOnlyOne(p.words, other.departments, a.value);
    }
    if b.Some? {
      MatchIffOnlyOne(p.words, dir.departments, b.value);
      MatchIffOnlyOne(p.words, other.departments, b.value);
    }
  }

  lemma SamePending(dir: Directory, other: Directory, ps: seq<Principal>, qs: seq<Principal>)
    requires other == dir.(departments := other.departments) && SameMembers(ps, qs)
    ensures SameMembers(Pending(dir, ps), Pending(other, qs))
  {
    forall p ensures p in Pending(dir, ps) <==> p in Pending(other, qs) {
      PendingIff(dir, ps, p);
      PendingIff(other, qs, p);
    }
  }

  lemma SameDepartments(dir: Directory, other: Directory, ps: seq<Principal>, qs: seq<Principal>)
    requires other == dir.(departments := other.departments) && SameMembers(dir.departments, other.departments)
    requires DistinctDepartments(dir.departments) && DistinctDepartments(other.departments) && SameMembers(ps, qs)
    ensures Resolve(dir, ps).departments == Resolve(other, qs).departments
  {
    SamePending(dir, other, ps, qs);
    assert AllDepartments(dir) == AllDepartments(other);
    var a, b := Pending(dir, ps), Pending(other, qs);
    assert WantsCompany(a) == WantsCompany(b);
    forall id ensures id in Resolve(dir, ps).departments <==> id in Resolve(other, qs).departments {
      GrantedDepartments(dir, ps, id);
      GrantedDepartments(other, qs, id);
      forall p | p in a ensures Target(dir, p) == Target(other, p) {
        SameVerdict(dir, other, p);
      }
      assert NamedBy(dir, a, id) == NamedBy(other, b, id);
    }
  }

  lemma SameView(dir: Directory, other: Directory, ps: seq<Principal>, qs: seq<Principal>, p: Principal)
    requires WellKept(ps) && WellKept(qs) && p in ps && p in qs
    requires other == dir.(departments := other.departments) && SameMembers(dir.departments, other.departments)
    requires DistinctDepartments(dir.departments) && DistinctDepartments(other.departments)
    ensures View(Resolve(dir, ps), p) == View(Resolve(other, qs), p)
  {
    ThreePasses(dir, ps, p);
    ThreePasses(other, qs, p);
    SameVerdict(dir, other, p);
  }

  /** The whole outcome is the same whatever the order of the principals and of the
      departments. */
  lemma OutcomeIsOrderIndependent(dir: Directory, other: Directory, ps: seq<Principal>, qs: seq<Principal>)
    requires WellKept(ps) && WellKept(qs) && SameMembers(ps, qs)
    requires other == dir.(departments := other.departments) && SameMembers(dir.departments, other.departments)
    requires DistinctDepartments(dir.departments) && DistinctDepartments(other.departments)
    ensures Resolve(dir, ps) == Resolve(other, qs)
  {
    ResolveStems(dir, ps);
    ResolveStems(other, qs);
    SameDepartments(dir, other, ps, qs);
    forall p | p in ps ensures View(Resolve(dir, ps), p) == View(Resolve(other, qs), p) {
      SameView(dir, other, ps, qs, p);
    }
    ViewsDetermine(ps, qs, Resolve(dir, ps), Resolve(other, qs));
  }

  // ----- the code -----------------------------------------------------------------------------------

  /** `next((accounts[a] for a in emails if a in accounts), None)`. */
  method FindAccount(accounts: map<string, string>, emails: seq<string>) returns (hit: Option<string>)
    ensures hit == FirstAccount(accounts, emails)
  {
    for i := 0 to |emails|
      invariant FirstAccount(accounts, emails) == FirstAccount(accounts, emails[i..])
    {
      assert emails[i..][1..] == emails[i + 1..];
      if emails[i] in accounts {
        return Some(accounts[emails[i]]);
      }
    }
    return None;
  }

  /** The first loop: whole-organisation principals, and ones that grant nothing. */
  method ResolveCompany(pending: seq<Principal>) returns (result: Resolution, wantsCompany: bool)
    ensures result == CompanyPass(pending, EMPTY) && wantsCompany == WantsCompany(pending)
  {
    result, wantsCompany := EMPTY, false;
    for i := 0 to |pending|
      invariant result == CompanyPass(pending[..i], EMPTY) && wantsCompany == WantsCompany(pending[..i])
    {
      assert pending[..i + 1] == pending[..i] + [pending[i]];
      var p := pending[i];
      if Kind(p) == "domain" || CompanyLink(p.id) {
        result := result.(resolved := result.resolved[Key(p) := Company(p.name)]);
        wantsCompany := true;
      } else if GrantsNothing(p) {
        result := result.(ignored := result.ignored + {Key(p)});
      }
    }
    assert pending[..|pending|] == pending;
  }

  /** The people, by address. */
  method ResolvePeople(dir: Directory, pending: seq<Principal>, before: Resolution) returns (result: Resolution)
    ensures result == PeoplePass(dir, pending, before)
  {
    result := before;
    for i := 0 to |pending|
      invariant result == PeoplePass(dir, pending[..i], before)
    {
      assert pending[..i + 1][..i] == pending[..i];
      var p := pending[i];
      if Person(p) && p.id !in dir.matchedUsers {
        var hit := FindAccount(dir.accounts, p.emails);
        if hit.Some? && hit.value != "" {
          result := result.(users := result.users[p.id := hit.value]);
          result := result.(resolved := result.resolved[Key(p) := ByEmail(p.name, hit.value)]);
        } else {
          result := result.(withoutAccount := result.withoutAccount + {p.id});
        }
      }
    }
    assert pending[..|pending|] == pending;
  }

  /** The groups, by department name. */
  method ResolveGroups(dir: Directory, pending: seq<Principal>, before: Resolution) returns (result: Resolution)
    ensures result == GroupPass(dir, pending, before)
  {
    result := before;
    for i := 0 to |pending|
      invariant result == GroupPass(dir, pending[..i], before)
    {
      assert pending[..i + 1][..i] == pending[..i];
      var p := pending[i];
      if Group(p) {
        var target := MatchDepartment(p.words, dir.departments);
        if target.Some? && target.value != "" {
          result := result.(departments := result.departments + {target.value});
          result := result.(resolved := result.resolved[Key(p) := ByName(p.name, target.value)]);
        }
      }
    }
    assert pending[..|pending|] == pending;
  }

  /** `auto_resolve`, where it is enabled. */
  method AutoResolve(dir: Directory, principals: seq<Principal>) returns (result: Resolution)
    ensures result == Resolve(dir, principals)
  {
    var pending := Pending(dir, principals);
    var wantsCompany;
    result, wantsCompany := ResolveCompany(pending);
    result := ResolvePeople(dir, pending, result);
    result := ResolveGroups(dir, pending, result);
    if wantsCompany {
      result := result.(departments := result.departments + AllDepartments(dir));
    }
  }
}
