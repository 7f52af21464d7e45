/** One run of the approval agent over the pending queue: what it may change, what it
    reports, and which audit rows survive. */
module ApprovalRun {
  import opened ApprovalRules
  import opened Options

  /** User accounts by id, each active or not. */
  type Accounts = map<string, bool>

  /** The governance service: done and committed, refused before any commit, or committed
      and failed afterwards. Its own permission checks are not part of this model. */
  datatype Service = Done | FailedBefore | FailedAfter

  /** One queued draft with everything the run will meet while handling it; `accounts` are
      those that exist when the verdict is applied. */
  datatype Case = Case(draft: Draft, connector: Option<string>, reply: Reply, accounts: Accounts, service: Service)

  predicate HasActiveAuthor(r: Rule, accounts: Accounts) {
    r.author.Some? && r.author.value in accounts && accounts[r.author.value]
  }

  datatype AuditRow = AuditRow(draft: string, decision: Action, applied: bool, dryRun: bool, rule: Option<string>, version: Option<int>)

  datatype Result = Result(draft: string, decision: Action, applied: bool)

  datatype Summary = Summary(evaluated: nat, approved: nat, rejected: nat, leftForReview: nat, results: seq<Result>)

  // ----- one draft -------------------------------------------------------------------------

  /** How handling one draft ends the open transaction, if it does. */
  datatype Effect = Nothing | Commits | RollsBack

  datatype Handled = Handled(verdict: Verdict, applied: bool, effect: Effect)

  /** `_apply` under the run's `try`. The rule is the one the verdict names. */
  function Applied(c: Case, v: Verdict): (bool, Effect) {
    if c.draft.status != "pending" || Unprepared(c.draft.preparation) then (false, Nothing)
    else if v.rule.None? then (false, RollsBack)
    else if v.rule.value.author.None? then (false, Nothing)
    else if v.rule.value.author.value !in c.accounts then (false, Nothing)
    else if !c.accounts[v.rule.value.author.value] then (false, Nothing)
    else
      match c.service
      case Done => (true, Commits)
      case FailedBefore => (false, RollsBack)
      case FailedAfter => (false, Commits)
  }

  function Handle(cfg: Settings, rules: seq<Rule>, c: Case, dryRun: bool): Handled {
    var v := Decide(cfg, c.draft, rules, c.connector, c.reply);
    if v.action == Abstain || dryRun then Handled(v, false, Nothing)
    else var (applied, effect) := Applied(c, v); Handled(v, applied, effect)
  }

  function RowOf(c: Case, h: Handled, dryRun: bool): AuditRow {
    var r := h.verdict.rule;
    AuditRow(c.draft.id, h.verdict.action, h.applied, dryRun,
             if r.Some? then Some(r.value.id) else None, if r.Some? then Some(r.value.version) else None)
  }

  // ----- the database a run sees -----------------------------------------------------------------

  /** Decisions that stand, audit rows that stand, and audit rows of the open transaction. */
  datatype World = World(decided: map<string, Action>, committed: seq<AuditRow>, open: seq<AuditRow>)

  function Committed(w: World): World { World(w.decided, w.committed + w.open, []) }

  function RolledBack(w: World): World { w.(open := []) }

  function After(w: World, c: Case, h: Handled, dryRun: bool): World {
    var w1 := match h.effect
              case Nothing => w
              case Commits => Committed(w.(decided := w.decided[c.draft.id := h.verdict.action]))
              case RollsBack => RolledBack(w);
    w1.(open := w1.open + [RowOf(c, h, dryRun)])
  }

  function Worked(cfg: Settings, rules: seq<Rule>, cases: seq<Case>, dryRun: bool, w: World): World {
    if cases == [] then w
    else
      var n := |cases| - 1;
      After(Worked(cfg, rules, cases[..n], dryRun, w), cases[n], Handle(cfg, rules, cases[n], dryRun), dryRun)
  }

  function Tally(s: Summary, c: Case, h: Handled): Summary {
    var action := if h.applied then h.verdict.action else Abstain;
    Summary(
      s.evaluated + 1,
      s.approved + (if action == Approve then 1 else 0),
      s.rejected + (if action == Reject then 1 else 0),
      s.leftForReview + (if action == Abstain then 1 else 0),
      s.results + [Result(c.draft.id, h.verdict.action, h.applied)])
  }

  function Reported(cfg: Settings, rules: seq<Rule>, cases: seq<Case>, dryRun: bool): Summary {
    if cases == [] then Summary(0, 0, 0, 0, [])
    else
      var n := |cases| - 1;
      Tally(Reported(cfg, rules, cases[..n], dryRun), cases[n], Handle(cfg, rules, cases[n], dryRun))
  }

  // ----- authority ------------------------------------------------------------------------------------

  /** Everything that must hold for a draft to be decided. */
  predicate Authorised(cfg: Settings, rules: seq<Rule>, c: Case, action: Action, dryRun: bool) {
    && !dryRun && c.draft.status == "pending" && !Unprepared(c.draft.preparation)
    && ((action == Approve && c.reply == Said("approve")) || (action == Reject && c.reply == Said("reject")))
    && exists r | r in rules :: Governs(cfg, rules, c.draft, c.connector, r) && Grants(r, action) && HasActiveAuthor(r, c.accounts)
  }

  lemma HandledWithAuthority(cfg: Settings, rules: seq<Rule>, c: Case, dryRun: bool)
    ensures var h := Handle(cfg, rules, c, dryRun);
            && (h.effect == Commits ==> Authorised(cfg, rules, c, h.verdict.action, dryRun))
            && (h.applied ==> h.effect == Commits && c.service == Done)
            && (h.effect == Commits && !h.applied ==> c.service == FailedAfter)
            && (c.draft.status == "pending" && !dryRun && h.verdict.action != Abstain && HasActiveAuthor(h.verdict.rule.value, c.accounts) ==>
                  h.effect == (if c.service == FailedBefore then RollsBack else Commits) && (h.applied <==> c.service == Done))
  {
    VerdictNeedsTheGoverningRule(cfg, c.draft, rules, c.connector, c.reply);
  }

  /** All that must hold for the verdict on one draft to reach the governance service. */
  predicate ReachesService(cfg: Settings, rules: seq<Rule>, c: Case, dryRun: bool) {
    var selected := SelectRule(cfg, rules, c.draft, c.connector);
    && !dryRun && c.draft.status == "pending" && c.draft.preparation !in ["queued", "processing", "deferred"] && selected.Some?
    && ((c.reply == Said("approve") && selected.value.canApprove) || (c.reply == Said("reject") && selected.value.canReject))
    && selected.value.author.Some? && selected.value.author.value in c.accounts && c.accounts[selected.value.author.value]
  }

  /** A verdict is applied exactly when it reaches the service and the service succeeds, and
      it commits exactly unless the service fails first; the decision is the reply. */
  lemma AppliedIff(cfg: Settings, rules: seq<Rule>, c: Case, dryRun: bool)
    ensures var h := Handle(cfg, rules, c, dryRun);
            && (h.applied <==> ReachesService(cfg, rules, c, dryRun) && c.service == Done)
            && (h.effect == Commits <==> ReachesService(cfg, rules, c, dryRun) && c.service != FailedBefore)
            && (h.effect == RollsBack <==> ReachesService(cfg, rules, c, dryRun) && c.service == FailedBefore)
            && (ReachesService(cfg, rules, c, dryRun) ==> h.verdict.action == if c.reply == Said("approve") then Approve else Reject)
  {
    VerdictNeedsTheGoverningRule(cfg, c.draft, rules, c.connector, c.reply);
  }

  /** Every draft has the decision of its last handling that committed. */
  lemma {:induction false} DecisionsStand(cfg: Settings, rules: seq<Rule>, cases: seq<Case>, dryRun: bool, w: World, i: nat)
    requires i < |cases| && ReachesService(cfg, rules, cases[i], dryRun) && cases[i].service != FailedBefore
    requires forall j | i < j < |cases| && ReachesService(cfg, rules, cases[j], dryRun) && cases[j].service != FailedBefore ::
               cases[j].draft.id != cases[i].draft.id
    ensures var decided := Worked(cfg, rules, cases, dryRun, w).decided;
            && cases[i].draft.id in decided
            && decided[cases[i].draft.id] == if cases[i].reply == Said("approve") then Approve else Reject
  {
    var n := |cases| - 1;
    AppliedIff(cfg, rules, cases[n], dryRun);
    if i < n {
      DecisionsStand(cfg, rules, cases[..n], dryRun, w, i);
    }
  }

  /** The audit row of a draft says what was decided about it, under which rule, and whether
      it was applied. */
  lemma RowsSayWhatHappened(cfg: Settings, rules: seq<Rule>, c: Case, dryRun: bool)
    ensures var row := RowOf(c, Handle(cfg, rules, c, dryRun), dryRun);
            var selected := SelectRule(cfg, rules, c.draft, c.connector);
            var asked := c.draft.preparation !in ["queued", "processing", "deferred"] && selected.Some?;
            && row.draft == c.draft.id && row.dryRun == dryRun
            && (row.applied <==> ReachesService(cfg, rules, c, dryRun) && c.service == Done)
            && (row.decision == Approve <==> asked && c.reply == Said("approve") && selected.value.canApprove)
            && (row.decision == Reject <==> asked && c.reply == Said("reject") && selected.value.canReject)
            && row.rule == (if asked then Some(selected.value.id) else None)
            && row.version == (if asked then Some(selected.value.version) else None)
  {
    AppliedIff(cfg, rules, c, dryRun);
    VerdictNeedsTheGoverningRule(cfg, c.draft, rules, c.connector, c.reply);
  }

  /** A draft whose decision the run changed was decided with authority: by its governing
      rule, which grants the action and whose author has an active account, on a pending and prepared
      draft, and never on a dry run. The model's replies are arbitrary. */
  lemma {:induction false} ChangesNeedAuthority(cfg: Settings, rules: seq<Rule>, cases: seq<Case>, dryRun: bool, w: World, id: string)
    returns (i: nat)
    requires var w' := Worked(cfg, rules, cases, dryRun, w);
             id in w'.decided && (id !in w.decided || w'.decided[id] != w.decided[id])
    ensures i < |cases| && cases[i].draft.id == id
    ensures Authorised(cfg, rules, cases[i], Worked(cfg, rules, cases, dryRun, w).decided[id], dryRun)
  {
    assert cases != [];
    var n := |cases| - 1;
    HandledWithAuthority(cfg, rules, cases[n], dryRun);
    var h := Handle(cfg, rules, cases[n], dryRun);
    if h.effect == Commits && cases[n].draft.id == id {
      i := n;
    } else {
      i := ChangesNeedAuthority(cfg, rules, cases[..n], dryRun, w, id);
      assert cases[..n][i] == cases[i];
    }
  }

  // ----- the summary --------------------------------------------------------------------------------------

  /** How many of the results were applied with this action. */
  function CountOf(results: seq<Result>, action: Action): nat {
    if results == [] then 0
    else
      var n := |results| - 1;
      CountOf(results[..n], action) + if results[n].applied && results[n].decision == action then 1 else 0
  }

  predicate AddsUp(s: Summary) {
    && s.evaluated == |s.results| == s.approved + s.rejected + s.leftForReview
    && s.approved == CountOf(s.results, Approve) && s.rejected == CountOf(s.results, Reject)
  }

  lemma TallyAddsUp(s: Summary, c: Case, h: Handled)
    requires AddsUp(s)
    ensures AddsUp(Tally(s, c, h))
  {
    var t := Tally(s, c, h);
    assert t.results[..|s.results|] == s.results;
  }

  lemma {:induction false} ResultsFollowTheQueue(cfg: Settings, rules: seq<Rule>, cases: seq<Case>, dryRun: bool, i: nat)
    requires i < |cases|
    ensures var results, h := Reported(cfg, rules, cases, dryRun).results, Handle(cfg, rules, cases[i], dryRun);
            |results| == |cases| && results[i] == Result(cases[i].draft.id, h.verdict.action, h.applied)
  {
    var n := |cases| - 1;
    if n > 0 {
      ResultsFollowTheQueue(cfg, rules, cases[..n], dryRun, if i < n then i else 0);
    }
  }

  /** The counts add up, and each agrees with the results it counts. */
  lemma {:induction false} SummaryAddsUp(cfg: Settings, rules: seq<Rule>, cases: seq<Case>, dryRun: bool)
    ensures AddsUp(Reported(cfg, rules, cases, dryRun)) && Reported(cfg, rules, cases, dryRun).evaluated == |cases|
  {
    if cases != [] {
      var n := |cases| - 1;
      SummaryAddsUp(cfg, rules, cases[..n], dryRun);
      TallyAddsUp(Reported(cfg, rules, cases[..n], dryRun), cases[n], Handle(cfg, rules, cases[n], dryRun));
    }
  }

  /** What is reported of a draft agrees with what was committed for it, except exactly when
      the service failed after its commit: then the decision stands but is reported, and
      audited, as left for review. */
  lemma ReportAgreesUnlessLateFailure(cfg: Settings, rules: seq<Rule>, c: Case, dryRun: bool)
    ensures var h := Handle(cfg, rules, c, dryRun);
            && (h.applied ==> h.effect == Commits)
            && (h.effect == Commits && !h.applied <==>
                  c.service == FailedAfter && Handle(cfg, rules, c.(service := Done), dryRun).applied)
  {
    HandledWithAuthority(cfg, rules, c, dryRun);
  }

  // ----- the audit trail -------------------------------------------------------------------------------------

  /** What one draft leaves: how its transaction ends, and its row. */
  datatype Entry = Entry(effect: Effect, row: AuditRow)

  function EntryOf(cfg: Settings, rules: seq<Rule>, c: Case, dryRun: bool): Entry {
    var h := Handle(cfg, rules, c, dryRun);
    Entry(h.effect, RowOf(c, h, dryRun))
  }

  function Trail(cfg: Settings, rules: seq<Rule>, cases: seq<Case>, dryRun: bool): (trail: seq<Entry>)
    ensures |trail| == |cases| && forall i | 0 <= i < |cases| :: trail[i] == EntryOf(cfg, rules, cases[i], dryRun)
  {
    seq(|cases|, i requires 0 <= i < |cases| => EntryOf(cfg, rules, cases[i], dryRun))
  }

  /** Row `i` is lost when the first end of a transaction after it is a rollback. */
  predicate LostAt(trail: seq<Entry>, i: nat, j: nat) {
    && i < j < |trail| && trail[j].effect == RollsBack
    && forall m | i < m < j :: trail[m].effect == Nothing
  }

  predicate Lost(trail: seq<Entry>, i: nat) {
    exists j | i < j < |trail| :: LostAt(trail, i, j)
  }

  /** No transaction ends between row `i` and the end of the queue. */
  predicate Open(trail: seq<Entry>, i: nat) {
    forall j | i < j < |trail| :: trail[j].effect == Nothing
  }

  /** The rows of the first `n` drafts that satisfy a test on all of them, in order. */
  function OpenRows(trail: seq<Entry>, n: nat): seq<AuditRow>
    requires n <= |trail|
  {
    if n == 0 then [] else OpenRows(trail, n - 1) + if Open(trail, n - 1) then [trail[n - 1].row] else []
  }

  function KeptRows(trail: seq<Entry>, n: nat): seq<AuditRow>
    requires n <= |trail|
  {
    if n == 0 then [] else KeptRows(trail, n - 1) + if Lost(trail, n - 1) then [] else [trail[n - 1].row]
  }

  function SettledRows(trail: seq<Entry>, n: nat): seq<AuditRow>
    requires n <= |trail|
  {
    if n == 0 then []
    else SettledRows(trail, n - 1) + if Open(trail, n - 1) || Lost(trail, n - 1) then [] else [trail[n - 1].row]
  }

  /** `now` is the trail with one draft more. */
  predicate Extends(now: seq<Entry>, trail: seq<Entry>) {
    |now| == |trail| + 1 && forall i | 0 <= i < |trail| :: now[i] == trail[i]
  }

  /** One more draft: open rows stay open, settle or are lost, as the transaction ends or not. */
  lemma OneMore(trail: seq<Entry>, now: seq<Entry>, i: nat)
    requires Extends(now, trail) && i < |trail|
    ensures Open(now, i) <==> Open(trail, i) && now[|trail|].effect == Nothing
    ensures Lost(now, i) <==> Lost(trail, i) || (Open(trail, i) && now[|trail|].effect == RollsBack)
  {
    var n := |trail|;
    forall j | i < j < n ensures LostAt(trail, i, j) <==> LostAt(now, i, j) {
    }
    if Open(trail, i) && now[n].effect == RollsBack {
      assert LostAt(now, i, n);
    }
  }

  /** One row more, on values. */
  lemma RowMoves(effect: Effect, open: bool, lost: bool, open': bool, lost': bool, row: seq<AuditRow>)
    requires (open' <==> open && effect == Nothing) && (lost' <==> lost || (open && effect == RollsBack)) && !(open && lost)
    ensures (if open' then row else []) == if effect == Nothing && open then row else []
    ensures (if open' || lost' then [] else row) ==
            if effect == Commits then (if lost then [] else row) else if open || lost then [] else row
  {
  }

  /** The open and the settled rows of the first `n` drafts, once one draft more is handled. */
  lemma {:induction false} RowsOneMore(trail: seq<Entry>, now: seq<Entry>, effect: Effect, n: nat)
    requires Extends(now, trail) && now[|trail|].effect == effect && n <= |trail|
    ensures OpenRows(now, n) == if effect == Nothing then OpenRows(trail, n) else []
    ensures SettledRows(now, n) == if effect == Commits then KeptRows(trail, n) else SettledRows(trail, n)
  {
    if n > 0 {
      RowsOneMore(trail, now, effect, n - 1);
      OneMore(trail, now, n - 1);
      OpenIsNotLost(trail, n - 1);
      RowMoves(effect, Open(trail, n - 1), Lost(trail, n - 1), Open(now, n - 1), Lost(now, n - 1), [trail[n - 1].row]);
    }
  }

  /** A row is open only if all later ones are, and an open row is not lost. */
  lemma OpenIsNotLost(trail: seq<Entry>, i: nat)
    requires i < |trail|
    ensures Open(trail, i) ==> Open(trail, i + 1) && !Lost(trail, i)
  {
  }

  lemma {:induction false} NoOpenRows(trail: seq<Entry>, n: nat)
    requires 0 < n <= |trail| && !Open(trail, n - 1)
    ensures OpenRows(trail, n) == []
  {
    if n > 1 {
      OpenIsNotLost(trail, n - 2);
      NoOpenRows(trail, n - 1);
    }
  }

  lemma RowsRegroup(settled: seq<AuditRow>, open: seq<AuditRow>, row: AuditRow)
    ensures settled + open + [row] == settled + (open + [row]) && settled + [] == settled
    ensures settled + open + [] == settled + open && open + [] == open && settled + [row] + [] == settled + [row]
  {
  }

  /** Open rows are the last ones, so settling them all keeps the order of the queue. */
  lemma {:induction false} KeptIsSettledThenOpen(trail: seq<Entry>, n: nat)
    requires n <= |trail|
    ensures KeptRows(trail, n) == SettledRows(trail, n) + OpenRows(trail, n)
  {
    if n > 0 {
      KeptIsSettledThenOpen(trail, n - 1);
      var settled, open := SettledRows(trail, n - 1), OpenRows(trail, n - 1);
      OpenIsNotLost(trail, n - 1);
      if !Open(trail, n - 1) {
        NoOpenRows(trail, n);
        assert open == [];
      }
      RowsRegroup(settled, open, trail[n - 1].row);
    }
  }

  /** What handling one draft does to the rows alone. */
  lemma RowsAfter(w: World, c: Case, h: Handled, dryRun: bool)
    ensures After(w, c, h, dryRun).committed == w.committed + if h.effect == Commits then w.open else []
    ensures After(w, c, h, dryRun).open == (if h.effect == Nothing then w.open else []) + [RowOf(c, h, dryRun)]
  {
    assert w.committed + [] == w.committed;
  }

  /** The rows that stand and those of the open transaction, after these drafts. */
  ghost predicate RowsStand(trail: seq<Entry>, base: seq<AuditRow>, committed: seq<AuditRow>, open: seq<AuditRow>) {
    committed == base + SettledRows(trail, |trail|) && open == OpenRows(trail, |trail|)
  }

  lemma RowsStep(trail: seq<Entry>, e: Entry, base: seq<AuditRow>, committed: seq<AuditRow>, open: seq<AuditRow>)
    requires RowsStand(trail, base, committed, open)
    ensures RowsStand(trail + [e], base, committed + (if e.effect == Commits then open else []),
                      (if e.effect == Nothing then open else []) + [e.row])
  {
    var n, now := |trail|, trail + [e];
    RowsOneMore(trail, now, e.effect, n);
    KeptIsSettledThenOpen(trail, n);
    assert now[n] == e && Open(now, n);
    assert SettledRows(now, n + 1) == SettledRows(now, n) + [];
    assert base + SettledRows(trail, n) + open == base + (SettledRows(trail, n) + open);
  }

  lemma TrailGrows(cfg: Settings, rules: seq<Rule>, cases: seq<Case>, dryRun: bool)
    requires cases != []
    ensures var n := |cases| - 1;
            Trail(cfg, rules, cases, dryRun) == Trail(cfg, rules, cases[..n], dryRun) + [EntryOf(cfg, rules, cases[n], dryRun)]
  {
  }

  lemma {:induction false} RowsSoFar(cfg: Settings, rules: seq<Rule>, cases: seq<Case>, dryRun: bool, w: World)
    requires w.open == []
    ensures var w' := Worked(cfg, rules, cases, dryRun, w);
            RowsStand(Trail(cfg, rules, cases, dryRun), w.committed, w'.committed, w'.open)
  {
    if cases == [] {
      assert w.committed + [] == w.committed;
    } else {
      var n := |cases| - 1;
      RowsSoFar(cfg, rules, cases[..n], dryRun, w);
      var before := Worked(cfg, rules, cases[..n], dryRun, w);
      RowsAfter(before, cases[n], Handle(cfg, rules, cases[n], dryRun), dryRun);
      RowsStep(Trail(cfg, rules, cases[..n], dryRun), EntryOf(cfg, rules, cases[n], dryRun), w.committed, before.committed, before.open);
      TrailGrows(cfg, rules, cases, dryRun);
    }
  }

  lemma CommitKeepsRows(trail: seq<Entry>, base: seq<AuditRow>, w: World)
    requires RowsStand(trail, base, w.committed, w.open)
    ensures Committed(w).committed == base + KeptRows(trail, |trail|)
  {
    KeptIsSettledThenOpen(trail, |trail|);
    assert base + SettledRows(trail, |trail|) + w.open == base + (SettledRows(trail, |trail|) + w.open);
  }

  /** What the final commit leaves: every evaluated draft's row, in order, except those lost.
      A row is lost exactly when the next transaction end after it is the rollback of a later
      draft whose service call failed before committing. */
  lemma AuditTrail(cfg: Settings, rules: seq<Rule>, cases: seq<Case>, dryRun: bool, w: World)
    requires w.open == []
    ensures Committed(Worked(cfg, rules, cases, dryRun, w)).committed == w.committed + KeptRows(Trail(cfg, rules, cases, dryRun), |cases|)
  {
    RowsSoFar(cfg, rules, cases, dryRun, w);
    CommitKeepsRows(Trail(cfg, rules, cases, dryRun), w.committed, Worked(cfg, rules, cases, dryRun, w));
  }

  // ----- a row that is lost

  function AnyDraft(id: string): Draft { Draft(id, "acme.com", "pending", "", "", "", "", [], 0) }

  function AnyRule(): Rule { Rule("r", "", 1, "acme.com", true, 1, None, None, [], None, [], true, false, Some("author")) }

  lemma AnyRuleDecides(cfg: Settings, id: string)
    ensures var r, d := AnyRule(), AnyDraft(id);
            Decide(cfg, d, [r], None, Said("approve")) == Verdict(Approve, Some(r)) &&
            Decide(cfg, d, [r], None, Unreadable) == Verdict(Abstain, Some(r))
  {
    assert RuleApplies(cfg, AnyRule(), AnyDraft(id), None);
    assert AnyRule() in [AnyRule()];
    SelectedRuleGoverns(cfg, [AnyRule()], AnyDraft(id), None);
  }

  lemma TwoRows(first: Entry, second: Entry)
    requires second.effect == RollsBack
    ensures KeptRows([first, second], 2) == [second.row]
  {
    var trail := [first, second];
    assert LostAt(trail, 0, 1) && !Lost(trail, 1);
    assert KeptRows(trail, 1) == [];
  }

  lemma OneRowStands(cfg: Settings, rules: seq<Rule>, c: Case, d: Case)
    requires Handle(cfg, rules, d, false).effect == RollsBack
    ensures Reported(cfg, rules, [c] + [d], false).evaluated == 2
    ensures Committed(Worked(cfg, rules, [c] + [d], false, World(map[], [], []))).committed == [RowOf(d, Handle(cfg, rules, d, false), false)]
  {
    TwoRows(EntryOf(cfg, rules, c, false), EntryOf(cfg, rules, d, false));
    assert Trail(cfg, rules, [c] + [d], false) == [EntryOf(cfg, rules, c, false), EntryOf(cfg, rules, d, false)];
    SummaryAddsUp(cfg, rules, [c] + [d], false);
    AuditTrail(cfg, rules, [c] + [d], false, World(map[], [], []));
  }

  lemma ApprovalFails(cfg: Settings, d: Case)
    requires d == Case(AnyDraft("b"), None, Said("approve"), map["author" := true], FailedBefore)
    ensures Handle(cfg, [AnyRule()], d, false) == Handled(Verdict(Approve, Some(AnyRule())), false, RollsBack)
  {
    AnyRuleDecides(cfg, "b");
  }

  /** The loss is real: a draft left to a person is audited, the next one's service call
      fails before it commits, and of two evaluated drafts one has an audit row. */
  lemma RollbackLosesARow(cfg: Settings)
    ensures var accounts := map["author" := true];
            var cases := [Case(AnyDraft("a"), None, Unreadable, accounts, Done)] +
                         [Case(AnyDraft("b"), None, Said("approve"), accounts, FailedBefore)];
            && Reported(cfg, [AnyRule()], cases, false).evaluated == 2
            && Committed(Worked(cfg, [AnyRule()], cases, false, World(map[], [], []))).committed ==
               [AuditRow("b", Approve, false, false, Some("r"), Some(1))]
  {
    var accounts := map["author" := true];
    var c, d := Case(AnyDraft("a"), None, Unreadable, accounts, Done), Case(AnyDraft("b"), None, Said("approve"), accounts, FailedBefore);
    ApprovalFails(cfg, d);
    OneRowStands(cfg, [AnyRule()], c, d);
  }

  /** So where no service call fails before its commit, as on every dry run, each evaluated
      draft has exactly one row. */
  lemma {:induction false} OneRowPerDraft(cfg: Settings, rules: seq<Rule>, cases: seq<Case>, dryRun: bool, n: nat)
    requires n <= |cases| && forall j | 0 <= j < |cases| :: Handle(cfg, rules, cases[j], dryRun).effect != RollsBack
    ensures var rows := KeptRows(Trail(cfg, rules, cases, dryRun), n);
            |rows| == n && forall i | 0 <= i < n :: rows[i] == RowOf(cases[i], Handle(cfg, rules, cases[i], dryRun), dryRun)
  {
    if n > 0 {
      OneRowPerDraft(cfg, rules, cases, dryRun, n - 1);
      assert !Lost(Trail(cfg, rules, cases, dryRun), n - 1);
    }
  }

  // ----- the run ---------------------------------------------------------------------------------------------

  function ActiveRules(company: string, rules: seq<Rule>): seq<Rule> {
    if rules == [] then []
    else
      var before := ActiveRules(company, rules[..|rules| - 1]);
      var r := rules[|rules| - 1];
      if r.company == company && r.active then before + [r] else before
  }

  /** The WHERE clause of the queue; `queue` is in order of creation. */
  function Pending(company: string, queue: seq<Case>): seq<Case> {
    if queue == [] then []
    else
      var before := Pending(company, queue[..|queue| - 1]);
      var d := queue[|queue| - 1].draft;
      if d.company == company && d.status == "pending" && !Unprepared(d.preparation) then before + [queue[|queue| - 1]] else before
  }

  function Batch(company: string, queue: seq<Case>, limit: nat): seq<Case> {
    var pending := Pending(company, queue);
    if |pending| <= limit then pending else pending[..limit]
  }

  /** The run asks the active rules of its company and no other. */
  lemma {:induction false} ActiveRulesIff(company: string, rules: seq<Rule>, r: Rule)
    ensures r in ActiveRules(company, rules) <==> r in rules && r.company == company && r.active
  {
    if rules != [] {
      assert rules == rules[..|rules| - 1] + [rules[|rules| - 1]];
      ActiveRulesIff(company, rules[..|rules| - 1], r);
    }
  }

  predicate Waits(company: string, c: Case) {
    c.draft.company == company && c.draft.status == "pending" && c.draft.preparation !in ["queued", "processing", "deferred"]
  }

  lemma {:induction false} PendingIff(company: string, queue: seq<Case>, c: Case)
    ensures c in Pending(company, queue) <==> c in queue && Waits(company, c)
  {
    if queue != [] {
      assert queue == queue[..|queue| - 1] + [queue[|queue| - 1]];
      PendingIff(company, queue[..|queue| - 1], c);
    }
  }

  /** The batch is the first drafts of the queue that wait, oldest first: draft `k` of it has
      exactly `k` waiting drafts before it. */
  lemma {:induction false} BatchIsOldestFirst(company: string, queue: seq<Case>, limit: nat, k: nat) returns (i: nat)
    requires k < |Pending(company, queue)|
    ensures |Batch(company, queue, limit)| == if |Pending(company, queue)| <= limit then |Pending(company, queue)| else limit
    ensures i < |queue| && Waits(company, queue[i]) && |Pending(company, queue[..i])| == k && Pending(company, queue)[k] == queue[i]
    ensures k < limit ==> Batch(company, queue, limit)[k] == queue[i]
  {
    i := WaitingAt(company, queue, k);
  }

  lemma {:induction false} WaitingAt(company: string, queue: seq<Case>, k: nat) returns (i: nat)
    requires k < |Pending(company, queue)|
    ensures i < |queue| && Waits(company, queue[i]) && |Pending(company, queue[..i])| == k && Pending(company, queue)[k] == queue[i]
  {
    var n := |queue| - 1;
    if k < |Pending(company, queue[..n])| {
      i := WaitingAt(company, queue[..n], k);
      assert queue[..n][..i] == queue[..i];
    } else {
      i := n;
    }
  }

  class Database {
    var decided: map<string, Action>
    var committed: seq<AuditRow>
    var open: seq<AuditRow>

    function Seen(): World
      reads this
    {
      World(decided, committed, open)
    }

    method Commit()
      modifies this
      ensures Seen() == Committed(old(Seen()))
    {
      committed, open := committed + open, [];
    }

    method Rollback()
      modifies this
      ensures Seen() == RolledBack(old(Seen()))
    {
      open := [];
    }

    /** `_apply`; `raised` is an exception out of it. */
    method Apply(c: Case, v: Verdict) returns (applied: bool, raised: bool)
      requires v.action != Abstain
      modifies this
      ensures var (a, effect) := Applied(c, v);
              && applied == (a && !raised)
              && (effect == Nothing ==> Seen() == old(Seen()) && !raised)
              && (effect == RollsBack ==> Seen() == old(Seen()) && raised)
              && (effect == Commits ==> Seen() == Committed(old(Seen()).(decided := old(decided)[c.draft.id := v.action])))
              && (effect == Commits ==> raised == !a)
    {
      applied, raised := false, false;
      if c.draft.status != "pending" || Unprepared(c.draft.preparation) {
        return;
      }
      if v.rule.None? {
        raised := true;
        return;
      }
      if v.rule.value.author.None? {
        return;
      }
      var author := v.rule.value.author.value;
      if author !in c.accounts || !c.accounts[author] {
        return;
      }
      if c.service != FailedBefore {
        decided := decided[c.draft.id := v.action];
        Commit();
      }
      applied, raised := c.service == Done, c.service != Done;
    }

    /** The body of the loop of `run`. */
    method Evaluate(cfg: Settings, rules: seq<Rule>, c: Case, dryRun: bool, before: Summary) returns (summary: Summary)
      modifies this
      ensures var h := Handle(cfg, rules, c, dryRun);
              summary == Tally(before, c, h) && Seen() == After(old(Seen()), c, h, dryRun)
    {
      summary := before.(evaluated := before.evaluated + 1);
      var verdict := Decide(cfg, c.draft, rules, c.connector, c.reply);
      var applied := false;
      if verdict.action != Abstain && !dryRun {
        var raised;
        applied, raised := Apply(c, verdict);
        if raised {
          Rollback();
        }
      }
      var action := if applied then verdict.action else Abstain;
      if action == Approve {
        summary := summary.(approved := summary.approved + 1);
      } else if action == Reject {
        summary := summary.(rejected := summary.rejected + 1);
      } else {
        summary := summary.(leftForReview := summary.leftForReview + 1);
      }
      open := open + [RowOf(c, Handled(verdict, applied, Nothing), dryRun)];
      summary := summary.(results := summary.results + [Result(c.draft.id, verdict.action, applied)]);
    }

    /** `run`, once it is enabled. */
    method Run(cfg: Settings, company: string, table: seq<Rule>, queue: seq<Case>, limit: nat, dryRun: bool) returns (summary: Summary)
      modifies this
      ensures var rules := ActiveRules(company, table);
              var cases := if rules == [] then [] else Batch(company, queue, limit);
              && summary == Reported(cfg, rules, cases, dryRun)
              && Seen() == if rules == [] then old(Seen()) else Committed(Worked(cfg, rules, cases, dryRun, old(Seen())))
    {
      summary := Summary(0, 0, 0, 0, []);
      var rules := ActiveRules(company, table);
      if rules == [] {
        return;
      }
      var cases := Batch(company, queue, limit);
      for i := 0 to |cases|
        invariant summary == Reported(cfg, rules, cases[..i], dryRun)
        invariant Seen() == Worked(cfg, rules, cases[..i], dryRun, old(Seen()))
      {
        assert cases[..i + 1][..i] == cases[..i];
        summary := Evaluate(cfg, rules, cases[i], dryRun, summary);
      }
      assert cases[..|cases|] == cases;
      Commit();
    }
  }
}
