/** Which rule governs a pending draft, and what it may decide whatever the model replies. */
module ApprovalRules {
  import opened Options

  datatype Draft = Draft(
    id: string,
    company: string,
    status: string,
    preparation: string,
    dept: string,
    filename: string,
    sensitivity: string,
    scores: seq<real>,
    created: int)

  datatype Rule = Rule(
    id: string,
    name: string,
    version: int,
    company: string,
    active: bool,
    priority: int,
    connector: Option<string>,
    dept: Option<string>,
    extensions: seq<string>,
    maxSimilarity: Option<real>,
    riskTiers: seq<string>,
    canApprove: bool,
    canReject: bool,
    author: Option<string>)

  /** `strip` and `lower` of Python, and the departments configured as high risk. */
  datatype Settings = Settings(strip: string -> string, lower: string -> string, highRisk: seq<string>)

  function Folded(cfg: Settings, s: string): string { cfg.lower(cfg.strip(s)) }

  // ----- scope ----------------------------------------------------------------------------

  function RiskTier(cfg: Settings, d: Draft): string {
    if Folded(cfg, d.sensitivity) == "restricted" || Folded(cfg, d.sensitivity) == "confidential" then "high"
    else if Folded(cfg, d.dept) != "" && Folded(cfg, d.dept) in cfg.highRisk then "high"
    else "standard"
  }

  function TopScore(scores: seq<real>): Option<real> {
    if scores == [] then None
    else
      var before := TopScore(scores[..|scores| - 1]);
      var last := scores[|scores| - 1];
      if before.Some? && before.value >= last then before else Some(last)
  }

  /** What follows the last dot; None where there is no dot. */
  function AfterLastDot(name: string): Option<string> {
    if name == "" then None
    else
      var last := name[|name| - 1];
      if last == '.' then Some("")
      else
        var before := AfterLastDot(name[..|name| - 1]);
        if before.None? then None else Some(before.value + [last])
  }

  function Extension(cfg: Settings, filename: string): Option<string> {
    var ext := AfterLastDot(filename);
    if ext.None? then None else Some("." + cfg.lower(ext.value))
  }

  predicate RuleApplies(cfg: Settings, r: Rule, d: Draft, connector: Option<string>) {
    && r.active
    && r.company == d.company
    && (r.connector.Some? ==> connector == r.connector)
    && (r.dept.Some? ==> Folded(cfg, d.dept) == Folded(cfg, r.dept.value))
    && (r.extensions != [] ==>
          Extension(cfg, d.filename).Some? && exists e | e in r.extensions :: Folded(cfg, e) == Extension(cfg, d.filename).value)
    && (r.maxSimilarity.Some? ==> TopScore(d.scores).Some? && TopScore(d.scores).value <= r.maxSimilarity.value)
    && (r.riskTiers != [] ==> RiskTier(cfg, d) in r.riskTiers)
  }

  /** A similarity cap holds for every measured match; an unmeasured draft never meets one. */
  lemma {:induction false} CapBoundsEveryMatch(scores: seq<real>, cap: real)
    ensures (TopScore(scores).Some? && TopScore(scores).value <= cap) <==>
            scores != [] && forall i | 0 <= i < |scores| :: scores[i] <= cap
  {
    if scores != [] {
      var n := |scores| - 1;
      CapBoundsEveryMatch(scores[..n], cap);
      assert forall i | 0 <= i < n :: scores[..n][i] == scores[i];
    }
  }

  /** The extension is what follows the last dot, and there is none exactly without a dot. */
  lemma {:induction false} ExtensionFollowsTheLastDot(name: string)
    ensures AfterLastDot(name).None? <==> '.' !in name
    ensures AfterLastDot(name).Some? ==>
            var ext := AfterLastDot(name).value;
            '.' !in ext && |ext| < |name| && name == name[..|name| - |ext| - 1] + "." + ext
  {
    if name != "" && name[|name| - 1] != '.' {
      var n := |name| - 1;
      ExtensionFollowsTheLastDot(name[..n]);
      assert name == name[..n] + [name[n]];
      if AfterLastDot(name[..n]).Some? {
        var ext := AfterLastDot(name[..n]).value;
        assert name[..n][..n - |ext| - 1] == name[..n - |ext| - 1];
      }
    }
  }

  lemma RiskIsHighIff(cfg: Settings, d: Draft)
    ensures RiskTier(cfg, d) == (if cfg.lower(cfg.strip(d.sensitivity)) in ["restricted", "confidential"] ||
                                    (cfg.lower(cfg.strip(d.dept)) != "" && cfg.lower(cfg.strip(d.dept)) in cfg.highRisk)
                                 then "high" else "standard")
  {
  }

  /** `ext` is what follows the last dot of the name. */
  predicate HasExtension(name: string, ext: string) {
    '.' !in ext && |ext| < |name| && name == name[..|name| - |ext| - 1] + "." + ext
  }

  lemma OneExtension(name: string, a: string, b: string)
    requires HasExtension(name, a) && HasExtension(name, b)
    ensures a == b
  {
    var i, j := |name| - |a| - 1, |name| - |b| - 1;
    assert name[i] == '.' && name[j] == '.';
    assert forall k | i < k < |name| :: name[k] == a[k - i - 1];
    assert forall k | j < k < |name| :: name[k] == b[k - j - 1];
    assert a == name[i + 1..] && b == name[j + 1..];
  }

  lemma ExtensionIff(name: string, ext: string)
    ensures AfterLastDot(name) == Some(ext) <==> HasExtension(name, ext)
  {
    ExtensionFollowsTheLastDot(name);
    if HasExtension(name, ext) {
      assert name[|name| - |ext| - 1] == '.';
      OneExtension(name, ext, AfterLastDot(name).value);
    }
  }

  /** A rule is in scope exactly when it is active, of the draft's company, and every filter
      that is set is met: the connector, the department up to case and blanks, one of the
      extensions, every measured score within the cap and at least one measured, the tier. */
  lemma InScopeInFull(cfg: Settings, r: Rule, d: Draft, connector: Option<string>)
    ensures RuleApplies(cfg, r, d, connector) <==>
            && r.active && r.company == d.company
            && (r.connector.None? || r.connector == connector)
            && (r.dept.None? || cfg.lower(cfg.strip(r.dept.value)) == cfg.lower(cfg.strip(d.dept)))
            && (r.extensions == [] || exists e, ext :: e in r.extensions && HasExtension(d.filename, ext) && cfg.lower(cfg.strip(e)) == "." + cfg.lower(ext))
            && (r.maxSimilarity.None? || (d.scores != [] && forall i | 0 <= i < |d.scores| :: d.scores[i] <= r.maxSimilarity.value))
            && (r.riskTiers == [] || RiskTier(cfg, d) in r.riskTiers)
  {
    if r.maxSimilarity.Some? {
      CapBoundsEveryMatch(d.scores, r.maxSimilarity.value);
    }
    ExtensionFollowsTheLastDot(d.filename);
    forall ext ensures AfterLastDot(d.filename) == Some(ext) <==> HasExtension(d.filename, ext) {
      ExtensionIff(d.filename, ext);
    }
  }

  /** A filter that is set and cannot be evaluated keeps the rule out: no extension, nothing
      measured. A rule for standard drafts never sees one marked restricted or confidential,
      nor one of a department configured as high risk. */
  lemma ScopeFailsClosed(cfg: Settings, r: Rule, d: Draft, connector: Option<string>)
    requires RuleApplies(cfg, r, d, connector)
    ensures r.company == d.company
    ensures r.extensions != [] ==> '.' in d.filename
    ensures r.maxSimilarity.Some? ==> d.scores != [] && forall i | 0 <= i < |d.scores| :: d.scores[i] <= r.maxSimilarity.value
    ensures r.riskTiers == ["standard"] ==>
            && Folded(cfg, d.sensitivity) != "restricted" && Folded(cfg, d.sensitivity) != "confidential"
            && (Folded(cfg, d.dept) == "" || Folded(cfg, d.dept) !in cfg.highRisk)
  {
    ExtensionFollowsTheLastDot(d.filename);
    if r.maxSimilarity.Some? {
      CapBoundsEveryMatch(d.scores, r.maxSimilarity.value);
    }
    if r.riskTiers == ["standard"] {
      assert RiskTier(cfg, d) == "standard";
      assert "standard"[0] != "high"[0];
    }
  }

  // ----- the governing rule -----------------------------------------------------------------

  /** Python's order of strings. */
  predicate TextBefore(a: string, b: string) {
    if b == "" then false
    else if a == "" then true
    else a[0] < b[0] || (a[0] == b[0] && TextBefore(a[1..], b[1..]))
  }

  /** The texts part behind `k` letters they share, where the first one ends or has the lesser
      letter. */
  predicate PartsAt(a: string, b: string, k: nat) {
    k <= |a| && k < |b| && a[..k] == b[..k] && (k == |a| || a[k] < b[k])
  }

  lemma FirstLetterDiffers(a: string, b: string, k: nat)
    requires b == "" || (a != "" && a[0] > b[0])
    ensures !PartsAt(a, b, k)
  {
    if b != "" && 0 < k <= |a| && k < |b| {
      assert a[..k][0] != b[..k][0];
    }
  }

  lemma {:induction false} TextBeforeIff(a: string, b: string)
    ensures TextBefore(a, b) <==> exists k | 0 <= k <= |a| :: PartsAt(a, b, k)
  {
    if b != "" && (a == "" || a[0] < b[0]) {
      assert PartsAt(a, b, 0);
    } else if a != "" && b != "" && a[0] == b[0] {
      TextBeforeIff(a[1..], b[1..]);
      if k :| 0 <= k <= |a[1..]| && PartsAt(a[1..], b[1..], k) {
        assert a[..k + 1] == [a[0]] + a[1..][..k] && b[..k + 1] == [b[0]] + b[1..][..k];
        assert PartsAt(a, b, k + 1);
      }
      if k :| 0 <= k <= |a| && PartsAt(a, b, k) {
        assert k > 0;
        assert a[1..][..k - 1] == a[..k][1..] && b[1..][..k - 1] == b[..k][1..];
        assert PartsAt(a[1..], b[1..], k - 1);
      }
    } else {
      forall k | 0 <= k <= |a| ensures !PartsAt(a, b, k) {
        FirstLetterDiffers(a, b, k);
      }
    }
  }

  lemma {:induction false} TextIsTotal(a: string, b: string)
    ensures TextBefore(a, b) || TextBefore(b, a) || a == b
    ensures !(TextBefore(a, b) && TextBefore(b, a))
  {
    if a != "" && b != "" {
      TextIsTotal(a[1..], b[1..]);
      assert a == [a[0]] + a[1..] && b == [b[0]] + b[1..];
    }
  }

  lemma {:induction false} TextIsTransitive(a: string, b: string, c: string)
    requires TextBefore(a, b) && TextBefore(b, c)
    ensures TextBefore(a, c)
  {
    if a != "" && a[0] == b[0] == c[0] {
      TextIsTransitive(a[1..], b[1..], c[1..]);
    }
  }

  /** The sort key `(priority, str(id))`. */
  predicate Precedes(r: Rule, s: Rule) {
    r.priority < s.priority || (r.priority == s.priority && TextBefore(r.id, s.id))
  }

  lemma PrecedesIsOrder(r: Rule, s: Rule, t: Rule)
    ensures r.id != s.id ==> Precedes(r, s) || Precedes(s, r)
    ensures !(Precedes(r, s) && Precedes(s, r))
    ensures Precedes(r, s) && Precedes(s, t) ==> Precedes(r, t)
  {
    TextIsTotal(r.id, s.id);
    if Precedes(r, s) && Precedes(s, t) && r.priority == s.priority == t.priority {
      TextIsTransitive(r.id, s.id, t.id);
    }
  }

  function InScope(cfg: Settings, rules: seq<Rule>, d: Draft, connector: Option<string>): seq<Rule> {
    if rules == [] then []
    else
      var before := InScope(cfg, rules[..|rules| - 1], d, connector);
      var r := rules[|rules| - 1];
      if RuleApplies(cfg, r, d, connector) then before + [r] else before
  }

  /** `sorted(matching, key=...)`: stable insertion. */
  function Place(r: Rule, sorted: seq<Rule>): seq<Rule> {
    if sorted == [] then [r]
    else if Precedes(r, sorted[|sorted| - 1]) then Place(r, sorted[..|sorted| - 1]) + [sorted[|sorted| - 1]]
    else sorted + [r]
  }

  function Sorted(rules: seq<Rule>): seq<Rule> {
    if rules == [] then [] else Place(rules[|rules| - 1], Sorted(rules[..|rules| - 1]))
  }

  function SelectRule(cfg: Settings, rules: seq<Rule>, d: Draft, connector: Option<string>): Option<Rule> {
    var sorted := Sorted(InScope(cfg, rules, d, connector));
    if sorted == [] then None else Some(sorted[0])
  }

  lemma {:induction false} InScopeIff(cfg: Settings, rules: seq<Rule>, d: Draft, connector: Option<string>, r: Rule)
    ensures r in InScope(cfg, rules, d, connector) <==> r in rules && RuleApplies(cfg, r, d, connector)
  {
    if rules != [] {
      assert rules == rules[..|rules| - 1] + [rules[|rules| - 1]];
      InScopeIff(cfg, rules[..|rules| - 1], d, connector, r);
    }
  }

  lemma {:induction false} PlaceMembers(r: Rule, sorted: seq<Rule>, x: Rule)
    ensures x in Place(r, sorted) <==> x == r || x in sorted
  {
    if sorted != [] {
      assert sorted == sorted[..|sorted| - 1] + [sorted[|sorted| - 1]];
      PlaceMembers(r, sorted[..|sorted| - 1], x);
    }
  }

  predicate Ordered(rules: seq<Rule>) {
    forall i, j | 0 <= i < j < |rules| :: !Precedes(rules[j], rules[i])
  }

  /** Everything kept before `r` stays unpreceded by what is put after it. */
  lemma {:induction false} PlaceKeepsOrder(r: Rule, sorted: seq<Rule>)
    requires Ordered(sorted)
    ensures Ordered(Place(r, sorted))
  {
    if sorted != [] {
      var n := |sorted| - 1;
      var last := sorted[n];
      if Precedes(r, last) {
        PlaceKeepsOrder(r, sorted[..n]);
        var placed := Place(r, sorted[..n]);
        forall i | 0 <= i < |placed| ensures !Precedes(last, placed[i]) {
          PlaceMembers(r, sorted[..n], placed[i]);
          PrecedesIsOrder(r, last, last);
        }
      } else {
        forall i | 0 <= i < |sorted| ensures !Precedes(r, sorted[i]) {
          NotAfter(r, sorted[i], last);
        }
      }
    }
  }

  /** "Not before" is transitive, as the order is total on keys. */
  lemma NotAfter(r: Rule, x: Rule, last: Rule)
    requires !Precedes(r, last) && (x == last || !Precedes(last, x))
    ensures !Precedes(r, x)
  {
    TextIsTotal(r.id, last.id);
    TextIsTotal(last.id, x.id);
    if Precedes(r, x) && r.priority == x.priority == last.priority && r.id != last.id && last.id != x.id {
      TextIsTransitive(last.id, r.id, x.id);
    }
  }

  lemma {:induction false} SortedIsOrdered(rules: seq<Rule>, x: Rule)
    ensures Ordered(Sorted(rules)) && (x in Sorted(rules) <==> x in rules)
  {
    if rules != [] {
      var n := |rules| - 1;
      assert rules == rules[..n] + [rules[n]];
      SortedIsOrdered(rules[..n], x);
      PlaceKeepsOrder(rules[n], Sorted(rules[..n]));
      PlaceMembers(rules[n], Sorted(rules[..n]), x);
    }
  }

  /** `r` is in scope and no rule in scope precedes it. */
  predicate Governs(cfg: Settings, rules: seq<Rule>, d: Draft, connector: Option<string>, r: Rule) {
    && r in rules && RuleApplies(cfg, r, d, connector)
    && forall s | s in rules :: RuleApplies(cfg, s, d, connector) ==> !Precedes(s, r)
  }

  /** The selected rule governs; none is selected exactly when none is in scope. */
  lemma SelectedRuleGoverns(cfg: Settings, rules: seq<Rule>, d: Draft, connector: Option<string>)
    ensures var r := SelectRule(cfg, rules, d, connector);
            if r.Some? then Governs(cfg, rules, d, connector, r.value)
            else forall s | s in rules :: !RuleApplies(cfg, s, d, connector)
    // Lower priorities first, and earlier ids among equal ones.
    ensures var r := SelectRule(cfg, rules, d, connector);
            r.Some? ==> forall s | s in rules && RuleApplies(cfg, s, d, connector) ::
                          r.value.priority <= s.priority && (s.priority == r.value.priority ==> !TextBefore(s.id, r.value.id))
  {
    var matching := InScope(cfg, rules, d, connector);
    var sorted := Sorted(matching);
    forall s | s in rules && RuleApplies(cfg, s, d, connector)
      ensures sorted != [] && !Precedes(s, sorted[0])
    {
      InScopeIff(cfg, rules, d, connector, s);
      SortedIsOrdered(matching, s);
      var i :| 0 <= i < |sorted| && sorted[i] == s;
      PrecedesIsOrder(s, s, s);
    }
    if sorted != [] {
      SortedIsOrdered(matching, sorted[0]);
      InScopeIff(cfg, rules, d, connector, sorted[0]);
    }
  }

  predicate DistinctIds(rules: seq<Rule>) {
    forall r, s | r in rules && s in rules :: r.id == s.id ==> r == s
  }

  /** Rules with distinct ids leave one governing rule, so their order does not matter. */
  lemma SelectionIsOrderIndependent(cfg: Settings, rules: seq<Rule>, others: seq<Rule>, d: Draft, connector: Option<string>)
    requires DistinctIds(rules) && forall r :: r in rules <==> r in others
    ensures SelectRule(cfg, rules, d, connector) == SelectRule(cfg, others, d, connector)
  {
    SelectedRuleGoverns(cfg, rules, d, connector);
    SelectedRuleGoverns(cfg, others, d, connector);
    var r, s := SelectRule(cfg, rules, d, connector), SelectRule(cfg, others, d, connector);
    if r.Some? && s.Some? {
      PrecedesIsOrder(r.value, s.value, s.value);
    }
  }

  // ----- the verdict ---------------------------------------------------------------------------

  datatype Action = Approve | Reject | Abstain

  /** What came back from the model; a decision that is none of the three words is unsure. */
  datatype Reply = NoProvider | Unreachable | Unreadable | Said(decision: string)

  datatype Verdict = Verdict(action: Action, rule: Option<Rule>)

  predicate Unprepared(preparation: string) {
    preparation == "queued" || preparation == "processing" || preparation == "deferred"
  }

  /** What one rule makes of a reply. */
  function Act(r: Rule, reply: Reply): Action {
    if !(r.canApprove || r.canReject) then Abstain
    else
      match reply
      case NoProvider => Abstain
      case Unreachable => Abstain
      case Unreadable => Abstain
      case Said(decision) =>
        if decision == "approve" then if r.canApprove then Approve else Abstain
        else if decision == "reject" then if r.canReject then Reject else Abstain
        else Abstain
  }

  function Decide(cfg: Settings, d: Draft, rules: seq<Rule>, connector: Option<string>, reply: Reply): Verdict {
    if Unprepared(d.preparation) then Verdict(Abstain, None)
    else
      var rule := SelectRule(cfg, rules, d, connector);
      if rule.None? then Verdict(Abstain, None) else Verdict(Act(rule.value, reply), rule)
  }

  predicate Grants(r: Rule, action: Action) {
    (action == Approve ==> r.canApprove) && (action == Reject ==> r.canReject)
  }

  /** Whatever the model replies, an acting verdict names the governing rule, which grants
      the action, and says what the model said: it approves exactly where the reply is to
      approve and that rule may, and rejects exactly where it is to reject and that rule may. */
  lemma VerdictNeedsTheGoverningRule(cfg: Settings, d: Draft, rules: seq<Rule>, connector: Option<string>, reply: Reply)
    ensures var v := Decide(cfg, d, rules, connector, reply);
            v.action != Abstain <==>
              && !Unprepared(d.preparation)
              && (exists r | r in rules :: Governs(cfg, rules, d, connector, r) && SelectRule(cfg, rules, d, connector) == Some(r) &&
                    ((reply == Said("approve") && r.canApprove) || (reply == Said("reject") && r.canReject)))
    ensures var v := Decide(cfg, d, rules, connector, reply);
            v.action != Abstain ==> v.rule.Some? && Governs(cfg, rules, d, connector, v.rule.value) && Grants(v.rule.value, v.action)
    ensures var v, selected := Decide(cfg, d, rules, connector, reply), SelectRule(cfg, rules, d, connector);
            var asked := d.preparation !in ["queued", "processing", "deferred"] && selected.Some?;
            && (v.action == Approve <==> asked && reply == Said("approve") && selected.value.canApprove)
            && (v.action == Reject <==> asked && reply == Said("reject") && selected.value.canReject)
            && (v.action != Abstain ==> v.rule == selected)
  {
    SelectedRuleGoverns(cfg, rules, d, connector);
  }

  // ----- the first rule that reaches a verdict ---------------------------------------------------

  /** The verdict of the first rule that reaches one, each with its own reply. */
  function FirstVerdict(rules: seq<Rule>, reply: Rule -> Reply): Action {
    if rules == [] then Abstain
    else if Act(rules[0], reply(rules[0])) != Abstain then Act(rules[0], reply(rules[0]))
    else FirstVerdict(rules[1..], reply)
  }

  /** `Decide`, where the model answers each rule's question by `reply`. */
  function Asked(cfg: Settings, d: Draft, rules: seq<Rule>, connector: Option<string>, reply: Rule -> Reply): Action {
    var rule := SelectRule(cfg, rules, d, connector);
    Decide(cfg, d, rules, connector, if rule.Some? then reply(rule.value) else NoProvider).action
  }

  /** The rules in scope, in the order they would be asked. */
  function Queue(cfg: Settings, d: Draft, rules: seq<Rule>, connector: Option<string>): seq<Rule> {
    Sorted(InScope(cfg, rules, d, connector))
  }

  lemma QueueIff(cfg: Settings, d: Draft, rules: seq<Rule>, connector: Option<string>, r: Rule)
    ensures r in Queue(cfg, d, rules, connector) <==> r in rules && RuleApplies(cfg, r, d, connector)
  {
    SortedIsOrdered(InScope(cfg, rules, d, connector), r);
    InScopeIff(cfg, rules, d, connector, r);
  }

  /** Whatever the model replies, the first rule that reaches a verdict decides. */
  ghost predicate FirstVerdictDecides(cfg: Settings, d: Draft, rules: seq<Rule>, connector: Option<string>) {
    forall reply: Rule -> Reply :: Asked(cfg, d, rules, connector, reply) == FirstVerdict(Queue(cfg, d, rules, connector), reply)
  }

  /** No rule in scope but the selected one may do anything. */
  predicate OthersArePowerless(cfg: Settings, d: Draft, rules: seq<Rule>, connector: Option<string>) {
    forall r | r in rules :: RuleApplies(cfg, r, d, connector) && SelectRule(cfg, rules, d, connector) != Some(r) ==>
      !r.canApprove && !r.canReject
  }

  lemma {:induction false} NobodyActs(rules: seq<Rule>, reply: Rule -> Reply)
    requires forall r | r in rules :: Act(r, reply(r)) == Abstain
    ensures FirstVerdict(rules, reply) == Abstain
  {
    if rules != [] {
      NobodyActs(rules[1..], reply);
    }
  }

  lemma {:induction false} SomebodyActs(rules: seq<Rule>, reply: Rule -> Reply, r: Rule)
    requires r in rules && Act(r, reply(r)) != Abstain
    ensures FirstVerdict(rules, reply) != Abstain
  {
    if Act(rules[0], reply(rules[0])) == Abstain {
      assert rules == [rules[0]] + rules[1..];
      SomebodyActs(rules[1..], reply, r);
    }
  }

  lemma PowerlessOthersDecideNothing(cfg: Settings, d: Draft, rules: seq<Rule>, connector: Option<string>, reply: Rule -> Reply)
    requires !Unprepared(d.preparation) && OthersArePowerless(cfg, d, rules, connector)
    ensures Asked(cfg, d, rules, connector, reply) == FirstVerdict(Queue(cfg, d, rules, connector), reply)
  {
    var queue := Queue(cfg, d, rules, connector);
    if Asked(cfg, d, rules, connector, reply) == Abstain {
      forall r | r in queue ensures Act(r, reply(r)) == Abstain {
        QueueIff(cfg, d, rules, connector, r);
      }
      NobodyActs(queue, reply);
    }
  }

  /** A model that answers this rule with what it may do, and is silent on every other. */
  function Favouring(favoured: Rule): Rule -> Reply {
    r => if r == favoured then Said(if favoured.canApprove then "approve" else "reject") else NoProvider
  }

  /** "The first rule that reaches a verdict decides" is kept, whatever the model replies,
      exactly when no rule in scope but the selected one may do anything. */
  lemma FirstVerdictDecidesIff(cfg: Settings, d: Draft, rules: seq<Rule>, connector: Option<string>)
    requires !Unprepared(d.preparation)
    ensures FirstVerdictDecides(cfg, d, rules, connector) <==> OthersArePowerless(cfg, d, rules, connector)
  {
    if OthersArePowerless(cfg, d, rules, connector) {
      forall reply: Rule -> Reply
        ensures Asked(cfg, d, rules, connector, reply) == FirstVerdict(Queue(cfg, d, rules, connector), reply)
      {
        PowerlessOthersDecideNothing(cfg, d, rules, connector, reply);
      }
    } else {
      var r :| r in rules && RuleApplies(cfg, r, d, connector) && SelectRule(cfg, rules, d, connector) != Some(r) &&
               (r.canApprove || r.canReject);
      QueueIff(cfg, d, rules, connector, r);
      SomebodyActs(Queue(cfg, d, rules, connector), Favouring(r), r);
      assert Asked(cfg, d, rules, connector, Favouring(r)) == Abstain;
    }
  }

  /** A governing rule that abstains is final: no rule behind it is asked. Here the rule of
      priority one may not act, and the rule of priority two, which may, never gets a say. */
  lemma AbstainingRuleBlocksTheNext(cfg: Settings, d: Draft, first: Rule, second: Rule)
    requires RuleApplies(cfg, first, d, None) && RuleApplies(cfg, second, d, None) && !Unprepared(d.preparation)
    requires first.priority < second.priority && !first.canApprove && !first.canReject && second.canApprove
    ensures Decide(cfg, d, [first, second], None, Said("approve")).action == Abstain
    ensures Decide(cfg, d, [second], None, Said("approve")).action == Approve
  {
    SelectedRuleGoverns(cfg, [first, second], d, None);
    SelectedRuleGoverns(cfg, [second], d, None);
    assert first in [first, second] && second in [second];
  }
}
