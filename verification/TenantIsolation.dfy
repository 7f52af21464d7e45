/** What the shipped policies amount to: which rows a context sees at the newest of these
    revisions, that two companies see nothing in common, and where a revision or a
    downgrade misses what it set out to do. */
module TenantIsolation {
  import opened Options
  import opened RowPolicies
  import opened PolicyMigrations

  // ----- the newest catalog, read as plain sentences ------------------------------------

  /** The flags that open a table completely. */
  function Openers(t: Table): set<Flag> {
    match t
    case Articles | ArticleChunks | ParentChunks | DocumentSources | ArticleVersions | ArticleTags | ArticleAccess
       | Comments | Votes => {GlobalAdmin, GlobalArticle}
    case AccessGroups => {GlobalAdmin, GlobalArticle, GlobalIdentity}
    case Users | UserGroups | Roles | UserRoles | RolePermissions => {GlobalAdmin, GlobalIdentity}
    case Connectors | ConnectorJobs | SourceScopes | SyncCursors | ExternalGroupMappings | SyncErrors
       | WebhookSubscriptions | ExternalDocuments | DocumentVersions | PermissionSnapshots | ExternalAclPrincipals =>
      {GlobalAdmin, GlobalConnector}
    case PendingDrafts | Gaps | AuditLogs => {GlobalAdmin, GlobalGovernance}
    case _ => {GlobalAdmin}
  }

  predicate Opened(ctx: Context, t: Table) {
    exists f | f in Openers(t) :: f in ctx.flags
  }

  /** The row points at a row of `t` that belongs to the company. */
  ghost predicate PointsIntoCompany(db: Database, ctx: Context, row: Row, column: Column, t: Table) {
    exists x | x in RowsOf(db, t) :: RefersTo(row, column, x) && InCompany(ctx, x)
  }

  ghost predicate UnderRole(db: Database, ctx: Context, row: Row) {
    exists r | r in RowsOf(db, Roles) :: RefersTo(row, RoleId, r) && (CompanyDomain !in r || InCompany(ctx, r))
  }

  ghost predicate UnderConversation(db: Database, ctx: Context, row: Row) {
    exists c | c in RowsOf(db, AiConversations) :: RefersTo(row, ConversationId, c) && Owns(ctx, c, UserId)
  }

  ghost predicate UnderDocument(db: Database, ctx: Context, row: Row) {
    exists d, c | d in RowsOf(db, ExternalDocuments) && c in RowsOf(db, Connectors) ::
      RefersTo(row, ExternalDocumentId, d) && RefersTo(d, ConnectorId, c) && InCompany(ctx, c)
  }

  ghost predicate UnderSnapshot(db: Database, ctx: Context, row: Row) {
    exists p, d, c | p in RowsOf(db, PermissionSnapshots) && d in RowsOf(db, ExternalDocuments) && c in RowsOf(db, Connectors) ::
      && RefersTo(row, PermissionSnapshotId, p) && RefersTo(p, ExternalDocumentId, d) && RefersTo(d, ConnectorId, c)
      && InCompany(ctx, c)
  }

  /** Whose row it is: the company's, through its chain of keys, or the user's. Roles
      without a company are everybody's. */
  ghost predicate Belongs(db: Database, ctx: Context, t: Table, row: Row) {
    match t
    case Articles | AccessGroups | Users | Connectors | PendingDrafts | Gaps | Departments => InCompany(ctx, row)
    case Roles => CompanyDomain !in row || InCompany(ctx, row)
    case ArticleChunks | ParentChunks | DocumentSources | ArticleVersions | ArticleTags | ArticleAccess | Comments | Votes =>
      PointsIntoCompany(db, ctx, row, ArticleId, Articles)
    case Bookmarks =>
      Owns(ctx, row, UserId) && (GlobalArticle in ctx.flags || PointsIntoCompany(db, ctx, row, ArticleId, Articles))
    case UserRoles | RefreshSessions | AuditLogs => PointsIntoCompany(db, ctx, row, UserId, Users)
    case UserGroups =>
      PointsIntoCompany(db, ctx, row, UserId, Users) && PointsIntoCompany(db, ctx, row, GroupId, AccessGroups)
    case RolePermissions => UnderRole(db, ctx, row)
    case NotificationQueue => Owns(ctx, row, RecipientUserId)
    case AiConversations | AiUsageLogs | AiFeedback | SearchLogs => Owns(ctx, row, UserId)
    case AiCache => Owns(ctx, row, OwnerUserId)
    case AiMessages => UnderConversation(db, ctx, row)
    case ConnectorJobs | SourceScopes | SyncCursors | ExternalGroupMappings | SyncErrors | WebhookSubscriptions
       | ExternalDocuments =>
      PointsIntoCompany(db, ctx, row, ConnectorId, Connectors)
    case DocumentVersions | PermissionSnapshots => UnderDocument(db, ctx, row)
    case ExternalAclPrincipals => UnderSnapshot(db, ctx, row)
  }

  // ----- every shipped catalog is free of surprises ---------------------------------------

  function Else(newer: Option<Expr>, older: Option<Expr>): Option<Expr> {
    if newer.Some? then newer else older
  }

  /** The policy of a table at a revision: what the last revision to touch it wrote. */
  function Policy(r: Stage, t: Table): Option<Expr>
    decreases Age(r)
  {
    match r
    case R17 => Else(Written05(t), Else(Written09(t), Written17(t)))
    case R21 => Else(Policy(R17, t), Written21(t))
    case R24 => Else(Written24(t), Else(Written23(t), Policy(R21, t)))
    case R26 => Else(Written26(t), Policy(R24, t))
    case R27 => Else(Written27(t), Policy(R26, t))
    case R28 => Else(Written28(true, t), Policy(R27, t))
    case R29 => Else(Written29(true, t), Policy(R28, t))
    case Undone26 => Else(Restored26(t), Policy(R26, t))
    case Undone27 => Else(Restored27(t), Policy(R27, t))
    case Undone28 => Else(Written28(false, t), Policy(R28, t))
    case Undone29 => Else(Written29(false, t), Policy(R29, t))
  }

  /** The catalog gives the table this policy, and forces row security exactly with it. */
  predicate Gives(cat: Catalog, t: Table, policy: Option<Expr>) {
    && (t in cat.policies <==> policy.Some?)
    && (t in cat.forced <==> policy.Some?)
    && (policy.Some? ==> cat.policies[t] == policy.value)
  }

  lemma PutGives(cat: Catalog, t: Table, policy: Option<Expr>, written: Table -> Option<Expr>)
    requires Gives(cat, t, policy)
    ensures Gives(Put(cat, Entries(written)), t, Else(written(t), policy))
    ensures Gives(PutMissing(cat, Entries(written)), t, Else(policy, written(t)))
  {
  }

  lemma FirstCatalogIs(t: Table)
    ensures Gives(At(R17), t, Policy(R17, t))
  {
    var empty := Catalog(map[], {});
    var at05 := PutMissing(empty, Entries(Written05));
    PutGives(empty, t, None, Written05);
    PutGives(at05, t, Written05(t), Written09);
    PutGives(PutMissing(at05, Entries(Written09)), t, Else(Written05(t), Written09(t)), Written17);
  }

  lemma {:induction false} CatalogIs(r: Stage, t: Table)
    ensures Gives(At(r), t, Policy(r, t))
    decreases Age(r)
  {
    match r
    case R17 => FirstCatalogIs(t);
    case R21 => CatalogIs(R17, t); PutGives(At(R17), t, Policy(R17, t), Written21);
    case R24 =>
      CatalogIs(R21, t);
      PutGives(At(R21), t, Policy(R21, t), Written23);
      PutGives(Put(At(R21), Entries(Written23)), t, Else(Written23(t), Policy(R21, t)), Written24);
    case R26 => CatalogIs(R24, t); PutGives(At(R24), t, Policy(R24, t), Written26);
    case R27 => CatalogIs(R26, t); PutGives(At(R26), t, Policy(R26, t), Written27);
    case R28 => CatalogIs(R27, t); PutGives(At(R27), t, Policy(R27, t), t => Written28(true, t));
    case R29 => CatalogIs(R28, t); PutGives(At(R28), t, Policy(R28, t), t => Written29(true, t));
    case Undone26 => CatalogIs(R26, t); PutGives(At(R26), t, Policy(R26, t), Restored26);
    case Undone27 => CatalogIs(R27, t); PutGives(At(R27), t, Policy(R27, t), Restored27);
    case Undone28 => CatalogIs(R28, t); PutGives(At(R28), t, Policy(R28, t), t => Written28(false, t));
    case Undone29 => CatalogIs(R29, t); PutGives(At(R29), t, Policy(R29, t), t => Written29(false, t));
  }

  /** The tests a subquery may put to a row of `t`. */
  predicate Asked(t: Table, test: Expr) {
    match t
    case Users | AccessGroups | Articles => test.SameCompany?
    case Connectors => test.SameCompany? || test == Or(SameCompany, Admin())
    case Roles => test == SharedOrInCompany()
    case AiConversations => test == OwnedBy(UserId)
    case ExternalDocuments => test == ConnectorInCompany()
    case PermissionSnapshots => test == DocumentInCompany()
    case _ => false
  }

  predicate Fits(e: Expr, depth: nat) {
    match e
    case Or(l, r) => Fits(l, depth) && Fits(r, depth)
    case And(l, r) => Fits(l, depth) && Fits(r, depth)
    case Via(_, t, test) => Depth(t) < depth && Asked(t, test)
    case _ => true
  }

  lemma Unfold(depth: nat)
    ensures forall l, r {:trigger Or(l, r)} :: Fits(Or(l, r), depth) <==> Fits(l, depth) && Fits(r, depth)
    ensures forall l, r {:trigger And(l, r)} :: Fits(And(l, r), depth) <==> Fits(l, depth) && Fits(r, depth)
    ensures forall l, r {:trigger Or(l, r)} :: Disjuncts(Or(l, r)) == Disjuncts(l) + Disjuncts(r)
  {
  }

  /** The building blocks fit tables that sit above those they read. */
  lemma BlocksFit(depth: nat)
    requires depth > 0
    ensures Fits(UserInCompany(), depth) && Fits(GroupInCompany(), depth) && Fits(ArticleInCompany(), depth)
    ensures Fits(Via(RoleId, Roles, SharedOrInCompany()), depth)
    ensures Fits(Via(ConversationId, AiConversations, OwnedBy(UserId)), depth)
  {
  }

  lemma ConnectorBlocksFit(depth: nat)
    requires depth > 0
    ensures Fits(ConnectorInCompany(), depth) && Fits(Via(ConnectorId, Connectors, Or(SameCompany, Admin())), depth)
    ensures depth > 1 ==> Fits(DocumentInCompany(), depth)
    ensures depth > 2 ==> Fits(SnapshotInCompany(), depth)
  {
  }

  predicate PolicyFits(policy: Option<Expr>, t: Table) {
    policy.Some? ==> Fits(policy.value, Depth(t))
  }

  predicate Undone(r: Stage) { Age(r) == 7 }

  lemma Fit05(t: Table)
    ensures PolicyFits(Written05(t), t)
  {
    Unfold(Depth(t));
  }

  lemma Fit09(t: Table)
    ensures PolicyFits(Written09(t), t)
  {
    Unfold(Depth(t));
    if Depth(t) > 0 {
      ConnectorBlocksFit(Depth(t));
    }
    match t
    case SourceScopes | ExternalGroupMappings | SyncErrors | SyncCursors | WebhookSubscriptions =>
    case ExternalDocuments | DocumentVersions | PermissionSnapshots | ExternalAclPrincipals =>
    case _ =>
  }

  lemma Fit17(t: Table)
    ensures PolicyFits(Written17(t), t)
  {
    Unfold(Depth(t));
  }

  lemma Fit21Identity(t: Table)
    requires t == UserGroups || t == UserRoles || t == RefreshSessions || t == AuditLogs || t == RolePermissions || t == Roles
    ensures Fits(Written21(t).value, Depth(t))
  {
    Unfold(Depth(t));
    if t != Roles {
      BlocksFit(Depth(t));
    }
  }

  lemma Fit21Articles(t: Table)
    requires t == AiMessages || t == Comments || t == Votes || t == Bookmarks
    ensures Fits(Written21(t).value, Depth(t))
  {
    Unfold(Depth(t));
    BlocksFit(Depth(t));
  }

  lemma Fit21(t: Table)
    ensures PolicyFits(Written21(t), t)
  {
    match t
    case UserGroups | UserRoles | RefreshSessions | AuditLogs | RolePermissions | Roles => Fit21Identity(t);
    case AiMessages | Comments | Votes | Bookmarks => Fit21Articles(t);
    case _ =>
  }

  lemma Fit23(t: Table)
    ensures PolicyFits(Written23(t), t)
  {
    Unfold(Depth(t));
  }

  lemma Fit24(t: Table)
    ensures PolicyFits(Written24(t), t)
  {
    Unfold(Depth(t));
  }

  lemma Fit26(t: Table)
    ensures PolicyFits(Written26(t), t)
  {
    Unfold(Depth(t));
  }

  lemma Fit27(t: Table)
    ensures PolicyFits(Written27(t), t)
  {
    Unfold(Depth(t));
  }

  lemma FitRestored26(t: Table)
    ensures PolicyFits(Restored26(t), t)
  {
    Unfold(Depth(t));
  }

  lemma FitRestored27(t: Table)
    ensures PolicyFits(Restored27(t), t)
  {
    Unfold(Depth(t));
  }

  lemma Fit28(honoured: bool, t: Table)
    ensures PolicyFits(Written28(honoured, t), t)
  {
    Unfold(Depth(t));
    if Depth(t) > 0 {
      ConnectorBlocksFit(Depth(t));
    }
    match t
    case Connectors =>
    case ConnectorJobs | SourceScopes | SyncCursors | ExternalGroupMappings | SyncErrors | WebhookSubscriptions | ExternalDocuments =>
    case DocumentVersions | PermissionSnapshots | ExternalAclPrincipals =>
    case _ =>
  }

  lemma Fit29(honoured: bool, t: Table)
    ensures PolicyFits(Written29(honoured, t), t)
  {
    Unfold(Depth(t));
  }

  lemma {:induction false} UpgradesFit(r: Stage, t: Table)
    requires !Undone(r)
    ensures PolicyFits(Policy(r, t), t)
    decreases Age(r)
  {
    match r
    case R17 => Fit05(t); Fit09(t); Fit17(t);
    case R21 => UpgradesFit(R17, t); Fit21(t);
    case R24 => UpgradesFit(R21, t); Fit23(t); Fit24(t);
    case R26 => UpgradesFit(R24, t); Fit26(t);
    case R27 => UpgradesFit(R26, t); Fit27(t);
    case R28 => UpgradesFit(R27, t); Fit28(true, t);
    case R29 => UpgradesFit(R28, t); Fit29(true, t);
  }

  lemma {:induction false} EveryPolicyFits(r: Stage, t: Table)
    ensures PolicyFits(Policy(r, t), t)
  {
    match r
    case Undone26 => UpgradesFit(R26, t); FitRestored26(t);
    case Undone27 => UpgradesFit(R27, t); FitRestored27(t);
    case Undone28 => UpgradesFit(R28, t); Fit28(false, t);
    case Undone29 => UpgradesFit(R29, t); Fit29(false, t);
    case _ => UpgradesFit(r, t);
  }

  /** Everything a subquery can ask of a row is a way the policy lets it through. */
  ghost predicate Admits(policy: Option<Expr>, t: Table) {
    forall test {:trigger Asked(t, test)} | Asked(t, test) :: policy.Some? ==> Disjuncts(test) <= Disjuncts(policy.value)
  }

  lemma Admits17(t: Table)
    ensures Admits(Written05(t), t) && Admits(Written09(t), t) && Admits(Written17(t), t)
  {
    Unfold(0);
  }

  lemma Admits21(t: Table)
    ensures Admits(Written21(t), t) && Admits(Written23(t), t)
  {
    Unfold(0);
  }

  lemma Admits24(t: Table)
    ensures Admits(Written24(t), t) && Admits(Written26(t), t)
  {
    Unfold(0);
  }

  lemma Admits27(t: Table)
    ensures Admits(Written27(t), t) && Admits(Restored27(t), t) && Admits(Restored26(t), t)
  {
    Unfold(0);
  }

  lemma Admits28(honoured: bool, t: Table)
    ensures Admits(Written28(honoured, t), t) && Admits(Written29(honoured, t), t)
  {
    Unfold(0);
  }

  lemma {:induction false} UpgradesAdmit(r: Stage, t: Table)
    requires !Undone(r)
    ensures Admits(Policy(r, t), t)
    decreases Age(r)
  {
    match r
    case R17 => Admits17(t);
    case R21 => UpgradesAdmit(R17, t); Admits21(t);
    case R24 => UpgradesAdmit(R21, t); Admits21(t); Admits24(t);
    case R26 => UpgradesAdmit(R24, t); Admits24(t);
    case R27 => UpgradesAdmit(R26, t); Admits27(t);
    case R28 => UpgradesAdmit(R27, t); Admits28(true, t);
    case R29 => UpgradesAdmit(R28, t); Admits28(true, t);
  }

  /** The policy of a table admits every row a subquery can ask for. */
  lemma {:induction false} EveryPolicyAdmits(r: Stage, t: Table)
    ensures Admits(Policy(r, t), t)
  {
    match r
    case Undone26 => UpgradesAdmit(R26, t); Admits27(t);
    case Undone27 => UpgradesAdmit(R27, t); Admits27(t);
    case Undone28 => UpgradesAdmit(R28, t); Admits28(false, t);
    case Undone29 => UpgradesAdmit(R29, t); Admits28(false, t);
    case _ => UpgradesAdmit(r, t);
  }

  lemma AskedFits(t: Table, test: Expr)
    requires Asked(t, test)
    ensures Fits(test, Depth(t))
  {
    Unfold(Depth(t));
  }

  lemma {:induction false} FitsIsBelow(e: Expr, low: nat, high: nat)
    requires Fits(e, low) && low <= high
    ensures Below(e, high)
    decreases high, e
  {
    match e
    case Or(l, r) => FitsIsBelow(l, low, high); FitsIsBelow(r, low, high);
    case And(l, r) => FitsIsBelow(l, low, high); FitsIsBelow(r, low, high);
    case Via(_, t, test) => AskedFits(t, test); FitsIsBelow(test, Depth(t), high);
    case _ =>
  }

  lemma {:induction false} FitsIsSheltered(r: Stage, e: Expr, depth: nat)
    requires Fits(e, depth)
    ensures Sheltered(At(r), e)
    decreases depth, e
  {
    match e
    case Or(left, right) => FitsIsSheltered(r, left, depth); FitsIsSheltered(r, right, depth);
    case And(left, right) => FitsIsSheltered(r, left, depth); FitsIsSheltered(r, right, depth);
    case Via(_, t, test) =>
      AskedFits(t, test);
      FitsIsSheltered(r, test, Depth(t));
      CatalogIs(r, t);
      EveryPolicyAdmits(r, t);
    case _ =>
  }

  /** At every revision, row security inside the subqueries changes nothing. */
  lemma EveryRevisionIsFlat(r: Stage, db: Database, ctx: Context, t: Table, row: Row)
    ensures Layered(At(r))
    ensures Visible(At(r), db, ctx, t, row) <==> (Policy(r, t).Some? ==> FlatHolds(db, ctx, Policy(r, t).value, row))
  {
    forall t | t in At(r).policies
      ensures Below(At(r).policies[t], Depth(t)) && Sheltered(At(r), At(r).policies[t])
    {
      CatalogIs(r, t);
      EveryPolicyFits(r, t);
      FitsIsBelow(Policy(r, t).value, Depth(t), Depth(t));
      FitsIsSheltered(r, Policy(r, t).value, Depth(t));
    }
    CatalogIs(r, t);
    VisibleIffFlat(At(r), db, ctx, t, row);
  }

  // ----- the newest revision ------------------------------------------------------------

  /** What the building blocks of the predicates say. */
  lemma BlocksFlat(db: Database, ctx: Context, row: Row)
    ensures FlatHolds(db, ctx, UserInCompany(), row) <==> PointsIntoCompany(db, ctx, row, UserId, Users)
    ensures FlatHolds(db, ctx, GroupInCompany(), row) <==> PointsIntoCompany(db, ctx, row, GroupId, AccessGroups)
    ensures FlatHolds(db, ctx, ArticleInCompany(), row) <==> PointsIntoCompany(db, ctx, row, ArticleId, Articles)
    ensures FlatHolds(db, ctx, ConnectorInCompany(), row) <==> PointsIntoCompany(db, ctx, row, ConnectorId, Connectors)
    ensures FlatHolds(db, ctx, Via(RoleId, Roles, SharedOrInCompany()), row) <==> UnderRole(db, ctx, row)
    ensures FlatHolds(db, ctx, Via(ConversationId, AiConversations, OwnedBy(UserId)), row) <==> UnderConversation(db, ctx, row)
  {
    forall x
      ensures FlatHolds(db, ctx, SameCompany, x) <==> InCompany(ctx, x)
      ensures FlatHolds(db, ctx, SharedOrInCompany(), x) <==> CompanyDomain !in x || InCompany(ctx, x)
      ensures FlatHolds(db, ctx, OwnedBy(UserId), x) <==> Owns(ctx, x, UserId)
    {
    }
  }

  lemma UnderDocumentFlat(db: Database, ctx: Context, row: Row)
    ensures FlatHolds(db, ctx, DocumentInCompany(), row) <==> UnderDocument(db, ctx, row)
  {
    forall d
      ensures FlatHolds(db, ctx, ConnectorInCompany(), d) <==> PointsIntoCompany(db, ctx, d, ConnectorId, Connectors)
    {
      BlocksFlat(db, ctx, d);
    }
  }

  lemma UnderSnapshotFlat(db: Database, ctx: Context, row: Row)
    ensures FlatHolds(db, ctx, SnapshotInCompany(), row) <==> UnderSnapshot(db, ctx, row)
  {
    forall p
      ensures FlatHolds(db, ctx, DocumentInCompany(), p) <==> UnderDocument(db, ctx, p)
    {
      UnderDocumentFlat(db, ctx, p);
    }
  }

  lemma OrFlat(db: Database, ctx: Context, l: Expr, r: Expr, row: Row)
    ensures FlatHolds(db, ctx, Or(l, r), row) <==> FlatHolds(db, ctx, l, row) || FlatHolds(db, ctx, r, row)
  {
  }

  /** `admin OR flag OR e`. */
  lemma AdminOrFlat(db: Database, ctx: Context, flag: Flag, e: Expr, row: Row)
    ensures FlatHolds(db, ctx, Or(Admin(), e), row) <==> GlobalAdmin in ctx.flags || FlatHolds(db, ctx, e, row)
    ensures FlatHolds(db, ctx, AdminOr(flag, e), row) <==>
            GlobalAdmin in ctx.flags || flag in ctx.flags || FlatHolds(db, ctx, e, row)
  {
    OrFlat(db, ctx, Admin(), HasFlag(flag), row);
  }

  lemma OpenedByOne(ctx: Context, t: Table)
    requires Openers(t) == {GlobalAdmin}
    ensures Opened(ctx, t) <==> GlobalAdmin in ctx.flags
  {
  }

  lemma OpenedByTwo(ctx: Context, t: Table, flag: Flag)
    requires Openers(t) == {GlobalAdmin, flag}
    ensures Opened(ctx, t) <==> GlobalAdmin in ctx.flags || flag in ctx.flags
  {
  }

  lemma Flat29(db: Database, ctx: Context, t: Table, row: Row)
    requires Written29(true, t).Some?
    ensures FlatHolds(db, ctx, Written29(true, t).value, row) <==> Opened(ctx, t) || Belongs(db, ctx, t, row)
  {
    BlocksFlat(db, ctx, row);
    AdminOrFlat(db, ctx, GlobalGovernance, SameCompany, row);
    AdminOrFlat(db, ctx, GlobalGovernance, UserInCompany(), row);
  }

  lemma Flat28(db: Database, ctx: Context, t: Table, row: Row)
    requires Written28(true, t).Some?
    ensures FlatHolds(db, ctx, Written28(true, t).value, row) <==> Opened(ctx, t) || Belongs(db, ctx, t, row)
  {
    BlocksFlat(db, ctx, row);
    UnderDocumentFlat(db, ctx, row);
    UnderSnapshotFlat(db, ctx, row);
    AdminOrFlat(db, ctx, GlobalConnector, SameCompany, row);
    AdminOrFlat(db, ctx, GlobalConnector, ConnectorInCompany(), row);
    AdminOrFlat(db, ctx, GlobalConnector, DocumentInCompany(), row);
    AdminOrFlat(db, ctx, GlobalConnector, SnapshotInCompany(), row);
  }

  lemma Flat26(db: Database, ctx: Context, t: Table, row: Row)
    requires Written26(t).Some? && Written29(true, t).None?
    ensures FlatHolds(db, ctx, Written26(t).value, row) <==> Opened(ctx, t) || Belongs(db, ctx, t, row)
  {
    if t == RefreshSessions || t == AccessGroups {
      FlatSessionsAndGroups(db, ctx, t, row);
    } else {
      OpenedByTwo(ctx, t, GlobalIdentity);
      Identity26(db, ctx, t, row);
      AdminOrFlat(db, ctx, GlobalIdentity, Scope26(t), row);
    }
  }

  lemma FlatSessionsAndGroups(db: Database, ctx: Context, t: Table, row: Row)
    requires t == RefreshSessions || t == AccessGroups
    ensures FlatHolds(db, ctx, Written26(t).value, row) <==> Opened(ctx, t) || Belongs(db, ctx, t, row)
  {
    BlocksFlat(db, ctx, row);
    AdminOrFlat(db, ctx, GlobalIdentity, UserInCompany(), row);
    AdminOrFlat(db, ctx, GlobalIdentity, HasFlag(GlobalArticle), row);
    OrFlat(db, ctx, AdminOr(GlobalIdentity, HasFlag(GlobalArticle)), SameCompany, row);
  }

  /** What revision 26 asks besides the flags. */
  function Scope26(t: Table): Expr {
    match t
    case UserGroups => And(UserInCompany(), GroupInCompany())
    case Roles => SharedOrInCompany()
    case UserRoles => UserInCompany()
    case RolePermissions => Via(RoleId, Roles, SharedOrInCompany())
    case _ => SameCompany
  }

  lemma Identity26(db: Database, ctx: Context, t: Table, row: Row)
    requires Written26(t).Some? && Written29(true, t).None? && t != RefreshSessions && t != AccessGroups
    ensures Written26(t) == Some(AdminOr(GlobalIdentity, Scope26(t)))
    ensures FlatHolds(db, ctx, Scope26(t), row) <==> Belongs(db, ctx, t, row)
  {
    BlocksFlat(db, ctx, row);
  }

  lemma Flat24(db: Database, ctx: Context, t: Table, row: Row)
    requires Written24(t).Some? && Written26(t).None?
    ensures FlatHolds(db, ctx, Written24(t).value, row) <==> Opened(ctx, t) || Belongs(db, ctx, t, row)
  {
    BlocksFlat(db, ctx, row);
    if t == Bookmarks {
      OpenedByOne(ctx, t);
      OrFlat(db, ctx, Admin(), OwnedBy(UserId), row);
      AdminOrFlat(db, ctx, GlobalArticle, ArticleInCompany(), row);
    } else {
      OpenedByTwo(ctx, t, GlobalArticle);
      AdminOrFlat(db, ctx, GlobalArticle, SameCompany, row);
      AdminOrFlat(db, ctx, GlobalArticle, ArticleInCompany(), row);
    }
  }

  function Early(t: Table): Expr {
    match t
    case NotificationQueue => Or(Admin(), OwnedBy(RecipientUserId))
    case AiCache => Or(Admin(), OwnedBy(OwnerUserId))
    case AiMessages => Or(Admin(), Via(ConversationId, AiConversations, OwnedBy(UserId)))
    case Departments => Or(Admin(), SameCompany)
    case _ => Or(Admin(), OwnedBy(UserId))
  }

  predicate OwnedTable(t: Table) {
    t == NotificationQueue || t == AiConversations || t == AiUsageLogs || t == AiFeedback || t == SearchLogs || t == AiCache
  }

  /** The column that names the owner. */
  function OwnerColumn(t: Table): Column {
    match t
    case NotificationQueue => RecipientUserId
    case AiCache => OwnerUserId
    case _ => UserId
  }

  lemma OwnedTables(db: Database, ctx: Context, t: Table, row: Row)
    requires OwnedTable(t)
    ensures Early(t) == Or(Admin(), OwnedBy(OwnerColumn(t))) && Openers(t) == {GlobalAdmin}
    ensures Belongs(db, ctx, t, row) <==> Owns(ctx, row, OwnerColumn(t))
  {
  }

  lemma FlatOwned(db: Database, ctx: Context, t: Table, row: Row)
    requires OwnedTable(t)
    ensures FlatHolds(db, ctx, Early(t), row) <==> Opened(ctx, t) || Belongs(db, ctx, t, row)
  {
    OwnedTables(db, ctx, t, row);
    OpenedByOne(ctx, t);
    OrFlat(db, ctx, Admin(), OwnedBy(OwnerColumn(t)), row);
  }

  lemma FlatMessages(db: Database, ctx: Context, row: Row)
    ensures FlatHolds(db, ctx, Early(AiMessages), row) <==> Opened(ctx, AiMessages) || Belongs(db, ctx, AiMessages, row)
  {
    OpenedByOne(ctx, AiMessages);
    OrFlat(db, ctx, Admin(), Via(ConversationId, AiConversations, OwnedBy(UserId)), row);
    BlocksFlat(db, ctx, row);
  }

  lemma FlatDepartments(db: Database, ctx: Context, row: Row)
    ensures FlatHolds(db, ctx, Early(Departments), row) <==> Opened(ctx, Departments) || Belongs(db, ctx, Departments, row)
  {
    OpenedByOne(ctx, Departments);
    OrFlat(db, ctx, Admin(), SameCompany, row);
  }

  /** The tables no later revision touches: everything a user owns, and the departments. */
  lemma UntouchedTables(t: Table)
    requires Written24(t).None? && Written26(t).None? && Written28(true, t).None? && Written29(true, t).None?
    ensures OwnedTable(t) || t == AiMessages || t == Departments
  {
  }

  lemma UntouchedPolicy(t: Table)
    requires OwnedTable(t) || t == AiMessages || t == Departments
    ensures Else(Written23(t), Policy(R21, t)) == Some(Early(t))
  {
    match t
    case NotificationQueue =>
    case AiConversations =>
    case AiUsageLogs =>
    case AiFeedback =>
    case SearchLogs =>
    case AiCache =>
    case AiMessages =>
    case Departments =>
  }

  lemma Since24(t: Table)
    ensures Policy(R27, t) == Else(Written27(t), Else(Written26(t), Policy(R24, t)))
  {
    assert Policy(R26, t) == Else(Written26(t), Policy(R24, t));
  }

  lemma Since27(t: Table)
    ensures Policy(R29, t) == Else(Written29(true, t), Else(Written28(true, t), Policy(R27, t)))
  {
    assert Policy(R28, t) == Else(Written28(true, t), Policy(R27, t));
  }

  /** Revision 27 only writes for tables revision 29 or 26 writes for, and no differently. */
  lemma SameAs26(t: Table)
    ensures Written27(t).Some? ==> Written27(t) == Written26(t)
  {
  }

  lemma {:induction false} NewestFlat(db: Database, ctx: Context, t: Table, row: Row)
    ensures Policy(R29, t).Some?
    ensures FlatHolds(db, ctx, Policy(R29, t).value, row) <==> Opened(ctx, t) || Belongs(db, ctx, t, row)
  {
    Since27(t);
    Since24(t);
    SameAs26(t);
    if Written29(true, t).Some? {
      Flat29(db, ctx, t, row);
    } else if Written28(true, t).Some? {
      Flat28(db, ctx, t, row);
    } else if Written26(t).Some? {
      Flat26(db, ctx, t, row);
    } else if Written24(t).Some? {
      Flat24(db, ctx, t, row);
    } else {
      UntouchedTables(t);
      UntouchedPolicy(t);
      FlatMessages(db, ctx, row);
      FlatDepartments(db, ctx, row);
      if OwnedTable(t) {
        FlatOwned(db, ctx, t, row);
      }
    }
  }

  /** The main theorem of the policies: after every migration, and with every subquery
      filtered by row security itself, a row is visible exactly when a flag of the context
      opens its table or the row belongs to the context. */
  lemma VisibleIffBelongs(db: Database, ctx: Context, t: Table, row: Row)
    ensures Layered(At(R29))
    ensures Visible(At(R29), db, ctx, t, row) <==> Opened(ctx, t) || Belongs(db, ctx, t, row)
  {
    EveryRevisionIsFlat(R29, db, ctx, t, row);
    NewestFlat(db, ctx, t, row);
  }

  // ----- what isolation comes to ----------------------------------------------------------

  /** Primary keys: an id names at most one row of its table. */
  ghost predicate KeysAreUnique(db: Database) {
    forall t, x, y | x in RowsOf(db, t) && y in RowsOf(db, t) && Id in x && Id in y && x[Id] == y[Id] :: x == y
  }

  lemma SameParent(db: Database, t: Table, row: Row, column: Column, x: Row, y: Row)
    requires KeysAreUnique(db)
    requires x in RowsOf(db, t) && y in RowsOf(db, t) && RefersTo(row, column, x) && RefersTo(row, column, y)
    ensures x == y
  {
  }

  lemma OneCompany(db: Database, a: Context, b: Context, row: Row, column: Column, t: Table)
    requires KeysAreUnique(db) && PointsIntoCompany(db, a, row, column, t) && PointsIntoCompany(db, b, row, column, t)
    ensures a.company == b.company
  {
    var x :| x in RowsOf(db, t) && RefersTo(row, column, x) && InCompany(a, x);
    var y :| y in RowsOf(db, t) && RefersTo(row, column, y) && InCompany(b, y);
    SameParent(db, t, row, column, x, y);
  }

  lemma OneCompanyPerDocument(db: Database, a: Context, b: Context, row: Row)
    requires KeysAreUnique(db) && UnderDocument(db, a, row) && UnderDocument(db, b, row)
    ensures a.company == b.company
  {
    var d, c :| d in RowsOf(db, ExternalDocuments) && c in RowsOf(db, Connectors) &&
      RefersTo(row, ExternalDocumentId, d) && RefersTo(d, ConnectorId, c) && InCompany(a, c);
    var d', c' :| d' in RowsOf(db, ExternalDocuments) && c' in RowsOf(db, Connectors) &&
      RefersTo(row, ExternalDocumentId, d') && RefersTo(d', ConnectorId, c') && InCompany(b, c');
    SameParent(db, ExternalDocuments, row, ExternalDocumentId, d, d');
    SameParent(db, Connectors, d, ConnectorId, c, c');
  }

  lemma OneCompanyPerSnapshot(db: Database, a: Context, b: Context, row: Row)
    requires KeysAreUnique(db) && UnderSnapshot(db, a, row) && UnderSnapshot(db, b, row)
    ensures a.company == b.company
  {
    var p, d, c :| p in RowsOf(db, PermissionSnapshots) && d in RowsOf(db, ExternalDocuments) && c in RowsOf(db, Connectors) &&
      RefersTo(row, PermissionSnapshotId, p) && RefersTo(p, ExternalDocumentId, d) && RefersTo(d, ConnectorId, c) && InCompany(a, c);
    var p', d', c' :| p' in RowsOf(db, PermissionSnapshots) && d' in RowsOf(db, ExternalDocuments) && c' in RowsOf(db, Connectors) &&
      RefersTo(row, PermissionSnapshotId, p') && RefersTo(p', ExternalDocumentId, d') && RefersTo(d', ConnectorId, c') && InCompany(b, c');
    SameParent(db, PermissionSnapshots, row, PermissionSnapshotId, p, p');
    assert UnderDocument(db, a, p) && UnderDocument(db, b, p);
    OneCompanyPerDocument(db, a, b, p);
  }

  lemma OneOwnerPerConversation(db: Database, a: Context, b: Context, row: Row)
    requires KeysAreUnique(db) && UnderConversation(db, a, row) && UnderConversation(db, b, row)
    ensures a.user == b.user
  {
    var x :| x in RowsOf(db, AiConversations) && RefersTo(row, ConversationId, x) && Owns(a, x, UserId);
    var y :| y in RowsOf(db, AiConversations) && RefersTo(row, ConversationId, y) && Owns(b, y, UserId);
    SameParent(db, AiConversations, row, ConversationId, x, y);
  }

  lemma BelongsToOne(db: Database, a: Context, b: Context, t: Table, row: Row)
    requires KeysAreUnique(db) && t != Roles && t != RolePermissions
    requires Belongs(db, a, t, row) && Belongs(db, b, t, row)
    ensures a.company == b.company || a.user == b.user
  {
    match t
    case ArticleChunks | ParentChunks | DocumentSources | ArticleVersions | ArticleTags | ArticleAccess | Comments | Votes =>
      OneCompany(db, a, b, row, ArticleId, Articles);
    case UserRoles | RefreshSessions | AuditLogs | UserGroups => OneCompany(db, a, b, row, UserId, Users);
    case AiMessages => OneOwnerPerConversation(db, a, b, row);
    case ConnectorJobs | SourceScopes | SyncCursors | ExternalGroupMappings | SyncErrors | WebhookSubscriptions
       | ExternalDocuments => OneCompany(db, a, b, row, ConnectorId, Connectors);
    case DocumentVersions | PermissionSnapshots => OneCompanyPerDocument(db, a, b, row);
    case ExternalAclPrincipals => OneCompanyPerSnapshot(db, a, b, row);
    case _ =>
  }

  /** Two people of different companies, neither holding a global flag, have no row in
      common except the roles that have no company and those roles' permissions. */
  lemma TenantsShareNothing(db: Database, a: Context, b: Context, t: Table, row: Row)
    requires KeysAreUnique(db) && a.flags == {} && b.flags == {}
    requires a.company != b.company && a.user != b.user
    requires t != Roles && t != RolePermissions
    ensures Layered(At(R29))
    ensures !(Visible(At(R29), db, a, t, row) && Visible(At(R29), db, b, t, row))
  {
    VisibleIffBelongs(db, a, t, row);
    VisibleIffBelongs(db, b, t, row);
    if Belongs(db, a, t, row) && Belongs(db, b, t, row) {
      BelongsToOne(db, a, b, t, row);
    }
  }

  // ----- where a revision misses its aim ---------------------------------------------------

  /** What revision 21 meant for bookmarks: the user's own, on the company's articles. */
  ghost predicate BookmarkMeant(db: Database, ctx: Context, row: Row) {
    GlobalAdmin in ctx.flags || (Owns(ctx, row, UserId) && PointsIntoCompany(db, ctx, row, ArticleId, Articles))
  }

  /** At revision 21 a bookmark is visible to the whole company of its article; the result
      is the intended one exactly for rows that are the user's own, lie outside the company,
      or are read by an administrator. */
  lemma Bookmarks21AreCompanyWide(db: Database, ctx: Context, row: Row)
    ensures Layered(At(R21))
    ensures Visible(At(R21), db, ctx, Bookmarks, row) <==>
            GlobalAdmin in ctx.flags || PointsIntoCompany(db, ctx, row, ArticleId, Articles)
    ensures (Visible(At(R21), db, ctx, Bookmarks, row) <==> BookmarkMeant(db, ctx, row)) <==>
            || GlobalAdmin in ctx.flags
            || Owns(ctx, row, UserId)
            || !PointsIntoCompany(db, ctx, row, ArticleId, Articles)
  {
    EveryRevisionIsFlat(R21, db, ctx, Bookmarks, row);
    Bookmarks21Flat(db, ctx, row);
  }

  lemma Bookmarks21Flat(db: Database, ctx: Context, row: Row)
    ensures Policy(R21, Bookmarks) == Some(Bookmarks21())
    ensures FlatHolds(db, ctx, Bookmarks21(), row) <==>
            GlobalAdmin in ctx.flags || PointsIntoCompany(db, ctx, row, ArticleId, Articles)
  {
    BlocksFlat(db, ctx, row);
    OrFlat(db, ctx, Or(Admin(), And(OwnedBy(UserId), Admin())), ArticleInCompany(), row);
    OrFlat(db, ctx, Admin(), And(OwnedBy(UserId), Admin()), row);
  }

  /** A colleague's bookmark, seen by somebody who does not own it. */
  lemma Bookmarks21Leak() returns (db: Database, ctx: Context, row: Row)
    ensures Layered(At(R21)) && ctx.flags == {}
    ensures Visible(At(R21), db, ctx, Bookmarks, row) && !BookmarkMeant(db, ctx, row)
  {
    var article: Row := map[Id := "a", CompanyDomain := "x.vn"];
    db := map[Articles := {article}];
    ctx := Context({}, Some("x.vn"), Some("me"));
    row := map[ArticleId := "a", UserId := "colleague"];
    assert RefersTo(row, ArticleId, article) && InCompany(ctx, article);
    assert article in RowsOf(db, Articles);
    assert PointsIntoCompany(db, ctx, row, ArticleId, Articles);
    assert row[UserId] != "me" by {
      assert |row[UserId]| == 9 && |"me"| == 2;
    }
    Bookmarks21AreCompanyWide(db, ctx, row);
  }

  /** Undoing revision 26 puts back the very policies of the revision before. */
  lemma Downgrade26Restores()
    ensures At(Undone26) == At(R24)
  {
    forall t
      ensures t in At(Undone26).policies <==> t in At(R24).policies
      ensures t in At(Undone26).forced <==> t in At(R24).forced
      ensures t in At(R24).policies ==> At(Undone26).policies[t] == At(R24).policies[t]
    {
      CatalogIs(Undone26, t);
      CatalogIs(R24, t);
      RestoredAre24(t);
    }
  }

  lemma RestoredWhatWas(t: Table)
    ensures Restored26(t).Some? <==> Written26(t).Some?
    ensures Restored26(t).Some? ==> Restored26(t) == Else(Written24(t), Else(Written23(t), Policy(R21, t)))
  {
  }

  lemma RestoredAre24(t: Table)
    ensures Policy(Undone26, t) == Policy(R24, t)
  {
    assert Policy(R26, t) == Else(Written26(t), Policy(R24, t));
    assert Policy(R24, t) == Else(Written24(t), Else(Written23(t), Policy(R21, t)));
    RestoredWhatWas(t);
  }

  /** Undoing revision 27 does not: sessions and audit rows become visible to whoever
      manages identities globally, which revision 26 never allowed. The two agree exactly
      when that flag is off or the row was visible before. */
  lemma Downgrade27Widens(db: Database, ctx: Context, t: Table, row: Row)
    requires t == RefreshSessions || t == AuditLogs
    ensures Layered(At(R26)) && Layered(At(Undone27))
    ensures Visible(At(Undone27), db, ctx, t, row) <==> GlobalIdentity in ctx.flags || Visible(At(R26), db, ctx, t, row)
    ensures Visible(At(R26), db, ctx, t, row) <==> GlobalAdmin in ctx.flags || PointsIntoCompany(db, ctx, row, UserId, Users)
  {
    EveryRevisionIsFlat(R26, db, ctx, t, row);
    EveryRevisionIsFlat(Undone27, db, ctx, t, row);
    SessionPolicies(t);
    SessionFlat(db, ctx, row);
  }

  lemma SessionPolicies(t: Table)
    requires t == RefreshSessions || t == AuditLogs
    ensures Policy(R26, t) == Some(Or(Admin(), UserInCompany()))
    ensures Policy(Undone27, t) == Some(AdminOr(GlobalIdentity, UserInCompany()))
  {
  }

  lemma SessionFlat(db: Database, ctx: Context, row: Row)
    ensures FlatHolds(db, ctx, Or(Admin(), UserInCompany()), row) <==>
            GlobalAdmin in ctx.flags || PointsIntoCompany(db, ctx, row, UserId, Users)
    ensures FlatHolds(db, ctx, AdminOr(GlobalIdentity, UserInCompany()), row) <==>
            GlobalAdmin in ctx.flags || GlobalIdentity in ctx.flags || PointsIntoCompany(db, ctx, row, UserId, Users)
  {
    AdminOrFlat(db, ctx, GlobalIdentity, UserInCompany(), row);
    BlocksFlat(db, ctx, row);
  }

  /** A session of another company, seen after the downgrade and not before. */
  lemma Downgrade27Leak() returns (db: Database, ctx: Context, row: Row)
    ensures Layered(At(R26)) && Layered(At(Undone27))
    ensures Visible(At(Undone27), db, ctx, RefreshSessions, row) && !Visible(At(R26), db, ctx, RefreshSessions, row)
  {
    db, ctx, row := map[], Context({GlobalIdentity}, Some("x.vn"), None), map[UserId := "u"];
    Downgrade27Widens(db, ctx, RefreshSessions, row);
  }

  /** Undoing revision 28 or 29 shows every context exactly what the revision before it
      showed, though the predicates are written differently. */
  lemma Downgrades28And29Restore(db: Database, ctx: Context, t: Table, row: Row)
    ensures Layered(At(R27)) && Layered(At(Undone28)) && Layered(At(R28)) && Layered(At(Undone29))
    ensures Visible(At(Undone28), db, ctx, t, row) <==> Visible(At(R27), db, ctx, t, row)
    ensures Visible(At(Undone29), db, ctx, t, row) <==> Visible(At(R28), db, ctx, t, row)
  {
    EveryRevisionIsFlat(R27, db, ctx, t, row);
    EveryRevisionIsFlat(Undone28, db, ctx, t, row);
    EveryRevisionIsFlat(R28, db, ctx, t, row);
    EveryRevisionIsFlat(Undone29, db, ctx, t, row);
    Undone28Flat(db, ctx, t, row);
    Undone29Flat(db, ctx, t, row);
  }

  /** A door that is never open may as well not be there. */
  lemma ClosedDoorFlat(db: Database, ctx: Context, e: Expr, row: Row)
    requires e.Or? && e.left == Or(Admin(), Never)
    ensures FlatHolds(db, ctx, e, row) <==> FlatHolds(db, ctx, Or(Admin(), e.right), row)
  {
    OrFlat(db, ctx, Admin(), Never, row);
    OrFlat(db, ctx, Admin(), e.right, row);
  }

  lemma Undone28Flat(db: Database, ctx: Context, t: Table, row: Row)
    ensures Policy(Undone28, t).Some? <==> Policy(R27, t).Some?
    ensures Policy(R27, t).Some? ==>
            (FlatHolds(db, ctx, Policy(Undone28, t).value, row) <==> FlatHolds(db, ctx, Policy(R27, t).value, row))
  {
    SameTables28(t);
    if Written28(false, t).Some? {
      ClosedDoorFlat(db, ctx, Written28(false, t).value, row);
      Policy27Connector(t);
      LooseConnectorFlat(db, ctx, row);
    }
  }

  lemma SameTables(t: Table)
    ensures Written28(false, t).Some? <==> Written28(true, t).Some?
    ensures Written29(false, t).Some? <==> Written29(true, t).Some?
  {
  }

  lemma SameTables28(t: Table)
    ensures Policy(Undone28, t) == Else(Written28(false, t), Policy(R27, t))
  {
    SameTables(t);
    assert Policy(Undone28, t) == Else(Written28(false, t), Policy(R28, t));
    assert Policy(R28, t) == Else(Written28(true, t), Policy(R27, t));
  }

  lemma SameTables29(t: Table)
    ensures Policy(Undone29, t) == Else(Written29(false, t), Policy(R28, t))
  {
    SameTables(t);
    assert Policy(Undone29, t) == Else(Written29(false, t), Policy(R29, t));
    assert Policy(R29, t) == Else(Written29(true, t), Policy(R28, t));
  }

  lemma Policy27Connector(t: Table)
    requires Written28(false, t).Some?
    ensures Policy(R27, t) == Some(Or(Admin(), Written28(false, t).value.right)) ||
            (Policy(R27, t) == Some(Or(Admin(), Via(ConnectorId, Connectors, Or(SameCompany, Admin())))) &&
             Written28(false, t).value.right == ConnectorInCompany())
  {
    assert Policy(R24, t) == Policy(R21, t) == Policy(R17, t);
    assert Policy(R27, t) == Policy(R26, t) == Policy(R24, t);
  }

  /** The administrator test inside the subquery of revision 09 adds nothing to the one outside. */
  lemma LooseConnectorFlat(db: Database, ctx: Context, row: Row)
    ensures FlatHolds(db, ctx, Or(Admin(), Via(ConnectorId, Connectors, Or(SameCompany, Admin()))), row) <==>
            FlatHolds(db, ctx, Or(Admin(), ConnectorInCompany()), row)
  {
    BlocksFlat(db, ctx, row);
    forall c
      ensures FlatHolds(db, ctx, Or(SameCompany, Admin()), c) <==> InCompany(ctx, c) || GlobalAdmin in ctx.flags
    {
      OrFlat(db, ctx, SameCompany, Admin(), c);
    }
    OrFlat(db, ctx, Admin(), Via(ConnectorId, Connectors, Or(SameCompany, Admin())), row);
    OrFlat(db, ctx, Admin(), ConnectorInCompany(), row);
  }

  lemma Undone29Flat(db: Database, ctx: Context, t: Table, row: Row)
    ensures Policy(Undone29, t).Some? <==> Policy(R28, t).Some?
    ensures Policy(R28, t).Some? ==>
            (FlatHolds(db, ctx, Policy(Undone29, t).value, row) <==> FlatHolds(db, ctx, Policy(R28, t).value, row))
  {
    SameTables29(t);
    if Written29(false, t).Some? {
      ClosedDoorFlat(db, ctx, Written29(false, t).value, row);
      Policy28Governance(t);
    }
  }

  lemma Policy28Governance(t: Table)
    requires Written29(false, t).Some?
    ensures Policy(R28, t) == Some(Or(Admin(), Written29(false, t).value.right))
  {
    assert Policy(R24, t) == Policy(R21, t);
    assert Policy(R28, t) == Policy(R27, t);
    assert Policy(R27, t) == Else(Written27(t), Policy(R26, t));
  }

  /** Undoing revision 24 drops its policies and leaves row security forced: nobody, not
      even an administrator, sees any row of those tables. */
  lemma Downgrade24HidesEverything(db: Database, ctx: Context, t: Table, row: Row)
    requires Written24(t).Some?
    ensures var cat := Drop(At(R24), Entries(Written24).Keys); Layered(cat) && !Visible(cat, db, ctx, t, row)
  {
    EveryRevisionIsFlat(R24, db, ctx, t, row);
    CatalogIs(R24, t);
  }
}
