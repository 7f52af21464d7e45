/** Row level security: the language of the policy predicates, what PostgreSQL makes of
    them when the tables inside their subqueries carry policies of their own, and the
    proof that this nesting never changes which rows are visible. */
module RowPolicies {
  import opened Options

  datatype Table =
    | Articles | ArticleChunks | ParentChunks | DocumentSources | ArticleVersions | ArticleTags | ArticleAccess
    | Comments | Votes | Bookmarks | AccessGroups
    | Users | UserGroups | Roles | UserRoles | RolePermissions | RefreshSessions | AuditLogs
    | NotificationQueue | AiConversations | AiMessages | AiUsageLogs | AiFeedback | SearchLogs | AiCache
    | Connectors | ConnectorJobs | SourceScopes | SyncCursors | ExternalGroupMappings | SyncErrors
    | WebhookSubscriptions | ExternalDocuments | DocumentVersions | PermissionSnapshots | ExternalAclPrincipals
    | PendingDrafts | Gaps | Departments

  datatype Column =
    | Id | CompanyDomain | UserId | GroupId | RoleId | ArticleId | ConversationId | RecipientUserId | OwnerUserId
    | ConnectorId | ExternalDocumentId | PermissionSnapshotId

  datatype Flag = GlobalAdmin | GlobalArticle | GlobalIdentity | GlobalConnector | GlobalGovernance

  /** The `app.*` settings a statement runs under; `None` is a setting that was never made. */
  datatype Context = Context(flags: set<Flag>, company: Option<string>, user: Option<string>)

  /** A row holds its non-NULL cells only. */
  type Row = map<Column, string>

  type Database = map<Table, set<Row>>

  /** A policy predicate. `Via(c, t, test)` is `EXISTS (SELECT 1 FROM t x WHERE x.id = c AND test)`;
      a JOIN chain is a `Via` inside a `Via`. A predicate passes when SQL evaluates it to TRUE,
      so NULL and FALSE need no telling apart: no policy negates anything. */
  datatype Expr =
    | HasFlag(flag: Flag)
    | Never
    | SameCompany
    | NoCompany
    | OwnedBy(column: Column)
    | Or(left: Expr, right: Expr)
    | And(left: Expr, right: Expr)
    | Via(column: Column, table: Table, test: Expr)

  /** The policy of each table that has one, and the tables that enforce row security. */
  datatype Catalog = Catalog(policies: map<Table, Expr>, forced: set<Table>)

  function RowsOf(db: Database, t: Table): set<Row> {
    if t in db then db[t] else {}
  }

  predicate RefersTo(row: Row, column: Column, x: Row) {
    column in row && Id in x && x[Id] == row[column]
  }

  predicate InCompany(ctx: Context, row: Row) {
    CompanyDomain in row && ctx.company == Some(row[CompanyDomain])
  }

  /** The user test reads the setting through NULLIF(..., ''). */
  predicate Owns(ctx: Context, row: Row, column: Column) {
    column in row && row[column] != "" && ctx.user == Some(row[column])
  }

  // ----- evaluation under nested policies ------------------------------------------

  /** How far a table sits from the tables whose policies have no subquery. */
  function Depth(t: Table): nat {
    match t
    case Articles | Users | Roles | AccessGroups | AiConversations | Connectors => 0
    case ExternalDocuments => 1
    case PermissionSnapshots => 2
    case _ => 3
  }

  predicate Below(e: Expr, depth: nat) {
    match e
    case Or(l, r) => Below(l, depth) && Below(r, depth)
    case And(l, r) => Below(l, depth) && Below(r, depth)
    case Via(_, t, test) => Depth(t) < depth && Below(test, depth)
    case _ => true
  }

  /** No policy leads back to its own table; PostgreSQL rejects the ones that do. */
  ghost predicate Layered(cat: Catalog) {
    forall t | t in cat.policies :: Below(cat.policies[t], Depth(t))
  }

  /** Does the predicate pass for this row, when every table read by a subquery shows only
      the rows its own policy lets through? */
  ghost predicate Holds(cat: Catalog, db: Database, ctx: Context, e: Expr, row: Row, depth: nat)
    requires Layered(cat) && Below(e, depth)
    decreases depth, 0, e
  {
    match e
    case HasFlag(f) => f in ctx.flags
    case Never => false
    case SameCompany => InCompany(ctx, row)
    case NoCompany => CompanyDomain !in row
    case OwnedBy(c) => Owns(ctx, row, c)
    case Or(l, r) => Holds(cat, db, ctx, l, row, depth) || Holds(cat, db, ctx, r, row, depth)
    case And(l, r) => Holds(cat, db, ctx, l, row, depth) && Holds(cat, db, ctx, r, row, depth)
    case Via(c, t, test) =>
      exists x | x in RowsOf(db, t) ::
        RefersTo(row, c, x) && Visible(cat, db, ctx, t, x) && Holds(cat, db, ctx, test, x, depth)
  }

  /** A table that forces row security and has no policy shows nothing. */
  ghost predicate Visible(cat: Catalog, db: Database, ctx: Context, t: Table, row: Row)
    requires Layered(cat)
    decreases Depth(t), 1
  {
    t in cat.forced ==> t in cat.policies && Holds(cat, db, ctx, cat.policies[t], row, Depth(t))
  }

  // ----- the flat reading ----------------------------------------------------------

  /** The same predicate, with subqueries reading whole tables. */
  ghost predicate FlatHolds(db: Database, ctx: Context, e: Expr, row: Row) {
    match e
    case HasFlag(f) => f in ctx.flags
    case Never => false
    case SameCompany => InCompany(ctx, row)
    case NoCompany => CompanyDomain !in row
    case OwnedBy(c) => Owns(ctx, row, c)
    case Or(l, r) => FlatHolds(db, ctx, l, row) || FlatHolds(db, ctx, r, row)
    case And(l, r) => FlatHolds(db, ctx, l, row) && FlatHolds(db, ctx, r, row)
    case Via(c, t, test) => exists x | x in RowsOf(db, t) :: RefersTo(row, c, x) && FlatHolds(db, ctx, test, x)
  }

  ghost predicate FlatVisible(cat: Catalog, db: Database, ctx: Context, t: Table, row: Row) {
    t in cat.forced ==> t in cat.policies && FlatHolds(db, ctx, cat.policies[t], row)
  }

  // ----- when the two agree ---------------------------------------------------------

  function Disjuncts(e: Expr): set<Expr> {
    match e
    case Or(l, r) => Disjuncts(l) + Disjuncts(r)
    case _ => {e}
  }

  /** Everything a subquery asks of a row is already one of the ways its table's policy
      lets that row through. */
  predicate Sheltered(cat: Catalog, e: Expr) {
    match e
    case Or(l, r) => Sheltered(cat, l) && Sheltered(cat, r)
    case And(l, r) => Sheltered(cat, l) && Sheltered(cat, r)
    case Via(_, t, test) =>
      && Sheltered(cat, test)
      && (t in cat.forced ==> t in cat.policies && Disjuncts(test) <= Disjuncts(cat.policies[t]))
    case _ => true
  }

  ghost predicate Nested(cat: Catalog) {
    forall t | t in cat.policies :: Sheltered(cat, cat.policies[t])
  }

  lemma {:induction false} FlatIffSomeDisjunct(db: Database, ctx: Context, e: Expr, row: Row)
    ensures FlatHolds(db, ctx, e, row) <==> exists d | d in Disjuncts(e) :: FlatHolds(db, ctx, d, row)
  {
    if e.Or? {
      FlatIffSomeDisjunct(db, ctx, e.left, row);
      FlatIffSomeDisjunct(db, ctx, e.right, row);
    } else {
      assert e in Disjuncts(e);
    }
  }

  lemma {:induction false} HoldsIffFlat(cat: Catalog, db: Database, ctx: Context, e: Expr, row: Row, depth: nat)
    requires Layered(cat) && Nested(cat) && Below(e, depth) && Sheltered(cat, e)
    ensures Holds(cat, db, ctx, e, row, depth) <==> FlatHolds(db, ctx, e, row)
    decreases depth, 0, e
  {
    match e
    case Or(l, r) =>
      HoldsIffFlat(cat, db, ctx, l, row, depth);
      HoldsIffFlat(cat, db, ctx, r, row, depth);
    case And(l, r) =>
      HoldsIffFlat(cat, db, ctx, l, row, depth);
      HoldsIffFlat(cat, db, ctx, r, row, depth);
    case Via(c, t, test) =>
      forall x | x in RowsOf(db, t)
        ensures Holds(cat, db, ctx, test, x, depth) <==> FlatHolds(db, ctx, test, x)
        ensures FlatHolds(db, ctx, test, x) ==> Visible(cat, db, ctx, t, x)
      {
        HoldsIffFlat(cat, db, ctx, test, x, depth);
        if FlatHolds(db, ctx, test, x) && t in cat.forced {
          FlatIffSomeDisjunct(db, ctx, test, x);
          FlatIffSomeDisjunct(db, ctx, cat.policies[t], x);
          VisibleIffFlat(cat, db, ctx, t, x);
        }
      }
    case _ =>
  }

  /** In a catalog whose subqueries are sheltered, row security inside the subqueries is
      invisible: each table shows exactly the rows of the flat test. */
  lemma {:induction false} VisibleIffFlat(cat: Catalog, db: Database, ctx: Context, t: Table, row: Row)
    requires Layered(cat) && Nested(cat)
    ensures Visible(cat, db, ctx, t, row) <==> FlatVisible(cat, db, ctx, t, row)
    decreases Depth(t), 1
  {
    if t in cat.policies {
      HoldsIffFlat(cat, db, ctx, cat.policies[t], row, Depth(t));
    }
  }
}
