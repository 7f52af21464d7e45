/** The migrations that shape the policies: each revision's policy set, the statements
    that produce it, and what its downgrade really restores. */
module PolicyMigrations {
  import opened Options
  import opened RowPolicies

  // ----- the predicates the revisions assemble ---------------------------------------

  function Admin(): Expr { HasFlag(GlobalAdmin) }

  function AdminOr(flag: Flag, e: Expr): Expr { Or(Or(Admin(), HasFlag(flag)), e) }

  function UserInCompany(): Expr { Via(UserId, Users, SameCompany) }

  function ArticleInCompany(): Expr { Via(ArticleId, Articles, SameCompany) }

  function ConnectorInCompany(): Expr { Via(ConnectorId, Connectors, SameCompany) }

  function DocumentInCompany(): Expr { Via(ExternalDocumentId, ExternalDocuments, ConnectorInCompany()) }

  function SnapshotInCompany(): Expr { Via(PermissionSnapshotId, PermissionSnapshots, DocumentInCompany()) }

  function GroupInCompany(): Expr { Via(GroupId, AccessGroups, SameCompany) }

  function SharedOrInCompany(): Expr { Or(NoCompany, SameCompany) }

  // ----- what each revision writes ------------------------------------------------------

  function Written05(t: Table): Option<Expr> {
    match t
    case Articles => Some(Or(Admin(), SameCompany))
    case ArticleChunks | ParentChunks | DocumentSources => Some(Or(Admin(), ArticleInCompany()))
    case _ => None
  }

  function Written09(t: Table): Option<Expr> {
    match t
    case SourceScopes | ExternalGroupMappings | SyncErrors | SyncCursors | WebhookSubscriptions =>
      Some(Or(Admin(), Via(ConnectorId, Connectors, Or(SameCompany, Admin()))))
    case ExternalDocuments => Some(Or(Admin(), ConnectorInCompany()))
    case DocumentVersions | PermissionSnapshots => Some(Or(Admin(), DocumentInCompany()))
    case ExternalAclPrincipals => Some(Or(Admin(), SnapshotInCompany()))
    case _ => None
  }

  function Written17(t: Table): Option<Expr> {
    match t
    case PendingDrafts | Gaps | Departments | Connectors => Some(Or(Admin(), SameCompany))
    case ConnectorJobs => Some(Or(Admin(), ConnectorInCompany()))
    case _ => None
  }

  /** `f"{user_owned} AND {article_tenant}"` carries no parentheses, and AND binds tighter
      than OR: this is the expression SQL reads. */
  function Bookmarks21(): Expr {
    Or(Or(Admin(), And(OwnedBy(UserId), Admin())), ArticleInCompany())
  }

  function Bookmarks24(): Expr {
    And(Or(Admin(), OwnedBy(UserId)), AdminOr(GlobalArticle, ArticleInCompany()))
  }

  function Written21(t: Table): Option<Expr> {
    match t
    case Users | AccessGroups => Some(Or(Admin(), SameCompany))
    case UserGroups => Some(Or(Admin(), And(UserInCompany(), GroupInCompany())))
    case Roles => Some(Or(Admin(), SharedOrInCompany()))
    case UserRoles | RefreshSessions | AuditLogs => Some(Or(Admin(), UserInCompany()))
    case RolePermissions => Some(Or(Admin(), Via(RoleId, Roles, SharedOrInCompany())))
    case NotificationQueue => Some(Or(Admin(), OwnedBy(RecipientUserId)))
    case AiConversations | AiUsageLogs | AiFeedback | SearchLogs => Some(Or(Admin(), OwnedBy(UserId)))
    case AiMessages => Some(Or(Admin(), Via(ConversationId, AiConversations, OwnedBy(UserId))))
    case Comments | Votes => Some(Or(Admin(), ArticleInCompany()))
    case Bookmarks => Some(Bookmarks21())
    case _ => None
  }

  function Written23(t: Table): Option<Expr> {
    match t
    case AiCache => Some(Or(Admin(), OwnedBy(OwnerUserId)))
    case _ => None
  }

  function Written24(t: Table): Option<Expr> {
    match t
    case Articles | AccessGroups => Some(AdminOr(GlobalArticle, SameCompany))
    case ArticleChunks | ParentChunks | DocumentSources | Comments | Votes | ArticleVersions | ArticleTags | ArticleAccess =>
      Some(AdminOr(GlobalArticle, ArticleInCompany()))
    case Bookmarks => Some(Bookmarks24())
    case _ => None
  }

  function Written26(t: Table): Option<Expr> {
    match t
    case Users => Some(AdminOr(GlobalIdentity, SameCompany))
    case AccessGroups => Some(Or(Or(Or(Admin(), HasFlag(GlobalIdentity)), HasFlag(GlobalArticle)), SameCompany))
    case UserGroups => Some(AdminOr(GlobalIdentity, And(UserInCompany(), GroupInCompany())))
    case Roles => Some(AdminOr(GlobalIdentity, SharedOrInCompany()))
    case UserRoles => Some(AdminOr(GlobalIdentity, UserInCompany()))
    case RolePermissions => Some(AdminOr(GlobalIdentity, Via(RoleId, Roles, SharedOrInCompany())))
    case RefreshSessions | AuditLogs => Some(Or(Admin(), UserInCompany()))
    case _ => None
  }

  /** What the downgrade of revision 26 writes. */
  function Restored26(t: Table): Option<Expr> {
    match t
    case Users => Some(Or(Admin(), SameCompany))
    case AccessGroups => Some(AdminOr(GlobalArticle, SameCompany))
    case UserGroups => Some(Or(Admin(), And(UserInCompany(), GroupInCompany())))
    case Roles => Some(Or(Admin(), SharedOrInCompany()))
    case UserRoles | RefreshSessions | AuditLogs => Some(Or(Admin(), UserInCompany()))
    case RolePermissions => Some(Or(Admin(), Via(RoleId, Roles, SharedOrInCompany())))
    case _ => None
  }

  function Written27(t: Table): Option<Expr> {
    match t
    case RefreshSessions | AuditLogs => Some(Or(Admin(), UserInCompany()))
    case _ => None
  }

  /** What the downgrade of revision 27 writes. */
  function Restored27(t: Table): Option<Expr> {
    match t
    case RefreshSessions | AuditLogs => Some(AdminOr(GlobalIdentity, UserInCompany()))
    case _ => None
  }

  function Gate(honoured: bool, flag: Flag): Expr {
    if honoured then HasFlag(flag) else Never
  }

  function Written28(includeGlobalConnector: bool, t: Table): Option<Expr> {
    var door := Or(Admin(), Gate(includeGlobalConnector, GlobalConnector));
    match t
    case Connectors => Some(Or(door, SameCompany))
    case ConnectorJobs | SourceScopes | SyncCursors | ExternalGroupMappings | SyncErrors | WebhookSubscriptions
       | ExternalDocuments => Some(Or(door, ConnectorInCompany()))
    case DocumentVersions | PermissionSnapshots => Some(Or(door, DocumentInCompany()))
    case ExternalAclPrincipals => Some(Or(door, SnapshotInCompany()))
    case _ => None
  }

  function Written29(globalGovernance: bool, t: Table): Option<Expr> {
    var door := Or(Admin(), Gate(globalGovernance, GlobalGovernance));
    match t
    case PendingDrafts | Gaps => Some(Or(door, SameCompany))
    case AuditLogs => Some(Or(door, UserInCompany()))
    case _ => None
  }

  // ----- the catalog after each revision --------------------------------------------------

  function Entries(written: Table -> Option<Expr>): map<Table, Expr> {
    map t: Table | written(t).Some? :: written(t).value
  }

  /** Enable and force row security, drop the policy if it is there, create the new one. */
  function Put(cat: Catalog, entries: map<Table, Expr>): Catalog {
    Catalog(cat.policies + entries, cat.forced + entries.Keys)
  }

  /** The early revisions create a policy only where none of that name exists. */
  function PutMissing(cat: Catalog, entries: map<Table, Expr>): Catalog {
    Catalog(entries + cat.policies, cat.forced + entries.Keys)
  }

  function Drop(cat: Catalog, tables: set<Table>): Catalog {
    Catalog(cat.policies - tables, cat.forced)
  }

  /** A point in the life of the schema: after upgrading to a revision, or after upgrading
      to it and then undoing that one revision. */
  datatype Stage = R17 | R21 | R24 | R26 | R27 | R28 | R29 | Undone26 | Undone27 | Undone28 | Undone29

  function Age(s: Stage): nat {
    match s
    case R17 => 0 case R21 => 1 case R24 => 2 case R26 => 3 case R27 => 4 case R28 => 5 case R29 => 6
    case Undone26 => 7 case Undone27 => 7 case Undone28 => 7 case Undone29 => 7
  }

  function At(s: Stage): Catalog
    decreases Age(s)
  {
    match s
    case R17 =>
      PutMissing(PutMissing(PutMissing(Catalog(map[], {}), Entries(Written05)), Entries(Written09)), Entries(Written17))
    case R21 => PutMissing(At(R17), Entries(Written21))
    case R24 => Put(Put(At(R21), Entries(Written23)), Entries(Written24))
    case R26 => Put(At(R24), Entries(Written26))
    case R27 => Put(At(R26), Entries(Written27))
    case R28 => Put(At(R27), Entries(t => Written28(true, t)))
    case R29 => Put(At(R28), Entries(t => Written29(true, t)))
    case Undone26 => Put(At(R26), Entries(Restored26))
    case Undone27 => Put(At(R27), Entries(Restored27))
    case Undone28 => Put(At(R28), Entries(t => Written28(false, t)))
    case Undone29 => Put(At(R29), Entries(t => Written29(false, t)))
  }

  function Listed(tables: seq<Table>): set<Table> {
    set t | t in tables
  }

  /** A policy map once the listed tables have their new entries. */
  function Added(was: map<Table, Expr>, tables: seq<Table>, entries: map<Table, Expr>): map<Table, Expr> {
    was + map t | t in tables && t in entries :: entries[t]
  }

  lemma AddedOne(was: map<Table, Expr>, tables: seq<Table>, i: nat, entries: map<Table, Expr>)
    requires i < |tables| && tables[i] in entries
    ensures Added(was, tables[..i + 1], entries) == Added(was, tables[..i], entries)[tables[i] := entries[tables[i]]]
    ensures Listed(tables[..i + 1]) == Listed(tables[..i]) + {tables[i]}
    ensures Added(was, tables[..0], entries) == was
  {
    assert tables[..i + 1] == tables[..i] + [tables[i]];
  }

  lemma AddedAll(was: map<Table, Expr>, tables: seq<Table>, entries: map<Table, Expr>)
    requires forall t :: t in entries <==> t in tables
    ensures Added(was, tables[..|tables|], entries) == was + entries
    ensures Added(was, tables[..0], entries) == was
    ensures Listed(tables[..|tables|]) == entries.Keys
  {
    assert tables[..|tables|] == tables;
  }

  predicate NoRepeats(tables: seq<Table>) {
    forall i, j | 0 <= i < j < |tables| :: tables[i] != tables[j]
  }

  function Tables24(): seq<Table> {
    [Articles, ArticleChunks, ParentChunks, DocumentSources, AccessGroups, Comments, Votes, Bookmarks,
     ArticleVersions, ArticleTags, ArticleAccess]
  }

  /** The tables revision 24 puts under row security for the first time. */
  function New24(): seq<Table> {
    [ArticleVersions, ArticleTags, ArticleAccess]
  }

  function Tables26(): seq<Table> {
    [Users, AccessGroups, UserGroups, Roles, UserRoles, RolePermissions, RefreshSessions, AuditLogs]
  }

  lemma Lists24()
    ensures NoRepeats(Tables24())
    ensures forall t :: t in Entries(Written24) <==> t in Tables24()
    ensures forall t :: t in Tables24() <==> t in Tables24()[..8] || t in New24()
    ensures forall t | t in New24() :: t !in Tables24()[..8]
  {
    assert Tables24() == Tables24()[..8] + New24();
  }

  lemma Lists26()
    ensures NoRepeats(Tables26())
    ensures forall t :: t in Entries(Written26) <==> t in Tables26()
  {
  }

  /** The policy store a migration runs against, one statement at a time. */
  class PolicyStore {
    var policies: map<Table, Expr>
    var forced: set<Table>

    function State(): Catalog
      reads this
    {
      Catalog(policies, forced)
    }

    constructor ()
      ensures State() == Catalog(map[], {})
    {
      policies, forced := map[], {};
    }

    method DropPolicyIfExists(t: Table)
      modifies this
      ensures State() == Drop(old(State()), {t})
    {
      policies := policies - {t};
    }

    /** CREATE POLICY raises when the policy is already there. */
    method CreatePolicy(t: Table, e: Expr) returns (ok: bool)
      modifies this
      ensures ok <==> t !in old(policies)
      ensures policies == if ok then old(policies)[t := e] else old(policies)
      ensures forced == old(forced) + {t}
    {
      forced := forced + {t};
      ok := t !in policies;
      if ok {
        policies := policies[t := e];
      }
    }

    method Replace(t: Table, e: Expr)
      modifies this
      ensures policies == old(policies)[t := e]
      ensures forced == old(forced) + {t}
    {
      DropPolicyIfExists(t);
      var ok := CreatePolicy(t, e);
    }

    method DropEach(tables: seq<Table>)
      modifies this
      ensures State() == Drop(old(State()), Listed(tables))
    {
      for i := 0 to |tables|
        invariant State() == Drop(old(State()), Listed(tables[..i]))
      {
        assert tables[..i + 1] == tables[..i] + [tables[i]];
        DropPolicyIfExists(tables[i]);
      }
      assert tables[..|tables|] == tables;
    }

    method ReplaceEach(tables: seq<Table>, entries: map<Table, Expr>)
      requires forall t :: t in entries <==> t in tables
      modifies this
      ensures State() == Put(old(State()), entries)
    {
      ghost var was, wasForced := policies, forced;
      AddedAll(was, tables, entries);
      for i := 0 to |tables|
        invariant policies == Added(was, tables[..i], entries)
        invariant forced == wasForced + Listed(tables[..i])
      {
        AddedOne(was, tables, i, entries);
        Replace(tables[i], entries[tables[i]]);
      }
    }

    /** Creates the listed policies in turn; the first duplicate raises. */
    method CreateEach(tables: seq<Table>, entries: map<Table, Expr>) returns (ok: bool)
      requires forall t :: t in entries <==> t in tables
      requires NoRepeats(tables)
      modifies this
      ensures ok <==> forall t | t in tables :: t !in old(policies)
      ensures ok ==> State() == Put(old(State()), entries)
    {
      ghost var was, wasForced := policies, forced;
      AddedAll(was, tables, entries);
      for i := 0 to |tables|
        invariant forall j | 0 <= j < i :: tables[j] !in was
        invariant policies == Added(was, tables[..i], entries)
        invariant forced == wasForced + Listed(tables[..i])
      {
        AddedOne(was, tables, i, entries);
        ok := CreatePolicy(tables[i], entries[tables[i]]);
        if !ok {
          assert tables[i] in was;
          return;
        }
      }
      ok := true;
    }

    /** One migration: drop, then create, in a transaction that a duplicate rolls back. */
    method Rebuild(dropped: seq<Table>, tables: seq<Table>, entries: map<Table, Expr>) returns (ok: bool)
      requires forall t :: t in entries <==> t in tables
      requires forall t | t in dropped :: t in tables
      requires NoRepeats(tables)
      modifies this
      ensures ok <==> forall t | t in tables && t !in dropped :: t !in old(policies)
      ensures State() == if ok then Put(old(State()), entries) else old(State())
    {
      var before, beforeForced := policies, forced;
      DropEach(dropped);
      assert forall t :: t in policies <==> t in before && t !in dropped;
      ok := CreateEach(tables, entries);
      if ok {
        assert policies == before + entries;
      } else {
        policies, forced := before, beforeForced;
      }
    }

    method Upgrade24(enabled: bool) returns (ok: bool)
      modifies this
      ensures ok <==> !enabled || forall t | t in New24() :: t !in old(policies)
      ensures State() == if enabled && ok then Put(old(State()), Entries(Written24)) else old(State())
    {
      if !enabled {
        return true;
      }
      Lists24();
      ok := Rebuild(Tables24()[..8], Tables24(), Entries(Written24));
    }

    /** Runs whatever ENABLE_RLS says, and leaves row security forced on every table. */
    method Downgrade24()
      modifies this
      ensures State() == Drop(old(State()), Entries(Written24).Keys)
    {
      var tables := [ArticleAccess, ArticleTags, ArticleVersions, Bookmarks, Votes, Comments, AccessGroups,
                     DocumentSources, ParentChunks, ArticleChunks, Articles];
      DropEach(tables);
      assert Listed(tables) == Entries(Written24).Keys;
    }

    method Rewrite26(entries: map<Table, Expr>)
      requires entries.Keys == Entries(Written26).Keys
      modifies this
      ensures State() == Put(old(State()), entries)
    {
      Lists26();
      var ok := Rebuild(Tables26(), Tables26(), entries);
    }

    method Upgrade26(enabled: bool)
      modifies this
      ensures State() == if enabled then Put(old(State()), Entries(Written26)) else old(State())
    {
      if enabled {
        Rewrite26(Entries(Written26));
      }
    }

    method Downgrade26(enabled: bool)
      modifies this
      ensures State() == if enabled then Put(old(State()), Entries(Restored26)) else old(State())
    {
      if enabled {
        Rewrite26(Entries(Restored26));
      }
    }

    method Apply28(includeGlobalConnector: bool)
      modifies this
      ensures State() == Put(old(State()), Entries(t => Written28(includeGlobalConnector, t)))
    {
      var entries := Entries(t => Written28(includeGlobalConnector, t));
      var tables := [Connectors, ConnectorJobs, SourceScopes, SyncCursors, ExternalGroupMappings, SyncErrors,
                     WebhookSubscriptions, ExternalDocuments, DocumentVersions, PermissionSnapshots,
                     ExternalAclPrincipals];
      ReplaceEach(tables, entries);
    }

    method Apply29(globalGovernance: bool)
      modifies this
      ensures State() == Put(old(State()), Entries(t => Written29(globalGovernance, t)))
    {
      var entries := Entries(t => Written29(globalGovernance, t));
      var tables := [PendingDrafts, Gaps, AuditLogs];
      ReplaceEach(tables, entries);
    }
  }
}
