/** Sessions and row policies together: what a request's statements can see. */
module TenantRequests {
  import opened Options
  import opened RowPolicies
  import opened PolicyMigrations
  import opened TenantIsolation
  import opened TenantSessions

  /** Over any run, a statement of a session that set a context sees exactly the rows that
      context opens or owns, whatever connection it runs on and whatever other sessions do. */
  lemma StatementsSeeTheirOwnRows(connections: nat, ops: seq<Operation>, e: Executed, b: Bound, db: Database, t: Table, row: Row)
    requires e in After(connections, ops).executed && e.step < |ops|
    requires LastSet(ops[..e.step], e.session) == Some(b)
    ensures Layered(At(R29))
    ensures var ctx := Context(b.flags, Some(b.company), Some(b.user));
            Visible(At(R29), db, e.context, t, row) <==> Opened(ctx, t) || Belongs(db, ctx, t, row)
  {
    EveryStatementRunsUnderItsOwnContext(connections, ops, e);
    VisibleIffBelongs(db, e.context, t, row);
  }

  // ----- in columns: what a context opens or owns ------------------------------------------

  /** `x` is the row of `t` that this one names in a column. */
  predicate Names(db: Database, row: Row, column: Column, t: Table, x: Row) {
    column in row && t in db && x in db[t] && Id in x && x[Id] == row[column]
  }

  predicate OfCompany(ctx: Context, row: Row) {
    CompanyDomain in row && ctx.company.Some? && ctx.company.value == row[CompanyDomain]
  }

  lemma NamesIff(db: Database, ctx: Context, row: Row, column: Column, t: Table, x: Row)
    ensures x in RowsOf(db, t) && RefersTo(row, column, x) <==> Names(db, row, column, t, x)
    ensures InCompany(ctx, x) <==> OfCompany(ctx, x)
  {
  }

  ghost predicate InCompanyBy(db: Database, ctx: Context, row: Row, column: Column, t: Table) {
    exists x :: Names(db, row, column, t, x) && OfCompany(ctx, x)
  }

  lemma PointsIff(db: Database, ctx: Context, row: Row, column: Column, t: Table)
    ensures PointsIntoCompany(db, ctx, row, column, t) <==> InCompanyBy(db, ctx, row, column, t)
  {
    forall x: Row
      ensures x in RowsOf(db, t) && RefersTo(row, column, x) && InCompany(ctx, x) <==> Names(db, row, column, t, x) && OfCompany(ctx, x)
    {
      NamesIff(db, ctx, row, column, t, x);
    }
  }

  /** A company's own tables show a row to a flag, or to the company in the row's column. */
  lemma CompanyRowsInColumns(db: Database, ctx: Context, t: Table, row: Row)
    requires t in {Articles, AccessGroups, Users, Connectors, PendingDrafts, Gaps, Departments}
    ensures Layered(At(R29))
    ensures Visible(At(R29), db, ctx, t, row) <==> Opened(ctx, t) || OfCompany(ctx, row)
  {
    VisibleIffBelongs(db, ctx, t, row);
  }

  /** What hangs on an article shows where that article is of the company. */
  lemma ArticleRowsInColumns(db: Database, ctx: Context, t: Table, row: Row)
    requires t in {ArticleChunks, ParentChunks, DocumentSources, ArticleVersions, ArticleTags, ArticleAccess, Comments, Votes}
    ensures Layered(At(R29))
    ensures Visible(At(R29), db, ctx, t, row) <==> Opened(ctx, t) || InCompanyBy(db, ctx, row, ArticleId, Articles)
  {
    VisibleIffBelongs(db, ctx, t, row);
    PointsIff(db, ctx, row, ArticleId, Articles);
  }

  /** What hangs on a person, where that person is. */
  lemma PersonRowsInColumns(db: Database, ctx: Context, t: Table, row: Row)
    requires t in {UserRoles, RefreshSessions, AuditLogs}
    ensures Layered(At(R29))
    ensures Visible(At(R29), db, ctx, t, row) <==> Opened(ctx, t) || InCompanyBy(db, ctx, row, UserId, Users)
  {
    VisibleIffBelongs(db, ctx, t, row);
    PointsIff(db, ctx, row, UserId, Users);
  }

  /** What hangs on a connector, where that connector is. */
  lemma ConnectorRowsInColumns(db: Database, ctx: Context, t: Table, row: Row)
    requires t in {ConnectorJobs, SourceScopes, SyncCursors, ExternalGroupMappings, SyncErrors, WebhookSubscriptions, ExternalDocuments}
    ensures Layered(At(R29))
    ensures Visible(At(R29), db, ctx, t, row) <==> Opened(ctx, t) || InCompanyBy(db, ctx, row, ConnectorId, Connectors)
  {
    VisibleIffBelongs(db, ctx, t, row);
    PointsIff(db, ctx, row, ConnectorId, Connectors);
  }

  /** A person's own rows show to that person, and to nobody where the user is ''. */
  lemma OwnedRowsInColumns(db: Database, ctx: Context, t: Table, row: Row, column: Column)
    requires (t in {AiConversations, AiUsageLogs, AiFeedback, SearchLogs} && column == UserId) ||
             (t == AiCache && column == OwnerUserId) || (t == NotificationQueue && column == RecipientUserId)
    ensures Layered(At(R29))
    ensures Visible(At(R29), db, ctx, t, row) <==>
            Opened(ctx, t) || (column in row && ctx.user.Some? && ctx.user.value == row[column] != "")
  {
    VisibleIffBelongs(db, ctx, t, row);
  }

  /** A role shows to everybody where it has no company, and so do its permissions. */
  lemma RolesInColumns(db: Database, ctx: Context, row: Row)
    ensures Layered(At(R29))
    ensures Visible(At(R29), db, ctx, Roles, row) <==> Opened(ctx, Roles) || CompanyDomain !in row || OfCompany(ctx, row)
    ensures Visible(At(R29), db, ctx, RolePermissions, row) <==>
            Opened(ctx, RolePermissions) || exists x :: Names(db, row, RoleId, Roles, x) && (CompanyDomain !in x || OfCompany(ctx, x))
  {
    VisibleIffBelongs(db, ctx, Roles, row);
    VisibleIffBelongs(db, ctx, RolePermissions, row);
    RolesOf(db, ctx, row);
    assert Belongs(db, ctx, RolePermissions, row) <==> UnderRole(db, ctx, row);
  }

  lemma RolesOf(db: Database, ctx: Context, row: Row)
    ensures UnderRole(db, ctx, row) <==> exists x :: Names(db, row, RoleId, Roles, x) && (CompanyDomain !in x || OfCompany(ctx, x))
  {
    forall x: Row
      ensures x in RowsOf(db, Roles) && RefersTo(row, RoleId, x) && (CompanyDomain !in x || InCompany(ctx, x)) <==>
              Names(db, row, RoleId, Roles, x) && (CompanyDomain !in x || OfCompany(ctx, x))
    {
      NamesIff(db, ctx, row, RoleId, Roles, x);
    }
  }

  /** A membership shows where both the person and the group are of the company. */
  lemma MembersInColumns(db: Database, ctx: Context, row: Row)
    ensures Layered(At(R29))
    ensures Visible(At(R29), db, ctx, UserGroups, row) <==>
            Opened(ctx, UserGroups) || (InCompanyBy(db, ctx, row, UserId, Users) && InCompanyBy(db, ctx, row, GroupId, AccessGroups))
  {
    VisibleIffBelongs(db, ctx, UserGroups, row);
    PointsIff(db, ctx, row, UserId, Users);
    PointsIff(db, ctx, row, GroupId, AccessGroups);
  }

  /** A bookmark shows to its own user, on an article of the company or to who may see every
      article. */
  lemma BookmarksInColumns(db: Database, ctx: Context, row: Row)
    ensures Layered(At(R29))
    ensures Visible(At(R29), db, ctx, Bookmarks, row) <==>
            Opened(ctx, Bookmarks) ||
            (UserId in row && ctx.user.Some? && ctx.user.value == row[UserId] != "" &&
             (GlobalArticle in ctx.flags || InCompanyBy(db, ctx, row, ArticleId, Articles)))
  {
    VisibleIffBelongs(db, ctx, Bookmarks, row);
    PointsIff(db, ctx, row, ArticleId, Articles);
  }

  /** A message shows to the user of its conversation. */
  lemma MessagesInColumns(db: Database, ctx: Context, row: Row)
    ensures Layered(At(R29))
    ensures Visible(At(R29), db, ctx, AiMessages, row) <==>
            Opened(ctx, AiMessages) ||
            exists x :: Names(db, row, ConversationId, AiConversations, x) && UserId in x && ctx.user.Some? && ctx.user.value == x[UserId] != ""
  {
    VisibleIffBelongs(db, ctx, AiMessages, row);
    ConversationOf(db, ctx, row);
    assert Belongs(db, ctx, AiMessages, row) <==> UnderConversation(db, ctx, row);
  }

  lemma ConversationOf(db: Database, ctx: Context, row: Row)
    ensures UnderConversation(db, ctx, row) <==>
            exists x :: Names(db, row, ConversationId, AiConversations, x) && UserId in x && ctx.user.Some? && ctx.user.value == x[UserId] != ""
  {
    forall x: Row
      ensures x in RowsOf(db, AiConversations) && RefersTo(row, ConversationId, x) && Owns(ctx, x, UserId) <==>
              Names(db, row, ConversationId, AiConversations, x) && UserId in x && ctx.user.Some? && ctx.user.value == x[UserId] != ""
    {
    }
  }

  ghost predicate DocumentInCompanyBy(db: Database, ctx: Context, row: Row) {
    exists d :: Names(db, row, ExternalDocumentId, ExternalDocuments, d) && InCompanyBy(db, ctx, d, ConnectorId, Connectors)
  }

  lemma DocumentOf(db: Database, ctx: Context, row: Row)
    ensures UnderDocument(db, ctx, row) <==> DocumentInCompanyBy(db, ctx, row)
  {
    if UnderDocument(db, ctx, row) {
      var d, c :| d in RowsOf(db, ExternalDocuments) && c in RowsOf(db, Connectors) &&
                  RefersTo(row, ExternalDocumentId, d) && RefersTo(d, ConnectorId, c) && InCompany(ctx, c);
      assert Names(db, row, ExternalDocumentId, ExternalDocuments, d) && Names(db, d, ConnectorId, Connectors, c) && OfCompany(ctx, c);
    }
    if DocumentInCompanyBy(db, ctx, row) {
      var d :| Names(db, row, ExternalDocumentId, ExternalDocuments, d) && InCompanyBy(db, ctx, d, ConnectorId, Connectors);
      var c :| Names(db, d, ConnectorId, Connectors, c) && OfCompany(ctx, c);
      assert d in RowsOf(db, ExternalDocuments) && c in RowsOf(db, Connectors);
    }
  }

  lemma SnapshotOf(db: Database, ctx: Context, row: Row)
    ensures UnderSnapshot(db, ctx, row) <==>
            exists p :: Names(db, row, PermissionSnapshotId, PermissionSnapshots, p) && DocumentInCompanyBy(db, ctx, p)
  {
    if UnderSnapshot(db, ctx, row) {
      var p, d, c :| p in RowsOf(db, PermissionSnapshots) && d in RowsOf(db, ExternalDocuments) && c in RowsOf(db, Connectors) &&
                     RefersTo(row, PermissionSnapshotId, p) && RefersTo(p, ExternalDocumentId, d) && RefersTo(d, ConnectorId, c) &&
                     InCompany(ctx, c);
      assert UnderDocument(db, ctx, p);
      DocumentOf(db, ctx, p);
      assert Names(db, row, PermissionSnapshotId, PermissionSnapshots, p);
    }
    if p :| Names(db, row, PermissionSnapshotId, PermissionSnapshots, p) && DocumentInCompanyBy(db, ctx, p) {
      DocumentOf(db, ctx, p);
      var d, c :| d in RowsOf(db, ExternalDocuments) && c in RowsOf(db, Connectors) &&
                  RefersTo(p, ExternalDocumentId, d) && RefersTo(d, ConnectorId, c) && InCompany(ctx, c);
      assert p in RowsOf(db, PermissionSnapshots) && RefersTo(row, PermissionSnapshotId, p);
    }
  }

  /** What hangs on a document shows where the document's connector is of the company. */
  lemma DocumentsInColumns(db: Database, ctx: Context, t: Table, row: Row)
    requires t in {DocumentVersions, PermissionSnapshots}
    ensures Layered(At(R29))
    ensures Visible(At(R29), db, ctx, t, row) <==> Opened(ctx, t) || DocumentInCompanyBy(db, ctx, row)
  {
    VisibleIffBelongs(db, ctx, t, row);
    DocumentOf(db, ctx, row);
  }

  /** And what hangs on a snapshot of one. */
  lemma PrincipalsInColumns(db: Database, ctx: Context, row: Row)
    ensures Layered(At(R29))
    ensures Visible(At(R29), db, ctx, ExternalAclPrincipals, row) <==>
            Opened(ctx, ExternalAclPrincipals) ||
            exists p :: Names(db, row, PermissionSnapshotId, PermissionSnapshots, p) && DocumentInCompanyBy(db, ctx, p)
  {
    VisibleIffBelongs(db, ctx, ExternalAclPrincipals, row);
    SnapshotOf(db, ctx, row);
    assert Belongs(db, ctx, ExternalAclPrincipals, row) <==> UnderSnapshot(db, ctx, row);
  }

  /** Which flags open which table. */
  lemma OpenedIff(ctx: Context, t: Table)
    ensures Opened(ctx, t) <==>
            || GlobalAdmin in ctx.flags
            || (GlobalArticle in ctx.flags && t in {Articles, ArticleChunks, ParentChunks, DocumentSources, ArticleVersions, ArticleTags,
                                                    ArticleAccess, Comments, Votes, AccessGroups})
            || (GlobalIdentity in ctx.flags && t in {Users, AccessGroups, UserGroups, Roles, UserRoles, RolePermissions})
            || (GlobalConnector in ctx.flags && t in {Connectors, ConnectorJobs, SourceScopes, SyncCursors, ExternalGroupMappings, SyncErrors,
                                                      WebhookSubscriptions, ExternalDocuments, DocumentVersions, PermissionSnapshots,
                                                      ExternalAclPrincipals})
            || (GlobalGovernance in ctx.flags && t in {PendingDrafts, Gaps, AuditLogs})
  {
    assert forall f | f in ctx.flags :: f in Openers(t) ==> Opened(ctx, t);
  }

  /** Roles that belong to no company, and their permissions: all a blank context is due. */
  ghost predicate SharedOnly(db: Database, t: Table, row: Row) {
    || (t == Roles && CompanyDomain !in row)
    || (t == RolePermissions && exists r | r in RowsOf(db, Roles) :: RefersTo(row, RoleId, r) && CompanyDomain !in r)
  }

  predicate BlankCompany(row: Row) {
    CompanyDomain in row && row[CompanyDomain] == ""
  }

  /** No row of the database, nor this one, carries '' for its company. */
  ghost predicate CompaniesNamed(db: Database, row: Row) {
    !BlankCompany(row) && forall t, x | x in RowsOf(db, t) :: !BlankCompany(x)
  }

  lemma NotInBlankCompany(ctx: Context, row: Row)
    requires Blank(ctx)
    ensures InCompany(ctx, row) ==> BlankCompany(row)
  {
  }

  lemma BlankOwnsNothing(db: Database, ctx: Context, t: Table, row: Row)
    requires Blank(ctx) && CompaniesNamed(db, row)
    ensures Belongs(db, ctx, t, row) <==> SharedOnly(db, t, row)
  {
    NotInBlankCompany(ctx, row);
    forall x: Row ensures InCompany(ctx, x) ==> BlankCompany(x) { NotInBlankCompany(ctx, x); }
    forall x: Row, c: Column ensures !Owns(ctx, x, c) {}
    forall t, x: Row | x in RowsOf(db, t) ensures !InCompany(ctx, x) {}
  }

  /** A session that never set a context fails closed: as long as no row has '' for its
      company, it sees the shared roles and nothing else. */
  lemma BlankSessionsFailClosed(connections: nat, ops: seq<Operation>, e: Executed, db: Database, t: Table, row: Row)
    requires e in After(connections, ops).executed && e.step < |ops|
    requires LastSet(ops[..e.step], e.session) == None && CompaniesNamed(db, row)
    ensures Layered(At(R29))
    ensures Visible(At(R29), db, e.context, t, row) <==> SharedOnly(db, t, row)
  {
    EveryStatementRunsUnderItsOwnContext(connections, ops, e);
    VisibleIffBelongs(db, e.context, t, row);
    BlankOwnsNothing(db, e.context, t, row);
  }

  /** The condition is needed: where a company is '', the row shows on a connection that an
      earlier session has used, and not on a new one. For a company's own rows that is the
      only difference there is. */
  lemma BlankContextsDiffer(db: Database, row: Row)
    ensures Layered(At(R29))
    ensures !Visible(At(R29), db, Context({}, None, None), Articles, row)
    ensures Visible(At(R29), db, Context({}, Some(""), Some("")), Articles, row) <==> BlankCompany(row)
  {
    VisibleIffBelongs(db, Context({}, None, None), Articles, row);
    VisibleIffBelongs(db, Context({}, Some(""), Some("")), Articles, row);
  }
}
