/** Tenant context over a connection pool: what a session stores, what a transaction on
    some pooled connection is given, and under which context each statement really runs. */
module TenantSessions {
  import opened Options
  import opened RowPolicies

  type SessionId = nat

  /** What `set_database_context` stores on the session and writes with `set_config`. */
  datatype Bound = Bound(company: string, user: string, flags: set<Flag>)

  /** A pooled connection. `local` is the transaction-local setting; once some transaction
      has set the parameters locally, PostgreSQL reports them as '' and no longer as NULL. */
  datatype Connection = Connection(local: Option<Bound>, touched: bool)

  datatype Transaction = Transaction(connection: nat, aborted: bool)

  /** One statement that ran: whose it was, in which operation, and the context it ran under. */
  datatype Executed = Executed(session: SessionId, step: nat, context: Context)

  datatype Pool = Pool(
    info: map<SessionId, Bound>,
    open: map<SessionId, Transaction>,
    connections: seq<Connection>,
    executed: seq<Executed>,
    steps: nat)

  /** `connection` is the one the pool hands out if the operation has to begin a transaction,
      `hooked` says whether the hook's statement succeeds there, and `ok` whether the
      operation's own does. */
  datatype Operation =
    | SetContext(session: SessionId, bound: Bound, connection: nat, hooked: bool, ok: bool)
    | Execute(session: SessionId, connection: nat, hooked: bool, ok: bool)
    | Commit(session: SessionId)
    | Rollback(session: SessionId)
    | Close(session: SessionId)
    | Recycle(connection: nat)

  function ContextOf(b: Bound): Context {
    Context(b.flags, Some(b.company), Some(b.user))
  }

  /** No setting at all, or settings an earlier transaction left behind as ''. */
  predicate Blank(ctx: Context) {
    ctx == Context({}, None, None) || ctx == Context({}, Some(""), Some(""))
  }

  function Effective(c: Connection): Context {
    if c.local.Some? then ContextOf(c.local.value)
    else if c.touched then Context({}, Some(""), Some(""))
    else Context({}, None, None)
  }

  predicate Free(p: Pool, c: nat) {
    c < |p.connections| && forall s | s in p.open :: p.open[s].connection != c
  }

  /** Begin a transaction if none is open; the `after_begin` hook re-applies the stored
      context. Where its statement fails, the transaction stays open and aborted. */
  function BeginIfNeeded(p: Pool, s: SessionId, c: nat, hooked: bool): Pool {
    if s in p.open || !Free(p, c) then p
    else
      var conn := p.connections[c];
      var local := if s in p.info && hooked then Some(p.info[s]) else None;
      p.(open := p.open[s := Transaction(c, s in p.info && !hooked)], connections := p.connections[c := conn.(local := local)])
  }

  /** The end of a transaction: its local settings go, and the connection returns to the pool. */
  function End(p: Pool, s: SessionId): Pool {
    if s !in p.open || p.open[s].connection >= |p.connections| then p
    else
      var c := p.open[s].connection;
      var conn := p.connections[c];
      p.(open := p.open - {s}, connections := p.connections[c := Connection(None, conn.touched || conn.local.Some?)])
  }

  predicate CanRun(p: Pool, s: SessionId) {
    s in p.open && !p.open[s].aborted && p.open[s].connection < |p.connections|
  }

  /** The `set_config` statement on the open transaction; a failing statement aborts it. */
  function Apply(p: Pool, s: SessionId, b: Bound, ok: bool): Pool {
    if !CanRun(p, s) then p
    else
      var tx := p.open[s];
      if ok then p.(connections := p.connections[tx.connection := p.connections[tx.connection].(local := Some(b))])
      else p.(open := p.open[s := tx.(aborted := true)])
  }

  /** Any other statement. */
  function Statement(p: Pool, s: SessionId, ok: bool): Pool {
    if !CanRun(p, s) then p
    else
      var tx := p.open[s];
      p.(executed := p.executed + [Executed(s, p.steps, Effective(p.connections[tx.connection]))],
         open := if ok then p.open else p.open[s := tx.(aborted := true)])
  }

  function Perform(p: Pool, op: Operation): Pool {
    match op
    case SetContext(s, b, c, hooked, ok) => Apply(BeginIfNeeded(p.(info := p.info[s := b]), s, c, hooked), s, b, ok)
    case Execute(s, c, hooked, ok) => Statement(BeginIfNeeded(p, s, c, hooked), s, ok)
    case Commit(s) => End(p, s)
    case Rollback(s) => End(p, s)
    case Close(s) => End(p, s).(info := End(p, s).info - {s})
    case Recycle(c) => if Free(p, c) then p.(connections := p.connections[c := Connection(None, false)]) else p
  }

  function Step(p: Pool, op: Operation): Pool {
    Perform(p, op).(steps := p.steps + 1)
  }

  function Start(connections: nat): Pool {
    Pool(map[], map[], seq(connections, _ => Connection(None, false)), [], 0)
  }

  function After(connections: nat, ops: seq<Operation>): Pool {
    if ops == [] then Start(connections)
    else Step(After(connections, ops[..|ops| - 1]), ops[|ops| - 1])
  }

  // ----- the reference: what a session last asked for ------------------------------------

  /** Read off the session's own operations alone; connections play no part. */
  function LastSet(ops: seq<Operation>, s: SessionId): Option<Bound> {
    if ops == [] then None
    else
      var op := ops[|ops| - 1];
      if op.SetContext? && op.session == s then Some(op.bound)
      else if op.Close? && op.session == s then None
      else LastSet(ops[..|ops| - 1], s)
  }

  /** The context is the session's own, or a blank one for a session that never set any. */
  predicate Own(ctx: Context, last: Option<Bound>) {
    if last.Some? then
      ctx.flags == last.value.flags && ctx.company == Some(last.value.company) && ctx.user == Some(last.value.user)
    else Blank(ctx)
  }

  // ----- what every operation keeps ------------------------------------------------------

  predicate Disjoint(p: Pool) {
    && (forall s | s in p.open :: p.open[s].connection < |p.connections|)
    && (forall s, t | s in p.open && t in p.open && s != t :: p.open[s].connection != p.open[t].connection)
  }

  ghost predicate CarriesOwn(p: Pool, s: SessionId) {
    CanRun(p, s) ==> p.connections[p.open[s].connection].local == if s in p.info then Some(p.info[s]) else None
  }

  /** A usable transaction carries its session's stored context; a connection nobody uses
      carries none. */
  ghost predicate Carries(p: Pool) {
    && (forall s :: CarriesOwn(p, s))
    && (forall c | 0 <= c < |p.connections| && Free(p, c) :: p.connections[c].local.None?)
  }

  /** The same for every session but one, whose context is about to be applied. */
  ghost predicate CarriesBut(p: Pool, s: SessionId) {
    && (forall t | t != s :: CarriesOwn(p, t))
    && (forall c | 0 <= c < |p.connections| && Free(p, c) :: p.connections[c].local.None?)
  }

  ghost predicate Safe(p: Pool, ops: seq<Operation>) {
    && Disjoint(p) && Carries(p) && p.steps == |ops|
    && (forall s: SessionId :: LastSet(ops, s) == if s in p.info then Some(p.info[s]) else None)
    && (forall e | e in p.executed ::
          e.step < |ops| && ops[e.step].Execute? && ops[e.step].session == e.session &&
          Own(e.context, LastSet(ops[..e.step], e.session)))
  }

  lemma BeginKeeps(p: Pool, s: SessionId, c: nat, hooked: bool)
    requires Disjoint(p) && CarriesBut(p, s)
    ensures var q := BeginIfNeeded(p, s, c, hooked);
            && Disjoint(q) && CarriesBut(q, s) && (CarriesOwn(p, s) ==> CarriesOwn(q, s))
            && q.info == p.info && q.executed == p.executed && q.steps == p.steps
  {
    var q := BeginIfNeeded(p, s, c, hooked);
    if q != p {
      forall d | 0 <= d < |q.connections| && Free(q, d)
        ensures q.connections[d].local.None?
      {
        assert d != c by { assert q.open[s].connection == c; }
        assert Free(p, d) by {
          forall t | t in p.open ensures p.open[t].connection != d { assert q.open[t] == p.open[t]; }
        }
      }
      forall t | t != s ensures CarriesOwn(q, t) { assert CarriesOwn(p, t); }
    }
  }

  lemma ApplyKeeps(p: Pool, s: SessionId, ok: bool)
    requires Disjoint(p) && CarriesBut(p, s) && s in p.info
    ensures var q := Apply(p, s, p.info[s], ok);
            Disjoint(q) && Carries(q) && q.info == p.info && q.executed == p.executed && q.steps == p.steps
  {
    var q := Apply(p, s, p.info[s], ok);
    forall d | 0 <= d < |q.connections| && Free(q, d)
      ensures q.connections[d].local.None?
    {
      assert Free(p, d) by {
        forall t | t in p.open ensures p.open[t].connection != d { assert q.open[t].connection == p.open[t].connection; }
      }
    }
    forall t ensures CarriesOwn(q, t) { assert t != s ==> CarriesOwn(p, t); }
  }

  lemma StatementKeeps(p: Pool, s: SessionId, ok: bool)
    requires Disjoint(p) && Carries(p)
    ensures var q := Statement(p, s, ok);
            && Disjoint(q) && Carries(q) && q.info == p.info && q.steps == p.steps
            && (q.executed == p.executed ||
                exists ctx :: q.executed == p.executed + [Executed(s, p.steps, ctx)] &&
                  Own(ctx, if s in p.info then Some(p.info[s]) else None))
  {
    var q := Statement(p, s, ok);
    assert CarriesOwn(p, s);
    if CanRun(p, s) {
      var ctx := Effective(p.connections[p.open[s].connection]);
      assert q.executed == p.executed + [Executed(s, p.steps, ctx)];
    }
    forall d | 0 <= d < |q.connections| && Free(q, d)
      ensures q.connections[d].local.None?
    {
      assert Free(p, d) by {
        forall t | t in p.open ensures p.open[t].connection != d { assert q.open[t].connection == p.open[t].connection; }
      }
    }
    forall t ensures CarriesOwn(q, t) { assert CarriesOwn(p, t); }
  }

  lemma EndKeeps(p: Pool, s: SessionId)
    requires Disjoint(p) && Carries(p)
    ensures var q := End(p, s);
            Disjoint(q) && Carries(q) && q.info == p.info && q.executed == p.executed && q.steps == p.steps && s !in q.open
  {
    var q := End(p, s);
    if s in p.open {
      forall d | 0 <= d < |q.connections| && Free(q, d)
        ensures q.connections[d].local.None?
      {
        if d != p.open[s].connection {
          assert Free(p, d) by {
            forall t | t in p.open ensures p.open[t].connection != d { if t != s { assert t in q.open; } }
          }
        }
      }
    }
    forall t ensures CarriesOwn(q, t) { assert CarriesOwn(p, t); }
  }

  /** What one operation does to the stored contexts. */
  function InfoAfter(info: map<SessionId, Bound>, op: Operation): map<SessionId, Bound> {
    match op
    case SetContext(s, b, _, _, _) => info[s := b]
    case Close(s) => info - {s}
    case _ => info
  }

  lemma SetContextKeeps(p: Pool, s: SessionId, b: Bound, c: nat, hooked: bool, ok: bool)
    requires Disjoint(p) && Carries(p)
    ensures var q := Perform(p, SetContext(s, b, c, hooked, ok));
            Disjoint(q) && Carries(q) && q.info == p.info[s := b] && q.executed == p.executed && q.steps == p.steps
  {
    var p0 := p.(info := p.info[s := b]);
    forall t | t != s ensures CarriesOwn(p0, t) { assert CarriesOwn(p, t); }
    assert forall d: nat :: Free(p0, d) <==> Free(p, d);
    BeginKeeps(p0, s, c, hooked);
    ApplyKeeps(BeginIfNeeded(p0, s, c, hooked), s, ok);
  }

  /** What the lemmas about runs need of one operation. */
  ghost predicate Kept(p: Pool, op: Operation, q: Pool) {
    && Disjoint(q) && Carries(q) && q.steps == p.steps && q.info == InfoAfter(p.info, op)
    && (q.executed == p.executed ||
        exists ctx :: op.Execute? && q.executed == p.executed + [Executed(op.session, p.steps, ctx)] &&
          Own(ctx, if op.session in p.info then Some(p.info[op.session]) else None))
  }

  lemma ExecuteKeeps(p: Pool, s: SessionId, c: nat, hooked: bool, ok: bool)
    requires Disjoint(p) && Carries(p)
    ensures Kept(p, Execute(s, c, hooked, ok), Perform(p, Execute(s, c, hooked, ok)))
  {
    BeginKeeps(p, s, c, hooked);
    BeginIsSound(p, s, c, hooked);
    StatementKeeps(BeginIfNeeded(p, s, c, hooked), s, ok);
  }

  lemma CloseKeeps(p: Pool, s: SessionId)
    requires Disjoint(p) && Carries(p)
    ensures Kept(p, Close(s), Perform(p, Close(s)))
  {
    EndKeeps(p, s);
    var q := End(p, s);
    forall t ensures CarriesOwn(q.(info := q.info - {s}), t) { assert CarriesOwn(q, t); }
    assert forall d: nat :: Free(q.(info := q.info - {s}), d) <==> Free(q, d);
  }

  lemma RecycleKeeps(p: Pool, c: nat)
    requires Disjoint(p) && Carries(p)
    ensures Kept(p, Recycle(c), Perform(p, Recycle(c)))
  {
    var q := Perform(p, Recycle(c));
    forall t ensures CarriesOwn(q, t) { assert CarriesOwn(p, t); }
    assert forall d: nat :: Free(q, d) <==> Free(p, d);
  }

  /** When the context changes inside an open transaction, the transaction carries the old
      one until the statement has run; a session outside a transaction gets the new one
      from the hook. */
  lemma PerformKeeps(p: Pool, op: Operation)
    requires Disjoint(p) && Carries(p)
    ensures Kept(p, op, Perform(p, op))
  {
    match op
    case SetContext(s, b, c, hooked, ok) => SetContextKeeps(p, s, b, c, hooked, ok);
    case Execute(s, c, hooked, ok) => ExecuteKeeps(p, s, c, hooked, ok);
    case Commit(s) => EndKeeps(p, s);
    case Rollback(s) => EndKeeps(p, s);
    case Close(s) => CloseKeeps(p, s);
    case Recycle(c) => RecycleKeeps(p, c);
  }

  lemma BeginIsSound(p: Pool, s: SessionId, c: nat, hooked: bool)
    requires Disjoint(p) && Carries(p)
    ensures Disjoint(BeginIfNeeded(p, s, c, hooked)) && Carries(BeginIfNeeded(p, s, c, hooked))
  {
    BeginKeeps(p, s, c, hooked);
    assert CarriesOwn(p, s);
  }

  lemma PerformedIsSound(p: Pool, op: Operation, q: Pool)
    requires Disjoint(p) && Carries(p) && q == Perform(p, op)
    ensures Disjoint(q) && Carries(q)
  {
    PerformKeeps(p, op);
    assert Kept(p, op, q);
  }

  lemma StepIsSound(p: Pool, op: Operation)
    requires Disjoint(p) && Carries(p)
    ensures Disjoint(Step(p, op)) && Carries(Step(p, op))
  {
    var q := Perform(p, op);
    PerformedIsSound(p, op, q);
    CountingKeeps(q, p.steps + 1);
  }

  /** What a call of `set_database_context` leaves of the transaction, if it is usable. */
  lemma SetContextIsApplied(p: Pool, s: SessionId, b: Bound, c: nat, hooked: bool, ok: bool)
    requires Disjoint(p) && Carries(p)
    ensures var q := Step(p, SetContext(s, b, c, hooked, ok));
            Disjoint(q) && Carries(q) && (CanRun(q, s) ==> q.connections[q.open[s].connection].local == Some(b))
  {
    var op := SetContext(s, b, c, hooked, ok);
    StepIsSound(p, op);
    StepStores(p, op);
    if CanRun(Step(p, op), s) {
      LocalIsStored(Step(p, op), s);
    }
  }

  lemma StepStores(p: Pool, op: Operation)
    requires Disjoint(p) && Carries(p)
    ensures Step(p, op).info == InfoAfter(p.info, op)
  {
    PerformKeeps(p, op);
  }

  lemma LocalIsStored(p: Pool, s: SessionId)
    requires Disjoint(p) && Carries(p) && CanRun(p, s) && s in p.info
    ensures p.connections[p.open[s].connection].local == Some(p.info[s])
  {
    assert CarriesOwn(p, s);
  }

  lemma {:induction false} EveryRunIsSafe(connections: nat, ops: seq<Operation>)
    ensures Safe(After(connections, ops), ops)
  {
    if ops != [] {
      var n := |ops| - 1;
      EveryRunIsSafe(connections, ops[..n]);
      StepKeeps(After(connections, ops[..n]), ops[..n], ops[n]);
      assert ops[..n] + [ops[n]] == ops;
    }
  }

  lemma StepKeeps(p: Pool, ops: seq<Operation>, op: Operation)
    requires Safe(p, ops)
    ensures Safe(Step(p, op), ops + [op])
  {
    var now := ops + [op];
    assert now[..|now| - 1] == ops;
    forall e | e in p.executed
      ensures now[e.step] == ops[e.step] && now[..e.step] == ops[..e.step]
    {
    }
    assert now[..|ops|] == ops;
    PerformKeeps(p, op);
    CountingKeeps(Perform(p, op), p.steps + 1);
    var q := Step(p, op);
    forall s: SessionId
      ensures LastSet(now, s) == if s in q.info then Some(q.info[s]) else None
    {
      assert LastSet(ops, s) == if s in p.info then Some(p.info[s]) else None;
    }
  }

  lemma CountingKeeps(p: Pool, steps: nat)
    requires Disjoint(p) && Carries(p)
    ensures Disjoint(p.(steps := steps)) && Carries(p.(steps := steps))
  {
    var q := p.(steps := steps);
    forall t ensures CarriesOwn(q, t) { assert CarriesOwn(p, t); }
    assert forall d: nat :: Free(q, d) <==> Free(p, d);
  }

  /** The promise: over any run of any sessions on any connections, every statement runs with
      exactly the flags, the company and the user its own session last set; and if it set
      none, with no flag, and with neither or with both of them ''. */
  lemma EveryStatementRunsUnderItsOwnContext(connections: nat, ops: seq<Operation>, e: Executed)
    requires e in After(connections, ops).executed
    ensures e.step < |ops| && ops[e.step].Execute? && ops[e.step].session == e.session
    ensures Own(e.context, LastSet(ops[..e.step], e.session))
    ensures match LastSet(ops[..e.step], e.session)
            case Some(b) => e.context.flags == b.flags && e.context.company == Some(b.company) && e.context.user == Some(b.user)
            case None => e.context == Context({}, None, None) || e.context == Context({}, Some(""), Some(""))
  {
    EveryRunIsSafe(connections, ops);
  }

  /** A statement runs exactly where its session's transaction has not failed, or where one
      can begin on a free connection and the hook's statement does not fail. */
  lemma StatementRunsIff(p: Pool, s: SessionId, c: nat, hooked: bool, ok: bool)
    requires Disjoint(p)
    ensures |Step(p, Execute(s, c, hooked, ok)).executed| ==
            |p.executed| + if (if s in p.open then !p.open[s].aborted
                               else c < |p.connections| && (forall t | t in p.open :: p.open[t].connection != c) && (s in p.info ==> hooked))
                           then 1 else 0
  {
  }

  /** What a session sees cannot be steered by others: in two runs that agree on what the
      session last set, its statements run under the same context, unless it set none. */
  lemma OthersCannotSteer(connections: nat, ops: seq<Operation>, e: Executed, connections': nat, ops': seq<Operation>, e': Executed)
    requires e in After(connections, ops).executed && e' in After(connections', ops').executed
    requires e.step < |ops| && e'.step < |ops'|
    requires LastSet(ops[..e.step], e.session) == LastSet(ops'[..e'.step], e'.session)
    ensures e.context == e'.context || (Blank(e.context) && Blank(e'.context))
  {
    EveryStatementRunsUnderItsOwnContext(connections, ops, e);
    EveryStatementRunsUnderItsOwnContext(connections', ops', e');
  }

  // ----- the engine's session factory, updated in place -------------------------------------

  class SessionPool {
    var info: map<SessionId, Bound>
    var open: map<SessionId, Transaction>
    var connections: seq<Connection>
    ghost var executed: seq<Executed>
    ghost var steps: nat

    ghost function View(): Pool
      reads this
    {
      Pool(info, open, connections, executed, steps)
    }

    constructor (size: nat)
      ensures View() == Start(size)
    {
      info, open := map[], map[];
      connections := seq(size, _ => Connection(None, false));
      executed, steps := [], 0;
    }

    /** Open usable transactions carry their own session's context, and nothing else does. */
    ghost predicate Sound()
      reads this
    {
      Disjoint(View()) && Carries(View())
    }

    /** Autobegin, with the `after_begin` hook. A failing hook leaves no usable transaction. */
    method Begin(s: SessionId, c: nat, hooked: bool)
      modifies this
      ensures View() == BeginIfNeeded(old(View()), s, c, hooked)
      ensures old(Sound()) ==> Sound()
      ensures info == old(info)
      ensures s in info && !hooked && s !in old(open) ==> !CanRun(View(), s)
      ensures s !in old(open) && c < |old(connections)| && (forall t | t in old(open) :: old(open)[t].connection != c) ==>
                && open == old(open)[s := Transaction(c, s in info && !hooked)]
                && connections == old(connections)[c := Connection(if s in info && hooked then Some(info[s]) else None, old(connections)[c].touched)]
    {
      ghost var before := View();
      if s !in open && c < |connections| && forall t | t in open :: open[t].connection != c {
        open := open[s := Transaction(c, false)];
        connections := connections[c := connections[c].(local := None)];
        if s in info {
          if hooked {
            connections := connections[c := connections[c].(local := Some(info[s]))];
          } else {
            open := open[s := Transaction(c, true)];
          }
        }
      }
      if Disjoint(before) && Carries(before) {
        BeginIsSound(before, s, c, hooked);
      }
    }

    /** The `set_config` statement, which aborts the transaction if it fails. */
    method RunTenantSql(s: SessionId, b: Bound, ok: bool)
      modifies this
      ensures View() == Apply(old(View()), s, b, ok)
    {
      if s in open && !open[s].aborted && open[s].connection < |connections| {
        var d := open[s].connection;
        if ok {
          connections := connections[d := connections[d].(local := Some(b))];
        } else {
          open := open[s := open[s].(aborted := true)];
        }
      }
    }

    /** Where the session's own statement or the hook's fails, no statement of it runs until
        the transaction ends; the stored context stays for the next one. */
    method SetDatabaseContext(s: SessionId, b: Bound, c: nat, hooked: bool, ok: bool)
      modifies this
      ensures View() == Step(old(View()), SetContext(s, b, c, hooked, ok))
      ensures old(Sound()) ==> Sound()
      ensures s in info && info[s] == b
      ensures old(Sound()) && CanRun(View(), s) ==>
                var ctx := Effective(connections[open[s].connection]);
                ctx.flags == b.flags && ctx.company == Some(b.company) && ctx.user == Some(b.user)
      ensures ok && hooked && s !in old(open) && Free(old(View()), c) ==> CanRun(View(), s)
      ensures ok && CanRun(old(View()), s) ==> CanRun(View(), s)
    {
      ghost var before := View();
      info := info[s := b];
      Begin(s, c, hooked);
      RunTenantSql(s, b, ok);
      steps := steps + 1;
      if Disjoint(before) && Carries(before) {
        SetContextIsApplied(before, s, b, c, hooked, ok);
      }
    }

    /** Runs a statement and says under which context, if it could run at all: its own, or a
        blank one for a session that stored none. */
    method ExecuteStatement(s: SessionId, c: nat, hooked: bool, ok: bool) returns (ran: Option<Context>)
      modifies this
      ensures View() == Step(old(View()), Execute(s, c, hooked, ok))
      ensures executed == if ran.Some? then old(executed) + [Executed(s, old(steps), ran.value)] else old(executed)
      ensures old(Sound()) ==> Sound() && (ran.Some? ==> Own(ran.value, if s in info then Some(info[s]) else None))
      ensures old(Sound()) ==>
                (ran.Some? <==> if s in old(open) then !old(open)[s].aborted else Free(old(View()), c) && (s in info ==> hooked))
      ensures ran.Some? ==> s in open && open[s].aborted == !ok
      ensures old(Sound()) && ran.Some? && s !in info ==>
                ran.value == if connections[open[s].connection].touched then Context({}, Some(""), Some("")) else Context({}, None, None)
    {
      ghost var before := View();
      Begin(s, c, hooked);
      ran := None;
      if s in open && !open[s].aborted && open[s].connection < |connections| {
        ran := Some(Effective(connections[open[s].connection]));
        executed := executed + [Executed(s, steps, ran.value)];
        if !ok {
          open := open[s := open[s].(aborted := true)];
        }
      }
      steps := steps + 1;
      if Disjoint(before) && Carries(before) {
        StepIsSound(before, Execute(s, c, hooked, ok));
        BeginIsSound(before, s, c, hooked);
        assert CarriesOwn(BeginIfNeeded(before, s, c, hooked), s);
      }
    }

    method Release(s: SessionId)
      modifies this
      ensures View() == End(old(View()), s)
      ensures old(Sound()) ==> Sound() && open == old(open) - {s}
      // Its settings go; a connection that carried any reports them as '' from then on.
      ensures old(Sound()) && s in old(open) ==>
                var d := old(open)[s].connection;
                connections == old(connections)[d := Connection(None, old(connections)[d].touched || old(connections)[d].local.Some?)]
    {
      ghost var before := View();
      if s in open && open[s].connection < |connections| {
        var d := open[s].connection;
        connections := connections[d := Connection(None, connections[d].touched || connections[d].local.Some?)];
        open := open - {s};
      }
      if Disjoint(before) && Carries(before) {
        EndKeeps(before, s);
      }
    }

    /** Commit and rollback end the transaction alike, and keep the stored context. */
    method CommitOrRollback(s: SessionId)
      modifies this
      ensures View() == Step(old(View()), Commit(s)) == Step(old(View()), Rollback(s))
      ensures info == old(info) && (old(Sound()) ==> Sound() && open == old(open) - {s})
    {
      Release(s);
      steps := steps + 1;
      if Disjoint(old(View())) && Carries(old(View())) {
        StepIsSound(old(View()), Commit(s));
      }
    }

    /** `get_db` on the way out: roll back and drop the session. */
    method CloseSession(s: SessionId)
      modifies this
      ensures View() == Step(old(View()), Close(s))
      ensures info == old(info) - {s} && (old(Sound()) ==> Sound() && open == old(open) - {s})
    {
      Release(s);
      info := info - {s};
      steps := steps + 1;
      if Disjoint(old(View())) && Carries(old(View())) {
        StepIsSound(old(View()), Close(s));
      }
    }
  }
}
