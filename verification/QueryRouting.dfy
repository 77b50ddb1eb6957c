/** Where a statement is sent: classification of the parse tree, the set of
    destination nodes, inheritance of that set by EXECUTE and DEALLOCATE, and the
    write mark that stops load balancing.  Everything the walkers over the parse
    tree and the connection state answer is in `Facts`. */
module QueryRouting {
  import opened Options
  import opened SentMessages
  import RequestRing
  import opened Statements

  const MaxNodes: nat := RequestRing.MAX_NUM_BACKENDS

  // ----- configuration and what is known when a statement is routed -----

  datatype SubMode = Streaming | Logical | Slony

  datatype OnWrite = Off | InTransaction | TransTransaction | Always

  // The primary and master nodes do not change under a session: a failover
  // ends it.
  datatype Config = Config(
    replication: bool, masterSlave: bool, subMode: SubMode,
    loadBalance: bool, statementLevel: bool, replicateSelect: bool,
    delayThreshold: int, checkTemp: bool, checkUnlogged: bool,
    onWrite: OnWrite, numBackends: nat, primary: int, master: int)

  datatype Facts = Facts(
    noLoadBalance: bool,   // the query starts with the NO LOAD BALANCE comment
    isSelect: bool, systemCatalog: bool, tempTable: bool, unloggedTable: bool,
    blacklisted: bool, functionCall: bool, readOnlySet: bool,
    protocol3: bool,
    tstate: char,          // transaction state of the primary's connection
    masterTstate: char,    // and of the (virtual) master's
    failed: bool, serializable: bool,
    standbyDelay: int,     // of the session's load balance node
    chosen: int,           // what a fresh choice of load balance node gives
    live: set<nat>)

  // The node map, the session's load balance node afterwards, and whether a node
  // id out of range ended the attempt (the map is then empty).
  datatype Outcome = Outcome(ok: bool, nodes: set<nat>, balance: int)

  function Single(n: int, balance: int): Outcome {
    if 0 <= n < MaxNodes then Outcome(true, {n as nat}, balance) else Outcome(false, {}, balance)
  }

  // pool_setall_node_to_be_sent
  predicate InAll(cfg: Config, f: Facts, balance: int, i: nat) {
    && i < cfg.numBackends && i in f.live
    && (cfg.masterSlave && !cfg.subMode.Slony? && !cfg.statementLevel ==> i == cfg.primary || i == balance)
  }

  function All(cfg: Config, f: Facts, balance: int): set<nat> {
    set i: nat | i < cfg.numBackends && InAll(cfg, f, balance, i)
  }

  // Outside a transaction, or in one that has neither written nor failed nor is
  // serializable.
  predicate Balanceable(tstate: char, f: Facts, writing: bool) {
    tstate == 'I' || (!writing && !f.failed && !f.serializable)
  }

  predicate PrefersPrimary(cfg: Config, f: Facts) {
    || (cfg.masterSlave && cfg.subMode.Streaming? && cfg.delayThreshold != 0 && f.standbyDelay > cfg.delayThreshold)
    || f.systemCatalog || (cfg.checkTemp && f.tempTable) || (cfg.checkUnlogged && f.unloggedTable)
    || f.blacklisted || f.functionCall
  }

  function Balanced(cfg: Config, f: Facts, balance: int): Outcome {
    var b := if cfg.statementLevel then f.chosen else balance;
    Single(b, b)
  }

  predicate CanBalance(cfg: Config, f: Facts) {
    cfg.loadBalance && f.isSelect && f.protocol3
  }

  function ByMasterSlave(cfg: Config, f: Facts, stmt: Stmt, writing: bool, balance: int): Outcome {
    match Destination(stmt)
    case Primary => Single(cfg.primary, balance)
    case Both => Outcome(true, All(cfg, f, balance), balance)
    case Either =>
      if (writing && cfg.onWrite.Always?) || !CanBalance(cfg, f)
         || !Balanceable(f.tstate, f, writing) || PrefersPrimary(cfg, f)
      then Single(cfg.primary, balance)
      else Balanced(cfg, f, balance)
  }

  function ByReplication(cfg: Config, f: Facts, writing: bool, balance: int): Outcome {
    if !f.isSelect || f.functionCall || cfg.replicateSelect then Outcome(true, All(cfg, f, balance), balance)
    else if CanBalance(cfg, f) && Balanceable(f.masterTstate, f, writing) then Balanced(cfg, f, balance)
    else Single(cfg.master, balance)
  }

  // The decision before EXECUTE and DEALLOCATE are looked at.
  function Tentative(cfg: Config, f: Facts, stmt: Stmt, multi: bool, writing: bool, balance: int): Outcome {
    if !cfg.replication && !cfg.masterSlave then Single(cfg.master, balance)
    else if cfg.masterSlave then
      if multi then Single(cfg.primary, balance) else ByMasterSlave(cfg, f, stmt, writing, balance)
    else ByReplication(cfg, f, writing, balance)
  }

  // ----- prepared statements -----

  // The open message of that name: of a PREPARE first, of a Parse otherwise.
  function Recorded(ms: seq<SentMessage>, name: string): (r: Option<SentMessage>)
    ensures r.Some? ==> r.value in ms && r.value.name == name && r.value.state == Created
    ensures r.Some? ==> r.value.kind == 'Q' || r.value.kind == 'P'
    ensures r.Some? && r.value.kind == 'P' ==> forall m | m in ms :: !(m.kind == 'Q' && m.name == name && m.state == Created)
    ensures r.None? <==> forall m | m in ms :: !(m.name == name && m.state == Created && (m.kind == 'Q' || m.kind == 'P'))
  {
    var i := IndexIn(ms, 'Q', name, Created);
    var j := IndexIn(ms, 'P', name, Created);
    if i < |ms| then Some(ms[i]) else if j < |ms| then Some(ms[j]) else None
  }

  // Named messages have a query context whose map is known.
  ghost predicate Linked(ms: seq<SentMessage>, known: set<nat>) {
    forall m | m in ms && m.name != "" :: m.qc.Some? && m.qc.value in known
  }

  // The grammar has no empty identifiers.
  predicate Named(stmt: Stmt) {
    && (stmt.Execute? ==> stmt.name != "")
    && (stmt.Deallocate? && stmt.which.Some? ==> stmt.which.value != "")
  }

  predicate Inherits(stmt: Stmt) {
    stmt.Execute? || stmt.Deallocate?
  }

  function NameOf(stmt: Stmt): Option<string> {
    if stmt.Execute? then Some(stmt.name) else if stmt.Deallocate? then stmt.which else None
  }

  // The map a recorded name hands down.  `maps` holds the map of every context,
  // the one being routed included.
  function Handed(ms: seq<SentMessage>, maps: map<nat, set<nat>>, stmt: Stmt): Option<set<nat>>
    requires Linked(ms, maps.Keys) && Named(stmt)
  {
    if NameOf(stmt).Some? && Recorded(ms, NameOf(stmt).value).Some? then
      Some(maps[Recorded(ms, NameOf(stmt).value).value.qc.value])
    else None
  }

  // pool_where_to_send for context q
  function Route(cfg: Config, f: Facts, stmt: Stmt, multi: bool, writing: bool, balance: int,
                 ms: seq<SentMessage>, maps: map<nat, set<nat>>, q: nat): Outcome
    requires Linked(ms, maps.Keys) && Named(stmt)
  {
    if f.noLoadBalance then Single(if cfg.masterSlave then cfg.primary else cfg.master, balance)
    else
      var t := Tentative(cfg, f, stmt, multi, writing, balance);
      if !t.ok then t
      else
        var h := Handed(ms, maps[q := t.nodes], stmt);
        if h.Some? then t.(nodes := h.value)
        else if stmt.Deallocate? then t.(nodes := t.nodes + All(cfg, f, t.balance))
        else t
  }

  // ----- what one decision guarantees -----

  ghost predicate PrimaryExists(cfg: Config) {
    cfg.masterSlave && 0 <= cfg.primary < MaxNodes
  }

  ghost function OnlyPrimary(cfg: Config): set<nat>
    requires PrimaryExists(cfg)
  {
    {cfg.primary as nat}
  }

  // Writes and multi-statement strings: the primary and nothing else.
  ghost predicate Confined(stmt: Stmt, multi: bool) {
    !Inherits(stmt) && (multi || Destination(stmt) == Primary)
  }

  lemma ConfinedGoesToPrimary(cfg: Config, f: Facts, stmt: Stmt, multi: bool, writing: bool, balance: int,
                              ms: seq<SentMessage>, maps: map<nat, set<nat>>, q: nat)
    requires PrimaryExists(cfg) && Linked(ms, maps.Keys) && Named(stmt) && Confined(stmt, multi)
    ensures Route(cfg, f, stmt, multi, writing, balance, ms, maps, q) == Outcome(true, OnlyPrimary(cfg), balance)
  {
  }

  // What the walkers over the parse tree answer about a statement.
  ghost predicate Truthful(f: Facts, stmt: Stmt) {
    && (!stmt.Other? && f.isSelect ==> IsSelectQuery(stmt))
    && (!stmt.Select? && IsSelectQuery(stmt) ==> f.isSelect)
    && f.functionCall == HasFunctionCall(stmt)
    && (!stmt.Select? ==> !f.systemCatalog && !f.tempTable && !f.unloggedTable)
  }

  // Nothing but the classification stands between a statement and the load
  // balance node: balancing is on, no mark or transaction is in the way, and
  // nothing speaks for the primary.
  ghost predicate Balances(cfg: Config, f: Facts, writing: bool) {
    && !f.noLoadBalance && cfg.loadBalance && f.isSelect && f.protocol3
    && !(writing && (cfg.onWrite.Always? || f.tstate != 'I'))
    && (f.tstate != 'I' ==> !f.failed && !f.serializable)
    && !(cfg.masterSlave && cfg.subMode.Streaming? && cfg.delayThreshold != 0 && f.standbyDelay > cfg.delayThreshold)
    && !f.systemCatalog && !(cfg.checkTemp && f.tempTable) && !(cfg.checkUnlogged && f.unloggedTable)
    && !f.blacklisted && !f.functionCall
  }

  // Exactly when a single statement meant for one node leaves the primary: it
  // only reads or is a missed write, and nothing else holds it back.  It then
  // goes to the load balance node.
  lemma {:induction false} LeavesPrimaryIff(cfg: Config, f: Facts, stmt: Stmt, writing: bool, balance: int,
                         ms: seq<SentMessage>, maps: map<nat, set<nat>>, q: nat)
    requires PrimaryExists(cfg) && Linked(ms, maps.Keys) && Named(stmt) && !Inherits(stmt) && Destination(stmt) != Both
    requires Grammatical(stmt)
    requires var b := if cfg.statementLevel then f.chosen else balance; 0 <= b < MaxNodes && b != cfg.primary
    ensures var b := if cfg.statementLevel then f.chosen else balance;
            Route(cfg, f, stmt, false, writing, balance, ms, maps, q)
            == if (OnlyReads(stmt) || Missed(Core(stmt))) && Balances(cfg, f, writing) then Outcome(true, {b as nat}, b)
               else Outcome(true, OnlyPrimary(cfg), balance)
  {
    ReadsAreEitherIff(stmt);
  }

  // The statements that change data and that nothing keeps on the primary: a
  // COPY TO of a SELECT that writes, locks, stores or calls a writing function,
  // and a SELECT with nothing but a concealed write.
  ghost predicate SlipsThrough(stmt: Stmt) {
    || Missed(stmt)
    || (stmt.Copy? && !stmt.isFrom && stmt.query.Some? && stmt.query.value.Select? && Calls(stmt.query.value))
  }

  // A statement that changes data leaves the primary if and only if it is one of
  // those and load balancing applies to it.
  lemma {:induction false} ChangeLeavesPrimaryIff(cfg: Config, f: Facts, stmt: Stmt, writing: bool, balance: int,
                         ms: seq<SentMessage>, maps: map<nat, set<nat>>, q: nat)
    requires PrimaryExists(cfg) && Linked(ms, maps.Keys) && Named(stmt) && !Inherits(stmt)
    requires Grammatical(stmt) && Truthful(f, stmt) && (MayWrite(stmt) || Calls(stmt))
    requires var b := if cfg.statementLevel then f.chosen else balance; 0 <= b < MaxNodes && b != cfg.primary
    ensures Route(cfg, f, stmt, false, writing, balance, ms, maps, q).nodes != OnlyPrimary(cfg)
            <==> SlipsThrough(stmt) && Balances(cfg, f, writing)
  {
    CallsAreForOne(stmt);
    LeavesPrimaryIff(cfg, f, stmt, writing, balance, ms, maps, q);
  }

  lemma {:induction false} CallsAreForOne(stmt: Stmt)
    requires MayWrite(stmt) || Calls(stmt)
    ensures Destination(stmt) != Both
  {
    if stmt.Prepare? {
      CallsAreForOne(stmt.body);
    }
  }

  // COPY (SELECT ... FOR UPDATE) TO STDOUT and COPY (WITH w AS (DELETE ...)
  // SELECT ...) TO STDOUT, outside a transaction, go to the load balance node.
  lemma CopySlipsThrough(cfg: Config, f: Facts, locks: bool, balance: int,
                         ms: seq<SentMessage>, maps: map<nat, set<nat>>, q: nat)
    requires PrimaryExists(cfg) && Linked(ms, maps.Keys)
    requires 0 <= balance < MaxNodes && balance != cfg.primary && cfg.loadBalance && !cfg.statementLevel
    requires !f.noLoadBalance && f.protocol3 && f.tstate == 'I' && !f.blacklisted
    requires cfg.delayThreshold == 0
    requires Truthful(f, Copy(false, false, Some(Select(false, locks, false, if locks then [] else [Write], []))))
    ensures var stmt := Copy(false, false, Some(Select(false, locks, false, if locks then [] else [Write], [])));
            && MayWrite(stmt)
            && Route(cfg, f, stmt, false, false, balance, ms, maps, q) == Outcome(true, {balance as nat}, balance)
  {
    var inner := Select(false, locks, false, if locks then [] else [Write], []);
    var stmt := Copy(false, false, Some(inner));
    assert !locks ==> MayWrite(inner.ctes[0]);
    assert MayWrite(inner);
    LeavesPrimaryIff(cfg, f, stmt, false, balance, ms, maps, q);
  }

  // PREPARE itself is never balanced, whatever it prepares; only a Parse
  // message puts a prepared statement on a standby.
  lemma {:induction false} PrepareStaysOnPrimary(cfg: Config, f: Facts, stmt: Stmt, multi: bool, writing: bool, balance: int,
                         ms: seq<SentMessage>, maps: map<nat, set<nat>>, q: nat)
    requires PrimaryExists(cfg) && Linked(ms, maps.Keys) && stmt.Prepare? && Truthful(f, stmt) && Destination(stmt) != Both
    ensures Route(cfg, f, stmt, multi, writing, balance, ms, maps, q) == Outcome(true, OnlyPrimary(cfg), balance)
  {
  }

  // What a multi-statement string may inherit when it starts with EXECUTE or
  // DEALLOCATE.
  ghost predicate Strays(cfg: Config, f: Facts, stmt: Stmt, balance: int,
                         ms: seq<SentMessage>, maps: map<nat, set<nat>>, q: nat)
    requires PrimaryExists(cfg) && Linked(ms, maps.Keys) && Named(stmt)
  {
    && !f.noLoadBalance
    && (match Handed(ms, maps[q := OnlyPrimary(cfg)], stmt)
        case Some(nodes) => nodes != OnlyPrimary(cfg)
        case None => stmt.Deallocate? && exists i: nat :: InAll(cfg, f, balance, i) && i != cfg.primary)
  }

  // A multi-statement string reaches exactly the primary unless it begins with
  // an EXECUTE or DEALLOCATE that brings other nodes in.
  lemma {:induction false} MultiGoesToPrimaryIff(cfg: Config, f: Facts, stmt: Stmt, writing: bool, balance: int,
                              ms: seq<SentMessage>, maps: map<nat, set<nat>>, q: nat)
    requires PrimaryExists(cfg) && Linked(ms, maps.Keys) && Named(stmt)
    ensures Route(cfg, f, stmt, true, writing, balance, ms, maps, q).nodes == OnlyPrimary(cfg)
            <==> !Strays(cfg, f, stmt, balance, ms, maps, q)
  {
    if !f.noLoadBalance && stmt.Deallocate? && Handed(ms, maps[q := OnlyPrimary(cfg)], stmt).None? {
      var r := Route(cfg, f, stmt, true, writing, balance, ms, maps, q).nodes;
      var all := All(cfg, f, balance);
      assert r == OnlyPrimary(cfg) + all;
      if i: nat :| InAll(cfg, f, balance, i) && i != cfg.primary {
        assert i in r;
      } else {
        forall i | i in all
          ensures i in OnlyPrimary(cfg)
        {
          assert InAll(cfg, f, balance, i);
        }
      }
    }
  }

  // While the mark is set and the primary is in a transaction no SELECT leaves
  // the primary; under Always it does not even take a transaction, and holds for
  // every statement classified as readable.
  lemma MarkedStaysOnPrimary(cfg: Config, f: Facts, stmt: Stmt, multi: bool, balance: int,
                             ms: seq<SentMessage>, maps: map<nat, set<nat>>, q: nat)
    requires PrimaryExists(cfg) && Linked(ms, maps.Keys) && Named(stmt) && !Inherits(stmt)
    requires Destination(stmt) != Both
    requires f.tstate != 'I' || cfg.onWrite.Always?
    ensures Route(cfg, f, stmt, multi, true, balance, ms, maps, q) == Outcome(true, OnlyPrimary(cfg), balance)
  {
  }

  // ----- the session -----

  datatype Context = Context(stmt: Stmt, multi: bool, nodes: set<nat>)

  // `made` remembers, for each message, what it was created for and where that
  // had been sent; `moved` holds the contexts Bind has routed again.
  datatype State = State(
    s: Session, ctx: map<nat, Context>, balance: int, writing: bool,
    made: map<nat, Context>, moved: set<nat>)

  function Maps(ctx: map<nat, Context>): map<nat, set<nat>> {
    map q | q in ctx :: ctx[q].nodes
  }

  datatype Op =
    | Start(q: nat, stmt: Stmt, multi: bool, f: Facts)   // a new context, routed
    | Again(p: nat, g: Facts)                            // Bind routes a context again
    | Reparse(i: nat, r: nat, e: Facts)                  // Bind sends Parse to the primary
    | Record(m: SentMessage)                             // PREPARE or Parse is complete
    | Book(op: SentMessages.Op)                          // any other list operation
    | Succeeded(done: Stmt, h: Facts)                    // a command succeeded
    | InternalBegin                                      // an internal transaction starts

  // pool_at_command_success on the write mark
  function Marked(cfg: Config, f: Facts, stmt: Stmt, writing: bool): bool {
    if stmt.Transaction? && (stmt.trans.Begin? || stmt.trans.StartTransaction? || stmt.trans.Commit? || stmt.trans.Rollback?)
    then (if cfg.onWrite.TransTransaction? then writing else Unmarked(cfg, writing))
    else if SetsSerializable(stmt) || (stmt.Transaction? && TwoPhase(stmt.trans)) then writing
    else if (!f.isSelect || f.functionCall) && (f.tstate == 'T' || cfg.onWrite.Always?) && !f.readOnlySet
    then writing || !cfg.onWrite.Off?
    else writing
  }

  function Unmarked(cfg: Config, writing: bool): bool {
    writing && cfg.onWrite.Always?
  }

  // Bind sees to it that a statement prepared before a write in the transaction
  // is executed on the primary.
  ghost predicate Rebinds(cfg: Config, st: State, f: Facts) {
    cfg.loadBalance && st.writing && !cfg.onWrite.Off? && (cfg.masterSlave ==> f.tstate == 'T')
  }

  ghost predicate Allowed(cfg: Config, st: State, op: Op) {
    match op
    case Start(q, stmt, _, _) => q !in st.s.live && Named(stmt)
    case Again(p, g) => p in st.s.live && Rebinds(cfg, st, g) && (cfg.masterSlave ==> cfg.subMode.Slony?)
    case Reparse(i, r, e) =>
      && PrimaryExists(cfg) && !cfg.subMode.Slony? && Rebinds(cfg, st, e) && r !in st.s.live
      && i < |st.s.msgs| && st.s.msgs[i].kind == 'P' && st.s.msgs[i].qc.Some? && st.s.msgs[i].qc.value in st.s.live
      && st.s.msgs[i].qc.value in st.ctx && cfg.primary !in st.ctx[st.s.msgs[i].qc.value].nodes
    case Record(m) =>
      && SentMessages.Allowed(st.s, Add(m))
      && m.qc.Some?
      && (Added(st.s, m) == st.s || forall k | k in st.s.msgs :: k.id != m.id)
    case Book(o) => !o.NewContext? && !o.Add? && SentMessages.Allowed(st.s, o)
    case _ => true
  }

  // Every reference is live, every live context has been routed, every message
  // still has the context of the statement it was created for.
  ghost predicate Inv(cfg: Config, st: State) {
    && Safe(st.s)
    && st.s.live <= st.ctx.Keys
    && Linked(st.s.msgs, st.s.live)
    && (forall m | m in st.s.msgs && m.qc.Some? :: Faithful(st.ctx, st.made, st.moved, m))
    && (forall q | q in st.s.live :: Sound(cfg, st.ctx[q]))
    && (forall q | q in st.s.live && q in st.moved :: Resent(cfg, st.ctx[q]))
  }

  // Where a statement goes that Bind has routed again: the primary, except that
  // without streaming or logical replication a statement meant for all nodes, or
  // naming another prepared one, is routed afresh as such.
  ghost predicate Resent(cfg: Config, c: Context) {
    PrimaryExists(cfg) ==>
      || c.nodes == OnlyPrimary(cfg)
      || (cfg.subMode.Slony? && (Inherits(c.stmt) || Destination(c.stmt) == Both))
  }

  ghost predicate Faithful(ctx: map<nat, Context>, made: map<nat, Context>, moved: set<nat>, m: SentMessage)
    requires m.qc.Some?
  {
    && m.qc.value in ctx && m.id in made
    && made[m.id].stmt == ctx[m.qc.value].stmt && made[m.id].multi == ctx[m.qc.value].multi
    && (m.qc.value !in moved ==> made[m.id] == ctx[m.qc.value])
  }

  ghost predicate Sound(cfg: Config, c: Context) {
    && Named(c.stmt)
    && (PrimaryExists(cfg) && Confined(c.stmt, c.multi) ==> c.nodes == OnlyPrimary(cfg))
  }

  ghost function RouteIn(cfg: Config, st: State, q: nat, stmt: Stmt, multi: bool, f: Facts): Outcome
    requires Linked(st.s.msgs, st.ctx.Keys) && Named(stmt)
  {
    Route(cfg, f, stmt, multi, st.writing, st.balance, st.s.msgs, Maps(st.ctx), q)
  }

  ghost function Apply(cfg: Config, st: State, op: Op): State
    requires Inv(cfg, st) && Allowed(cfg, st, op)
  {
    match op
    case Start(q, stmt, multi, f) =>
      var r := RouteIn(cfg, st, q, stmt, multi, f);
      st.(s := SentMessages.Apply(st.s, NewContext(q)), ctx := st.ctx[q := Context(stmt, multi, r.nodes)],
          balance := r.balance, moved := st.moved - {q})
    case Again(p, f) =>
      var r := RouteIn(cfg, st, p, st.ctx[p].stmt, st.ctx[p].multi, f);
      st.(ctx := st.ctx[p := st.ctx[p].(nodes := r.nodes)], balance := r.balance, moved := st.moved + {p})
    case Reparse(i, r, _) =>
      var m := st.s.msgs[i];
      st.(s := st.s.(msgs := st.s.msgs[i := m.(qc := Some(r))], live := st.s.live + {r}),
          ctx := st.ctx[r := st.ctx[m.qc.value].(nodes := OnlyPrimary(cfg))], moved := st.moved + {r})
    case Record(m) =>
      var s' := Added(st.s, m);
      if s' == st.s then st else st.(s := s', made := st.made[m.id := st.ctx[m.qc.value]])
    case Book(o) => st.(s := SentMessages.Apply(st.s, o))
    case Succeeded(stmt, f) => st.(writing := Marked(cfg, f, stmt, st.writing))
    case InternalBegin => st.(writing := Unmarked(cfg, st.writing))
  }

  // ----- every operation keeps the invariant -----

  lemma {:induction false} ContextLive(s: Session, m: SentMessage)
    requires Safe(s) && m in s.msgs && m.qc.Some?
    ensures m.qc.value in s.live
  {
    var i :| 0 <= i < |s.msgs| && s.msgs[i] == m;
    assert s.msgs[i].qc.value in Contexts(s.msgs);
  }

  lemma {:induction false} StartKeeps(cfg: Config, st: State, op: Op)
    requires op.Start? && Inv(cfg, st) && Allowed(cfg, st, op)
    ensures Inv(cfg, Apply(cfg, st, op))
  {
    var st' := Apply(cfg, st, op);
    SimpleOpSafe(st.s, NewContext(op.q));
    forall m | m in st'.s.msgs && m.qc.Some?
      ensures Faithful(st'.ctx, st'.made, st'.moved, m)
    {
      ContextLive(st.s, m);
      assert Faithful(st.ctx, st.made, st.moved, m);
    }
    if PrimaryExists(cfg) && Confined(op.stmt, op.multi) {
      ConfinedGoesToPrimary(cfg, op.f, op.stmt, op.multi, st.writing, st.balance, st.s.msgs, Maps(st.ctx), op.q);
    }
    forall q | q in st'.s.live
      ensures Sound(cfg, st'.ctx[q])
    {
      assert q != op.q ==> Sound(cfg, st.ctx[q]);
    }
  }

  lemma {:induction false} AgainKeeps(cfg: Config, st: State, op: Op)
    requires op.Again? && Inv(cfg, st) && Allowed(cfg, st, op)
    ensures Inv(cfg, Apply(cfg, st, op))
  {
    var st' := Apply(cfg, st, op);
    var c := st.ctx[op.p];
    assert Sound(cfg, c);
    forall m | m in st'.s.msgs && m.qc.Some?
      ensures Faithful(st'.ctx, st'.made, st'.moved, m)
    {
      assert Faithful(st.ctx, st.made, st.moved, m);
    }
    if PrimaryExists(cfg) && Confined(c.stmt, c.multi) {
      ConfinedGoesToPrimary(cfg, op.g, c.stmt, c.multi, st.writing, st.balance, st.s.msgs, Maps(st.ctx), op.p);
    } else if PrimaryExists(cfg) && !Inherits(c.stmt) && Destination(c.stmt) != Both {
      MarkedStaysOnPrimary(cfg, op.g, c.stmt, c.multi, st.balance, st.s.msgs, Maps(st.ctx), op.p);
    }
    forall q | q in st'.s.live
      ensures Sound(cfg, st'.ctx[q])
    {
      assert Sound(cfg, st.ctx[q]);
    }
  }

  lemma {:induction false} ReparseKeeps(cfg: Config, st: State, op: Op)
    requires op.Reparse? && Inv(cfg, st) && Allowed(cfg, st, op)
    ensures Inv(cfg, Apply(cfg, st, op))
  {
    var st' := Apply(cfg, st, op);
    var before := st.s.msgs[op.i];
    assert Faithful(st.ctx, st.made, st.moved, before);
    assert Sound(cfg, st.ctx[before.qc.value]);
    forall k | 0 <= k < |st'.s.msgs| && st'.s.msgs[k].qc.Some?
      ensures Faithful(st'.ctx, st'.made, st'.moved, st'.s.msgs[k]) && st'.s.msgs[k].qc.value in st'.s.live
    {
      if k != op.i {
        ContextLive(st.s, st.s.msgs[k]);
        assert Faithful(st.ctx, st.made, st.moved, st.s.msgs[k]);
      }
    }
    forall m | m in st'.s.msgs && m.name != ""
      ensures m.qc.Some?
    {
      assert m in st.s.msgs || m == before.(qc := Some(op.r));
    }
    forall q | q in st'.s.live
      ensures Sound(cfg, st'.ctx[q])
    {
      assert q != op.r ==> Sound(cfg, st.ctx[q]);
    }
  }

  // Where the messages of a list come from: each is one of the old ones, at most
  // closed or, if unnamed, without its context.
  ghost predicate Descends(m': SentMessage, m: SentMessage) {
    m'.id == m.id && m'.name == m.name && (m'.qc == m.qc || (m'.qc.None? && m.name == ""))
  }

  ghost predicate AllDescend(to: seq<SentMessage>, from: seq<SentMessage>) {
    forall m' | m' in to :: exists m | m in from :: Descends(m', m)
  }

  lemma SubsetDescends(to: seq<SentMessage>, from: seq<SentMessage>)
    requires forall m | m in to :: m in from
    ensures AllDescend(to, from)
  {
    forall m' | m' in to
      ensures exists m | m in from :: Descends(m', m)
    {
      assert Descends(m', m');
    }
  }

  lemma {:induction false} OthersMembers(ms: seq<SentMessage>, kind: char)
    ensures forall m | m in Others(ms, kind) :: m in ms
  {
    if ms != [] {
      OthersMembers(ms[1..], kind);
    }
  }

  lemma {:induction false} ZappedDescends(s: Session)
    requires Finishes(s)
    ensures AllDescend(Zapped(s.msgs, s.current.value), s.msgs)
  {
    var z := Zapped(s.msgs, s.current.value);
    forall m' | m' in z
      ensures exists m | m in s.msgs :: Descends(m', m)
    {
      var i :| 0 <= i < |z| && z[i] == m';
      assert Descends(m', s.msgs[i]);
    }
  }

  lemma {:induction false} BookDescends(s: Session, o: SentMessages.Op)
    requires SentMessages.Allowed(s, o) && !o.NewContext? && !o.Add?
    ensures AllDescend(SentMessages.Apply(s, o).msgs, s.msgs)
    ensures SentMessages.Apply(s, o).live <= s.live
  {
    if o.RemoveKind? {
      OthersMembers(s.msgs, o.kind);
      SubsetDescends(Others(s.msgs, o.kind), s.msgs);
    } else if o.Close? {
      var ms := s.msgs[o.i := s.msgs[o.i].(state := Closed)];
      forall m' | m' in ms
        ensures exists m | m in s.msgs :: Descends(m', m)
      {
        var k :| 0 <= k < |ms| && ms[k] == m';
        assert Descends(m', s.msgs[k]);
      }
    } else if o.FinishQuery? && Finishes(s) {
      ZappedDescends(s);
    } else {
      SubsetDescends(SentMessages.Apply(s, o).msgs, s.msgs);
    }
  }

  // A list whose messages descend from those of another keeps what they are tied to.
  lemma {:induction false} DescendKeeps(st: State, to: Session)
    requires AllDescend(to.msgs, st.s.msgs) && Safe(to) && Linked(st.s.msgs, st.s.live)
    requires forall m | m in st.s.msgs && m.qc.Some? :: Faithful(st.ctx, st.made, st.moved, m)
    ensures Linked(to.msgs, to.live)
    ensures forall m | m in to.msgs && m.qc.Some? :: Faithful(st.ctx, st.made, st.moved, m)
  {
    forall m' | m' in to.msgs
      ensures m'.qc.Some? ==> Faithful(st.ctx, st.made, st.moved, m')
      ensures m'.name != "" ==> m'.qc.Some? && m'.qc.value in to.live
    {
      var m :| m in st.s.msgs && Descends(m', m);
      if m'.qc.Some? {
        assert Faithful(st.ctx, st.made, st.moved, m);
        ContextLive(to, m');
      }
    }
  }

  lemma {:induction false} BookKeepsMessages(cfg: Config, st: State, op: Op)
    requires op.Book? && Inv(cfg, st) && Allowed(cfg, st, op)
    ensures var st' := Apply(cfg, st, op);
            && Safe(st'.s) && st'.s.live <= st.s.live && Linked(st'.s.msgs, st'.s.live)
            && forall m | m in st'.s.msgs && m.qc.Some? :: Faithful(st'.ctx, st'.made, st'.moved, m)
  {
    OpSafe(st.s, op.op);
    BookDescends(st.s, op.op);
    DescendKeeps(st, SentMessages.Apply(st.s, op.op));
  }

  lemma {:induction false} BookKeeps(cfg: Config, st: State, op: Op)
    requires op.Book? && Inv(cfg, st) && Allowed(cfg, st, op)
    ensures Inv(cfg, Apply(cfg, st, op))
  {
    BookKeepsMessages(cfg, st, op);
  }

  lemma {:induction false} RecordKeeps(cfg: Config, st: State, op: Op)
    requires op.Record? && Inv(cfg, st) && Allowed(cfg, st, op)
    ensures Inv(cfg, Apply(cfg, st, op))
  {
    var m := op.m;
    var s' := Added(st.s, m);
    if s' != st.s {
      OpSafe(st.s, Add(m));
      var st' := Apply(cfg, st, op);
      assert forall k | k in s'.msgs :: k in st.s.msgs || k == m;
      assert s'.live <= st.s.live;
      forall k | k in s'.msgs && k.qc.Some?
        ensures Faithful(st'.ctx, st'.made, st'.moved, k)
      {
        if k in st.s.msgs {
          assert Faithful(st.ctx, st.made, st.moved, k);
          assert k.id != m.id;
        }
      }
      forall k | k in s'.msgs && k.name != ""
        ensures k.qc.Some? && k.qc.value in s'.live
      {
        ContextLive(s', k);
      }
    }
  }

  lemma {:induction false} OpKeeps(cfg: Config, st: State, op: Op)
    requires Inv(cfg, st) && Allowed(cfg, st, op)
    ensures Inv(cfg, Apply(cfg, st, op))
  {
    match op
    case Start(_, _, _, _) => StartKeeps(cfg, st, op);
    case Again(_, _) => AgainKeeps(cfg, st, op);
    case Reparse(_, _, _) => ReparseKeeps(cfg, st, op);
    case Record(_) => RecordKeeps(cfg, st, op);
    case Book(_) => BookKeeps(cfg, st, op);
    case Succeeded(_, _) =>
    case InternalBegin =>
  }

  // ----- runs -----

  ghost predicate IsRun(cfg: Config, st: State, ops: seq<Op>)
    decreases |ops|
  {
    ops == [] || (Inv(cfg, st) && Allowed(cfg, st, ops[0]) && IsRun(cfg, Apply(cfg, st, ops[0]), ops[1..]))
  }

  ghost function Final(cfg: Config, st: State, ops: seq<Op>): State
    requires IsRun(cfg, st, ops)
    decreases |ops|
  {
    if ops == [] then st else Final(cfg, Apply(cfg, st, ops[0]), ops[1..])
  }

  lemma {:induction false} RunKeeps(cfg: Config, st: State, ops: seq<Op>)
    requires Inv(cfg, st) && IsRun(cfg, st, ops)
    ensures Inv(cfg, Final(cfg, st, ops))
    decreases |ops|
  {
    if ops != [] {
      OpKeeps(cfg, st, ops[0]);
      RunKeeps(cfg, Apply(cfg, st, ops[0]), ops[1..]);
    }
  }

  ghost function Fresh(balance: int): State {
    State(Session([], [], None, false, {}), map[], balance, false, map[], {})
  }

  // Over any run of a session, EXECUTE or DEALLOCATE of a recorded name goes to
  // exactly the nodes the statement prepared under that name was last sent to,
  // even when the memory of contexts destroyed in between is used again.  Those
  // are the nodes of its PREPARE or Parse, or, if Bind has sent it again since,
  // the primary; a string of statements, and a write that the classification
  // does not miss, goes to the primary alone in either case.
  lemma {:induction false} PreparedGoesWhereItWasPrepared(cfg: Config, balance: int, ops: seq<Op>,
                                                          stmt: Stmt, multi: bool, f: Facts, q: nat)
    requires IsRun(cfg, Fresh(balance), ops)
    requires PrimaryExists(cfg) && !f.noLoadBalance && Named(stmt) && NameOf(stmt).Some?
    requires var st := Final(cfg, Fresh(balance), ops);
             q !in st.s.live && Recorded(st.s.msgs, NameOf(stmt).value).Some?
    ensures var st := Final(cfg, Fresh(balance), ops);
            var m := Recorded(st.s.msgs, NameOf(stmt).value).value;
            && Linked(st.s.msgs, st.ctx.Keys)
            && m.id in st.made && m.qc.Some? && m.qc.value in st.ctx
            && (var r := RouteIn(cfg, st, q, stmt, multi, f);
                var made := st.made[m.id];
                && r.ok
                && st.ctx[m.qc.value] == Context(made.stmt, made.multi, r.nodes)
                && (m.qc.value !in st.moved ==> r.nodes == made.nodes)
                && (m.qc.value in st.moved ==>
                      || r.nodes == OnlyPrimary(cfg)
                      || (cfg.subMode.Slony? && (Inherits(made.stmt) || Destination(made.stmt) == Both)))
                && (Confined(made.stmt, made.multi) ==> r.nodes == OnlyPrimary(cfg))
                && (MayWrite(made.stmt) && !Missed(Core(made.stmt)) ==> r.nodes == OnlyPrimary(cfg)))
  {
    RunKeeps(cfg, Fresh(balance), ops);
    var st := Final(cfg, Fresh(balance), ops);
    var m := Recorded(st.s.msgs, NameOf(stmt).value).value;
    assert m in st.s.msgs && m.qc.Some?;
    ContextLive(st.s, m);
    assert Faithful(st.ctx, st.made, st.moved, m);
    assert Sound(cfg, st.ctx[m.qc.value]);
    assert m.qc.value in st.moved ==> Resent(cfg, st.ctx[m.qc.value]);
    assert Destination(stmt) == Primary;
    if MayWrite(st.made[m.id].stmt) {
      WritesArePrimaryIff(st.made[m.id].stmt);
    }
  }

  // What Bind's second routing gives without streaming or logical replication.
  lemma {:induction false} RoutedAgain(cfg: Config, st: State, p: nat, g: Facts)
    requires PrimaryExists(cfg) && Inv(cfg, st) && Allowed(cfg, st, Again(p, g)) && !Inherits(st.ctx[p].stmt)
    ensures Apply(cfg, st, Again(p, g)).ctx[p].nodes ==
            if !g.noLoadBalance && !st.ctx[p].multi && Destination(st.ctx[p].stmt) == Both then All(cfg, g, st.balance)
            else OnlyPrimary(cfg)
  {
    assert Sound(cfg, st.ctx[p]);
  }

  const Plain: Stmt := Select(false, false, false, [], [])

  lemma {:induction false} TwoSteps(cfg: Config, st: State, a: Op, b: Op)
    requires Inv(cfg, st) && Allowed(cfg, st, a)
    requires Inv(cfg, Apply(cfg, st, a)) && Allowed(cfg, Apply(cfg, st, a), b)
    ensures IsRun(cfg, st, [a, b]) && Final(cfg, st, [a, b]) == Apply(cfg, Apply(cfg, st, a), b)
  {
    var st1 := Apply(cfg, st, a);
    assert [a, b][1..] == [b] && [b][1..] == [];
    assert IsRun(cfg, Apply(cfg, st1, b), []) && IsRun(cfg, st1, [b]);
    assert Final(cfg, st1, [b]) == Apply(cfg, st1, b);
  }

  const Parsed: SentMessage := SentMessage(1, 'P', "p", Created, Some(7))

  // A session whose one context is that of a plain SELECT sent to a standby.
  ghost predicate OnStandby(st: State, balance: nat, msgs: seq<SentMessage>) {
    && st.s.msgs == msgs && st.s.pending == [] && st.s.live == {7}
    && st.ctx == map[7 := Context(Plain, false, {balance})] && st.balance == balance && !st.writing
  }

  lemma {:induction false} StartsOnStandby(cfg: Config, f: Facts, balance: nat)
    requires PrimaryExists(cfg) && balance < MaxNodes && balance != cfg.primary && !cfg.statementLevel
    requires Truthful(f, Plain) && Balances(cfg, f, false)
    ensures Inv(cfg, Fresh(balance)) && Allowed(cfg, Fresh(balance), Start(7, Plain, false, f))
    ensures OnStandby(Apply(cfg, Fresh(balance), Start(7, Plain, false, f)), balance, [])
  {
    LeavesPrimaryIff(cfg, f, Plain, false, balance, [], map[], 7);
    assert Maps(Fresh(balance).ctx) == map[];
  }

  lemma {:induction false} RecordsParse(cfg: Config, st: State, balance: nat)
    requires Inv(cfg, st) && OnStandby(st, balance, [])
    ensures Allowed(cfg, st, Record(Parsed)) && OnStandby(Apply(cfg, st, Record(Parsed)), balance, [Parsed])
  {
    assert IndexIn(st.s.msgs, 'P', "p", Created) == 0;
    assert Added(st.s, Parsed) == st.s.(msgs := [Parsed]);
  }

  // A Parse of a plain SELECT under the name p, sent to a standby and recorded.
  lemma {:induction false} ParsedOnStandby(cfg: Config, f: Facts, balance: nat) returns (ops: seq<Op>)
    requires PrimaryExists(cfg) && balance < MaxNodes && balance != cfg.primary && !cfg.statementLevel
    requires Truthful(f, Plain) && Balances(cfg, f, false)
    ensures IsRun(cfg, Fresh(balance), ops) && OnStandby(Final(cfg, Fresh(balance), ops), balance, [Parsed])
  {
    var start := Start(7, Plain, false, f);
    StartsOnStandby(cfg, f, balance);
    OpKeeps(cfg, Fresh(balance), start);
    RecordsParse(cfg, Apply(cfg, Fresh(balance), start), balance);
    TwoSteps(cfg, Fresh(balance), start, Record(Parsed));
    ops := [start, Record(Parsed)];
  }

  // "EXECUTE p; ..." then follows p to the standby, whatever comes after the
  // semicolon.
  lemma {:induction false} MultiExecuteStrays(cfg: Config, f: Facts, g: Facts, balance: nat, q: nat) returns (ops: seq<Op>)
    requires PrimaryExists(cfg) && balance < MaxNodes && balance != cfg.primary && !cfg.statementLevel
    requires Truthful(f, Plain) && Balances(cfg, f, false) && !g.noLoadBalance && q != 7
    ensures IsRun(cfg, Fresh(balance), ops)
    ensures var st := Final(cfg, Fresh(balance), ops);
            && Linked(st.s.msgs, st.ctx.Keys)
            && RouteIn(cfg, st, q, Execute("p"), true, g) == Outcome(true, {balance}, balance)
  {
    ops := ParsedOnStandby(cfg, f, balance);
    var st := Final(cfg, Fresh(balance), ops);
    RunKeeps(cfg, Fresh(balance), ops);
    assert Matches(st.s.msgs[0], 'P', "p");
    assert Recorded(st.s.msgs, "p") == Some(st.s.msgs[0]);
  }

  // ----- the write mark over runs -----

  // Operations that may clear the mark under this setting.
  predicate Clears(cfg: Config, op: Op) {
    && !cfg.onWrite.Always?
    && (op.InternalBegin?
        || (op.Succeeded? && !cfg.onWrite.TransTransaction? && op.done.Transaction?
            && (op.done.trans.Begin? || op.done.trans.StartTransaction? || op.done.trans.Commit? || op.done.trans.Rollback?)))
  }

  lemma {:induction false} MarkPersists(cfg: Config, st: State, ops: seq<Op>)
    requires Inv(cfg, st) && IsRun(cfg, st, ops) && st.writing
    requires forall i | 0 <= i < |ops| :: !Clears(cfg, ops[i])
    ensures Final(cfg, st, ops).writing
    decreases |ops|
  {
    if ops != [] {
      OpKeeps(cfg, st, ops[0]);
      MarkPersists(cfg, Apply(cfg, st, ops[0]), ops[1..]);
    }
  }

  // After a write in an explicit transaction, and as long as nothing clears the
  // mark, a SELECT issued while the primary is inside a transaction goes to the
  // primary alone.
  lemma {:induction false} ReadAfterWrite(cfg: Config, st: State, write: Op, ops: seq<Op>, stmt: Stmt, multi: bool, f: Facts, q: nat)
    requires Inv(cfg, st) && write.Succeeded? && IsRun(cfg, st, [write] + ops)
    requires PrimaryExists(cfg) && !cfg.onWrite.Off?
    requires !write.done.Transaction? && !SetsSerializable(write.done) && !write.h.readOnlySet
    requires (!write.h.isSelect || write.h.functionCall) && (write.h.tstate == 'T' || cfg.onWrite.Always?)
    requires forall i | 0 <= i < |ops| :: !Clears(cfg, ops[i])
    requires (stmt.Select? && f.tstate != 'I')
             || (cfg.onWrite.Always? && !Inherits(stmt) && Destination(stmt) == Either)
    ensures var end := Final(cfg, st, [write] + ops);
            && Linked(end.s.msgs, end.ctx.Keys) && Named(stmt)
            && RouteIn(cfg, end, q, stmt, multi, f) == Outcome(true, OnlyPrimary(cfg), end.balance)
  {
    var all := [write] + ops;
    assert all[0] == write && all[1..] == ops;
    OpKeeps(cfg, st, write);
    MarkPersists(cfg, Apply(cfg, st, write), ops);
    RunKeeps(cfg, st, all);
    var end := Final(cfg, st, all);
    MarkedStaysOnPrimary(cfg, f, stmt, multi, end.balance, end.s.msgs, Maps(end.ctx), q);
  }
}
