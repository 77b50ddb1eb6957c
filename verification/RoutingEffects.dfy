/** Where statements go in each mode, node by node, and when the write mark is set
    and cleared. */
module RoutingEffects {
  import opened Options
  import opened Strings
  import opened SentMessages
  import opened Statements
  import opened QueryRouting

  // ----- replication mode -----

  ghost predicate Replicates(cfg: Config, f: Facts) {
    cfg.replication && !cfg.masterSlave && !f.noLoadBalance
  }

  // Whatever is not a plain read goes to every live configured node, so that the
  // replicas do not diverge.
  lemma {:induction false} ReplicationWritesEverywhere(cfg: Config, f: Facts, stmt: Stmt, multi: bool, writing: bool, balance: int,
                                      ms: seq<SentMessage>, maps: map<nat, set<nat>>, q: nat)
    requires Replicates(cfg, f) && Linked(ms, maps.Keys) && Named(stmt) && !Inherits(stmt)
    requires !f.isSelect || f.functionCall || cfg.replicateSelect
    ensures var o := Route(cfg, f, stmt, multi, writing, balance, ms, maps, q);
            && o.ok && o.balance == balance
            && forall i: nat :: i in o.nodes <==> i < cfg.numBackends && i in f.live
  {
    InAllElsewhere(cfg, f, balance);
  }

  lemma InAllElsewhere(cfg: Config, f: Facts, balance: int)
    requires !cfg.masterSlave
    ensures forall i: nat :: i in All(cfg, f, balance) <==> i < cfg.numBackends && i in f.live
  {
    forall i: nat
      ensures i in All(cfg, f, balance) <==> i < cfg.numBackends && i in f.live
    {
      assert InAll(cfg, f, balance, i) <==> i < cfg.numBackends && i in f.live;
    }
  }

  // A plain read goes to one node: the load balance node if balancing is on and
  // the transaction allows it, the master otherwise.
  lemma {:induction false} ReplicationReadsOnce(cfg: Config, f: Facts, stmt: Stmt, multi: bool, writing: bool, balance: int,
                               ms: seq<SentMessage>, maps: map<nat, set<nat>>, q: nat)
    requires Replicates(cfg, f) && Linked(ms, maps.Keys) && Named(stmt) && !Inherits(stmt)
    requires f.isSelect && !f.functionCall && !cfg.replicateSelect
    requires 0 <= cfg.master < MaxNodes
    requires var b := if cfg.statementLevel then f.chosen else balance; 0 <= b < MaxNodes
    ensures var b := if cfg.statementLevel then f.chosen else balance;
            var free := f.masterTstate == 'I' || (!writing && !f.failed && !f.serializable);
            Route(cfg, f, stmt, multi, writing, balance, ms, maps, q)
            == if cfg.loadBalance && f.protocol3 && free then Outcome(true, {b as nat}, b)
               else Outcome(true, {cfg.master as nat}, balance)
  {
  }

  // ----- raw mode and the comment -----

  lemma RawGoesToMaster(cfg: Config, f: Facts, stmt: Stmt, multi: bool, writing: bool, balance: int,
                        ms: seq<SentMessage>, maps: map<nat, set<nat>>, q: nat)
    requires !cfg.replication && !cfg.masterSlave && Linked(ms, maps.Keys) && Named(stmt) && !Inherits(stmt)
    requires 0 <= cfg.master < MaxNodes
    ensures Route(cfg, f, stmt, multi, writing, balance, ms, maps, q) == Outcome(true, {cfg.master as nat}, balance)
  {
  }

  // The NO LOAD BALANCE comment overrides everything, EXECUTE included; a node id
  // out of range leaves nothing chosen.
  lemma CommentDecides(cfg: Config, f: Facts, stmt: Stmt, multi: bool, writing: bool, balance: int,
                       ms: seq<SentMessage>, maps: map<nat, set<nat>>, q: nat)
    requires f.noLoadBalance && Linked(ms, maps.Keys) && Named(stmt)
    ensures var n := if cfg.masterSlave then cfg.primary else cfg.master;
            Route(cfg, f, stmt, multi, writing, balance, ms, maps, q)
            == if 0 <= n < 128 then Outcome(true, {n as nat}, balance) else Outcome(false, {}, balance)
  {
  }

  // ----- statements for all nodes of a session -----

  // Statements that set the state of a session on every node it uses:
  // transaction control short of two-phase commit, locks that readers take,
  // DISCARD, and SET except to a state only the primary can be in.
  predicate SetsUpSession(stmt: Stmt) {
    match stmt
    case Transaction(t) => t in {Begin, StartTransaction, Commit, Rollback, Savepoint, Release, RollbackTo}
    case Lock(mode) => mode < 3
    case VariableSet(_, _, _, _) => !SetsReadWrite(stmt) && !SetsSerializable(stmt)
    case Discard => true
    case _ => false
  }

  // The nodes a session uses: in streaming and logical mode, unless each
  // statement is balanced anew, only its primary and its load balance node.
  predicate UsedBySession(cfg: Config, f: Facts, balance: int, i: nat) {
    && i < cfg.numBackends && i in f.live
    && (cfg.subMode.Slony? || cfg.statementLevel || i == cfg.primary || i == balance)
  }

  lemma {:induction false} BothIffSessionState(stmt: Stmt)
    ensures Destination(stmt) == Both <==> SetsUpSession(Core(stmt))
  {
    if stmt.Prepare? {
      BothIffSessionState(stmt.body);
    }
  }

  lemma {:induction false} SessionStateEverywhere(cfg: Config, f: Facts, stmt: Stmt, writing: bool, balance: int,
                                 ms: seq<SentMessage>, maps: map<nat, set<nat>>, q: nat)
    requires cfg.masterSlave && !f.noLoadBalance && Linked(ms, maps.Keys) && SetsUpSession(stmt)
    ensures var o := Route(cfg, f, stmt, false, writing, balance, ms, maps, q);
            && o.ok && o.balance == balance
            && forall i: nat :: i in o.nodes <==> UsedBySession(cfg, f, balance, i)
  {
    BothIffSessionState(stmt);
    AllIsUsed(cfg, f, balance);
  }

  lemma AllIsUsed(cfg: Config, f: Facts, balance: int)
    requires cfg.masterSlave
    ensures forall i: nat :: i in All(cfg, f, balance) <==> UsedBySession(cfg, f, balance, i)
  {
    forall i: nat
      ensures i in All(cfg, f, balance) <==> UsedBySession(cfg, f, balance, i)
    {
      assert InAll(cfg, f, balance, i) <==> UsedBySession(cfg, f, balance, i);
    }
  }

  // DEALLOCATE ALL, or of a name nobody recorded, goes to the primary and to
  // every node the session uses.
  lemma {:induction false} DeallocateUnknown(cfg: Config, f: Facts, name: Option<string>, multi: bool, writing: bool, balance: int,
                            ms: seq<SentMessage>, maps: map<nat, set<nat>>, q: nat)
    requires PrimaryExists(cfg) && !f.noLoadBalance && Linked(ms, maps.Keys)
    requires name.Some? ==> name.value != "" && Recorded(ms, name.value).None?
    ensures var o := Route(cfg, f, Deallocate(name), multi, writing, balance, ms, maps, q);
            && o.ok && o.balance == balance
            && forall i: nat :: i in o.nodes <==> i == cfg.primary || UsedBySession(cfg, f, balance, i)
  {
    AllIsUsed(cfg, f, balance);
  }

  function LowerCased(s: string): (r: string)
    ensures |r| == |s|
  {
    seq(|s|, i requires 0 <= i < |s| => Lower(s[i]))
  }

  lemma LowerCasedSame(s: string, t: string)
    requires LowerCased(t) == t
    ensures SameIgnoringCase(s, t) <==> LowerCased(s) == t
  {
    if LowerCased(s) == t {
      forall i | 0 <= i < |s|
        ensures Lower(s[i]) == Lower(t[i])
      {
        assert Lower(s[i]) == LowerCased(s)[i] && Lower(t[i]) == LowerCased(t)[i];
      }
    }
  }

  // COPY to a file on the server is not taken for a query and stays on the
  // primary; to the client it may be balanced.
  lemma {:induction false} CopyToFileStays(cfg: Config, f: Facts, toFile: bool, writing: bool, balance: int,
                          ms: seq<SentMessage>, maps: map<nat, set<nat>>, q: nat)
    requires PrimaryExists(cfg) && Linked(ms, maps.Keys) && Truthful(f, Copy(false, toFile, None)) && !cfg.statementLevel
    requires 0 <= balance < MaxNodes && balance != cfg.primary
    requires !f.noLoadBalance && cfg.loadBalance && f.protocol3 && f.tstate == 'I' && !f.blacklisted && cfg.delayThreshold == 0
    requires !(writing && cfg.onWrite == Always)
    ensures Route(cfg, f, Copy(false, toFile, None), false, writing, balance, ms, maps, q).nodes
            == if toFile then {cfg.primary as nat} else {balance as nat}
  {
    LeavesPrimaryIff(cfg, f, Copy(false, toFile, None), writing, balance, ms, maps, q);
  }

  // SET transaction_read_only: exactly the three words for off, in any case, and
  // any number but 0 count as a change only the primary can carry out.
  lemma {:induction false} ReadWriteSpellings(s: string, n: int)
    ensures Destination(VariableSet(SetValue, "transaction_read_only", [Str(s)], []))
            == if LowerCased(s) in {"off", "f", "false"} then Primary else Both
    ensures Destination(VariableSet(SetValue, "transaction_read_only", [Num(n)], [])) == if n != 0 then Primary else Both
    ensures Destination(VariableSet(SetMulti, "TRANSACTION", [], [DefElem("transaction_read_only", Num(n))]))
            == if n == 0 then Primary else Both
  {
    LowerCasedSame(s, "off");
    LowerCasedSame(s, "f");
    LowerCasedSame(s, "false");
    assert TurnsReadOnlyOff([Str(s)][0]) <==> LowerCased(s) in {"off", "f", "false"};
    assert TurnsReadOnlyOff([Num(n)][0]) <==> n != 0;
    assert [DefElem("transaction_read_only", Num(n))][0].name == "transaction_read_only";
  }

  lemma SerializableSpellings()
    ensures forall v | v in {"transaction_isolation", "default_transaction_isolation"} ::
              Destination(VariableSet(SetValue, v, [Str("SERIALIZABLE")], [])) == Primary
    ensures Destination(VariableSet(SetMulti, "SESSION CHARACTERISTICS", [], [DefElem("transaction_isolation", Str("serializable"))])) == Primary
    ensures Destination(VariableSet(SetValue, "transaction_isolation", [Str("read committed")], [])) == Both
  {
    assert IsSerializable([Str("SERIALIZABLE")][0]);
    assert IsSerializable([DefElem("transaction_isolation", Str("serializable"))][0].arg);
  }

  // ----- the write mark -----

  predicate EndsOrStarts(stmt: Stmt) {
    stmt in {Transaction(Begin), Transaction(StartTransaction), Transaction(Commit), Transaction(Rollback)}
  }

  // After a command the mark is set exactly if it was set and the command is no
  // transaction boundary that clears it, or if the command counts as a write.
  lemma {:induction false} MarkedIff(cfg: Config, f: Facts, stmt: Stmt, writing: bool)
    ensures Marked(cfg, f, stmt, writing) <==>
            if EndsOrStarts(stmt) then writing && (cfg.onWrite == TransTransaction || cfg.onWrite == Always)
            else || writing
                 || (&& cfg.onWrite != Off && (!f.isSelect || f.functionCall) && !f.readOnlySet
                     && (f.tstate == 'T' || cfg.onWrite == Always)
                     && !SetsSerializable(stmt)
                     && stmt !in {Transaction(PrepareTransaction), Transaction(CommitPrepared), Transaction(RollbackPrepared)})
  {
  }

  // With the usual setting a COMMIT or ROLLBACK lets reads be balanced again: the
  // next plain SELECT outside a transaction goes to the load balance node.
  lemma {:induction false} BalancedAfterCommit(cfg: Config, st: State, end: QueryRouting.Op, stmt: Stmt, f: Facts, q: nat)
    requires Inv(cfg, st) && PrimaryExists(cfg) && cfg.onWrite == InTransaction && !cfg.statementLevel
    requires end.Succeeded? && EndsOrStarts(end.done)
    requires stmt == Plain && Truthful(f, stmt) && Balances(cfg, f, false)
    requires 0 <= st.balance < MaxNodes && st.balance != cfg.primary
    ensures var st' := QueryRouting.Apply(cfg, st, end);
            && !st'.writing && Linked(st'.s.msgs, st'.ctx.Keys)
            && RouteIn(cfg, st', q, stmt, false, f) == Outcome(true, {st.balance as nat}, st.balance)
  {
    var st' := QueryRouting.Apply(cfg, st, end);
    LeavesPrimaryIff(cfg, f, stmt, false, st.balance, st'.s.msgs, Maps(st'.ctx), q);
  }

  // An internal transaction clears the mark too, except under Always.
  lemma InternalBeginClears(cfg: Config, st: State)
    requires Inv(cfg, st)
    ensures QueryRouting.Apply(cfg, st, InternalBegin).writing <==> st.writing && cfg.onWrite == Always
  {
  }
}
