/** Query contexts as pgpool-II keeps them: a fixed boolean map of nodes that
    routing clears and fills in place, proved against QueryRouting. */
module QueryContexts {
  import opened Options
  import opened SentMessages
  import opened Statements
  import opened QueryRouting

  // The part of the session that routing reads and updates.
  class RoutingSession {
    var balance: int                         // load balance node
    var writing: bool
    var sent: seq<SentMessage>
    var contexts: map<nat, QueryContext>

    constructor (balance: int)
      ensures this.balance == balance && !writing && sent == [] && contexts == map[]
    {
      this.balance, writing, sent, contexts := balance, false, [], map[];
    }

    method UnsetWritingTransaction(cfg: Config)
      modifies this`writing
      ensures writing == Unmarked(cfg, old(writing))
    {
      if !cfg.onWrite.Always? {
        writing := false;
      }
    }

    method SetWritingTransaction(cfg: Config)
      modifies this`writing
      ensures writing == (old(writing) || !cfg.onWrite.Off?)
    {
      if !cfg.onWrite.Off? {
        writing := true;
      }
    }

    // What a successful command does to the mark.
    method AtCommandSuccess(cfg: Config, f: Facts, stmt: Stmt)
      modifies this`writing
      ensures writing == Marked(cfg, f, stmt, old(writing))
    {
      if stmt.Transaction? && (stmt.trans.Begin? || stmt.trans.StartTransaction?) {
        if !cfg.onWrite.TransTransaction? {
          UnsetWritingTransaction(cfg);
        }
      } else if stmt.Transaction? && (stmt.trans.Commit? || stmt.trans.Rollback?) {
        if !cfg.onWrite.TransTransaction? {
          UnsetWritingTransaction(cfg);
        }
      } else if SetsSerializable(stmt) {
      } else if stmt.Transaction? && TwoPhase(stmt.trans) {
      } else if !f.isSelect || f.functionCall {
        if f.tstate == 'T' || cfg.onWrite.Always? {
          if !f.readOnlySet {
            SetWritingTransaction(cfg);
          }
        }
      }
    }
  }

  class QueryContext {
    const whereToSend: array<bool>
    var virtualMaster: int
    var multi: bool

    constructor (master: int)
      ensures whereToSend.Length == MaxNodes && fresh(whereToSend)
      ensures Nodes() == {} && virtualMaster == master && !multi
    {
      whereToSend := new bool[MaxNodes](_ => false);
      virtualMaster, multi := master, false;
    }

    ghost function Nodes(): set<nat>
      reads whereToSend
    {
      set i: nat | i < whereToSend.Length && whereToSend[i]
    }

    method SetNode(n: int) returns (ok: bool)
      requires whereToSend.Length == MaxNodes
      modifies whereToSend
      ensures ok <==> 0 <= n < MaxNodes
      ensures Nodes() == if ok then old(Nodes()) + {n as nat} else old(Nodes())
    {
      ok := 0 <= n < MaxNodes;
      if ok {
        whereToSend[n] := true;
      }
    }

    method Clear()
      modifies whereToSend
      ensures Nodes() == {}
    {
      for i := 0 to whereToSend.Length
        invariant forall k | 0 <= k < i :: !whereToSend[k]
      {
        whereToSend[i] := false;
      }
    }

    method SetAll(cfg: Config, f: Facts, balance: int)
      requires whereToSend.Length == MaxNodes && cfg.numBackends <= MaxNodes
      modifies whereToSend
      ensures Nodes() == old(Nodes()) + All(cfg, f, balance)
    {
      for i := 0 to cfg.numBackends
        invariant forall k | 0 <= k < MaxNodes ::
                    whereToSend[k] <==> old(whereToSend[k]) || (k < i && InAll(cfg, f, balance, k))
      {
        if i in f.live {
          if cfg.masterSlave && !cfg.subMode.Slony? && !cfg.statementLevel && i != cfg.primary && i != balance {
            continue;
          }
          whereToSend[i] := true;
        }
      }
    }

    // pool_copy_prep_where; the source may be this very map
    method CopyFrom(src: array<bool>)
      requires whereToSend.Length == MaxNodes == src.Length
      modifies whereToSend
      ensures whereToSend[..] == old(src[..])
    {
      for i := 0 to MaxNodes
        invariant forall k | 0 <= k < i :: whereToSend[k] == old(src[k])
        invariant forall k | i <= k < MaxNodes :: src[k] == old(src[k])
      {
        whereToSend[i] := src[i];
      }
    }

    // The first chosen node becomes the virtual master.
    method ElectVirtualMaster(cfg: Config)
      requires whereToSend.Length == MaxNodes && cfg.numBackends <= MaxNodes
      modifies this`virtualMaster
      ensures forall i: nat | i in Nodes() && i < cfg.numBackends ::
                0 <= virtualMaster <= i && virtualMaster as nat in Nodes()
      ensures (forall i: nat | i in Nodes() :: i >= cfg.numBackends) ==> virtualMaster == old(virtualMaster)
    {
      var i := 0;
      while i < cfg.numBackends
        invariant 0 <= i <= cfg.numBackends && virtualMaster == old(virtualMaster)
        invariant forall k | 0 <= k < i :: !whereToSend[k]
      {
        if whereToSend[i] {
          virtualMaster := i;
          assert i in Nodes();
          return;
        }
        i := i + 1;
      }
    }

    method Balance(cfg: Config, f: Facts, sc: RoutingSession) returns (ok: bool)
      requires whereToSend.Length == MaxNodes && Nodes() == {}
      modifies whereToSend, sc`balance
      ensures Outcome(ok, Nodes(), sc.balance) == Balanced(cfg, f, old(sc.balance))
    {
      if cfg.statementLevel {
        sc.balance := f.chosen;
      }
      ok := SetNode(sc.balance);
    }

    method DecideMasterSlave(cfg: Config, f: Facts, stmt: Stmt, sc: RoutingSession) returns (ok: bool)
      requires whereToSend.Length == MaxNodes && cfg.numBackends <= MaxNodes && Nodes() == {}
      modifies whereToSend, sc`balance
      ensures Outcome(ok, Nodes(), sc.balance) == ByMasterSlave(cfg, f, stmt, sc.writing, old(sc.balance))
    {
      var dest := Destination(stmt);
      if dest == Primary {
        ok := SetNode(cfg.primary);
      } else if dest == Both {
        SetAll(cfg, f, sc.balance);
        ok := true;
      } else if sc.writing && cfg.onWrite.Always? {
        ok := SetNode(cfg.primary);
      } else if cfg.loadBalance && f.isSelect && f.protocol3 {
        if f.tstate == 'I' || (!sc.writing && !f.failed && !f.serializable) {
          if PrefersPrimary(cfg, f) {
            ok := SetNode(cfg.primary);
          } else {
            ok := Balance(cfg, f, sc);
          }
        } else {
          ok := SetNode(cfg.primary);
        }
      } else {
        ok := SetNode(cfg.primary);
      }
    }

    method DecideReplication(cfg: Config, f: Facts, sc: RoutingSession) returns (ok: bool)
      requires whereToSend.Length == MaxNodes && cfg.numBackends <= MaxNodes && Nodes() == {}
      modifies whereToSend, sc`balance
      ensures Outcome(ok, Nodes(), sc.balance) == ByReplication(cfg, f, sc.writing, old(sc.balance))
    {
      if cfg.loadBalance && f.isSelect && f.protocol3 {
        if f.functionCall || cfg.replicateSelect {
          SetAll(cfg, f, sc.balance);
          ok := true;
        } else if f.masterTstate == 'I' || (!sc.writing && !f.failed && !f.serializable) {
          ok := Balance(cfg, f, sc);
        } else {
          ok := SetNode(cfg.master);
        }
      } else if f.isSelect && !cfg.replicateSelect && !f.functionCall {
        ok := SetNode(cfg.master);
      } else {
        SetAll(cfg, f, sc.balance);
        ok := true;
      }
    }

    method Decide(cfg: Config, f: Facts, stmt: Stmt, sc: RoutingSession) returns (ok: bool)
      requires whereToSend.Length == MaxNodes && cfg.numBackends <= MaxNodes && Nodes() == {}
      modifies whereToSend, sc`balance
      ensures Outcome(ok, Nodes(), sc.balance) == Tentative(cfg, f, stmt, multi, sc.writing, old(sc.balance))
    {
      if !cfg.replication && !cfg.masterSlave {
        ok := SetNode(cfg.master);
      } else if cfg.masterSlave && multi {
        ok := SetNode(cfg.primary);
      } else if cfg.masterSlave {
        ok := DecideMasterSlave(cfg, f, stmt, sc);
      } else {
        ok := DecideReplication(cfg, f, sc);
      }
    }

    // This context is number q of the session, and no other shares its map.
    ghost predicate Registered(sc: RoutingSession, q: nat)
      reads sc
    {
      && q in sc.contexts && sc.contexts[q] == this
      && (forall p | p in sc.contexts :: sc.contexts[p].whereToSend.Length == MaxNodes)
      && (forall p | p in sc.contexts && p != q :: sc.contexts[p].whereToSend != whereToSend)
    }

    // Copies the map of a recorded name, if there is one.
    method Inherit(sc: RoutingSession, name: string, q: nat) returns (found: bool)
      requires Registered(sc, q) && Linked(sc.sent, sc.contexts.Keys) && name != ""
      modifies whereToSend
      ensures found <==> Recorded(sc.sent, name).Some?
      ensures found ==> Nodes() == old(sc.contexts[Recorded(sc.sent, name).value.qc.value].Nodes())
      ensures !found ==> Nodes() == old(Nodes())
    {
      var i := IndexIn(sc.sent, 'Q', name, Created);
      if i == |sc.sent| {
        i := IndexIn(sc.sent, 'P', name, Created);
      }
      found := i < |sc.sent|;
      if found {
        var m := sc.sent[i];
        assert m in sc.sent;
        var src := sc.contexts[m.qc.value].whereToSend;
        CopyFrom(src);
        assert forall k | 0 <= k < MaxNodes :: whereToSend[k] == whereToSend[..][k];
        assert forall k | 0 <= k < MaxNodes :: old(src[k]) == old(src[..])[k];
      }
    }

    // EXECUTE and DEALLOCATE, once a tentative map is in place.
    method FinishMap(cfg: Config, f: Facts, stmt: Stmt, sc: RoutingSession, q: nat, ghost maps: map<nat, set<nat>>)
      requires Registered(sc, q) && cfg.numBackends <= MaxNodes
      requires Linked(sc.sent, sc.contexts.Keys) && Named(stmt)
      requires maps.Keys == sc.contexts.Keys && forall p | p in maps :: maps[p] == sc.contexts[p].Nodes()
      modifies whereToSend
      ensures var h := Handed(sc.sent, maps, stmt);
              Nodes() == if h.Some? then h.value
                         else if stmt.Deallocate? then old(Nodes()) + All(cfg, f, sc.balance)
                         else old(Nodes())
    {
      if stmt.Execute? {
        var found := Inherit(sc, stmt.name, q);
      } else if stmt.Deallocate? {
        if stmt.which.None? {
          SetAll(cfg, f, sc.balance);
        } else {
          var found := Inherit(sc, stmt.which.value, q);
          if !found {
            SetAll(cfg, f, sc.balance);
          }
        }
      }
    }

    // The map, before the virtual master is elected.
    method FillMap(cfg: Config, f: Facts, stmt: Stmt, sc: RoutingSession, q: nat, ghost maps: map<nat, set<nat>>)
      returns (ok: bool)
      requires Registered(sc, q) && cfg.numBackends <= MaxNodes
      requires Linked(sc.sent, sc.contexts.Keys) && Named(stmt)
      requires maps.Keys == sc.contexts.Keys && forall p | p in maps :: maps[p] == sc.contexts[p].Nodes()
      modifies whereToSend, sc`balance
      ensures Outcome(ok, Nodes(), sc.balance)
              == Route(cfg, f, stmt, multi, sc.writing, old(sc.balance), sc.sent, maps, q)
    {
      Clear();
      if f.noLoadBalance {
        ok := SetNode(if cfg.masterSlave then cfg.primary else cfg.master);
        return;
      }
      ok := Decide(cfg, f, stmt, sc);
      if !ok {
        return;
      }
      ghost var now := maps[q := Nodes()];
      forall p | p in now
        ensures now[p] == sc.contexts[p].Nodes()
      {
      }
      FinishMap(cfg, f, stmt, sc, q, now);
    }

    // pool_where_to_send
    method WhereToSend(cfg: Config, f: Facts, stmt: Stmt, sc: RoutingSession, q: nat, ghost maps: map<nat, set<nat>>)
      returns (ok: bool)
      requires Registered(sc, q) && cfg.numBackends <= MaxNodes
      requires Linked(sc.sent, sc.contexts.Keys) && Named(stmt)
      requires maps.Keys == sc.contexts.Keys && forall p | p in maps :: maps[p] == sc.contexts[p].Nodes()
      modifies this`virtualMaster, whereToSend, sc`balance
      ensures Outcome(ok, Nodes(), sc.balance)
              == Route(cfg, f, stmt, multi, sc.writing, old(sc.balance), sc.sent, maps, q)
      ensures ok ==> forall i: nat | i in Nodes() && i < cfg.numBackends ::
                       0 <= virtualMaster <= i && virtualMaster as nat in Nodes()
    {
      ok := FillMap(cfg, f, stmt, sc, q, maps);
      if ok {
        ElectVirtualMaster(cfg);
      }
    }
  }
}
