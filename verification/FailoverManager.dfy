/** The failover routine as the main process runs it: backend records updated in
    place, one request after another until the shared queue is empty.  Every
    method is proved against the transition functions of Failover. */
module FailoverManager {
  import opened RequestRing
  import opened Failover

  class Manager {
    const cfg: Config
    const info: array<Backend>
    var primary: int
    var master: int

    ghost predicate Valid()
      reads this
    {
      cfg.Valid() && info.Length == MAX_NUM_BACKENDS && primary < MAX_NUM_BACKENDS
    }

    ghost function Value(): (c: Cluster)
      reads this, info
      requires Valid()
      ensures c.Valid()
    {
      Cluster(info[..], primary, master)
    }

    constructor (cfg: Config, backends: seq<Backend>)
      requires cfg.Valid() && |backends| == MAX_NUM_BACKENDS
      ensures Valid() && fresh(info) && this.cfg == cfg
      ensures Value() == Cluster(backends, -2, NextMaster(cfg, backends))
    {
      this.cfg := cfg;
      info := new Backend[MAX_NUM_BACKENDS](i requires 0 <= i < MAX_NUM_BACKENDS => backends[i]);
      primary, master := -2, NextMaster(cfg, backends);
      new;
      assert info[..] == backends;
    }

    method GetNextMasterNode() returns (i: int)
      requires Valid()
      ensures i == NextMaster(cfg, info[..])
    {
      i := 0;
      while i < cfg.numBackends
        invariant 0 <= i <= cfg.numBackends
        invariant NextMaster(cfg, info[..]) == NextMasterFrom(info[..], cfg.numBackends, i)
      {
        if info[i].Live() {
          return;
        }
        i := i + 1;
      }
      i := -1;
    }

    method CheckAllBackendDown() returns (down: bool)
      requires Valid()
      ensures down <==> forall i | 0 <= i < cfg.numBackends :: info[i].status.Down? || info[i].status.Unused?
    {
      for i := 0 to cfg.numBackends
        invariant forall j | 0 <= j < i :: info[j].status.Down? || info[j].status.Unused?
      {
        if !info[i].status.Down? && !info[i].status.Unused? {
          return false;
        }
      }
      return true;
    }

    method Failback(r: Request, ghost w: Work) returns (skipped: bool, searchPrimary: bool)
      requires Valid() && r.kind.NodeUp? && WellFormed(r) && w.Valid() && w.c == Value()
      modifies this, info
      ensures Valid()
      ensures if skipped then BeginUp(cfg, w, r).Skipped? && Value() == old(Value())
              else BeginUp(cfg, w, r) == Begun(w.(c := Value()), searchPrimary)
    {
      var id := r.nodes[0];
      if id < 0 || id >= MAX_NUM_BACKENDS ||
         (!(cfg.mode.Raw? && info[id].status.Down?) && (if cfg.mode.Raw? then id == master else info[id].Live())) {
        return true, true;
      }
      skipped, searchPrimary := false, true;
      info[id] := info[id].(status := ConnectWait);
      if r.details & REQ_DETAIL_UPDATE != 0 {
        info[id] := info[id].(quarantine := false);
        searchPrimary := false;
        master := GetNextMasterNode();
        if primary == -1 && info[id].role.RolePrimary? {
          primary := id;
        }
      }
    }

    method TakeNodeDown(id: nat, kind: Kind, downed: array<bool>, search: bool, ghost b: Begun) returns (searchPrimary: bool)
      requires Valid() && id < MAX_NUM_BACKENDS && b.Begun? && b.w.Valid()
      requires b == Begun(b.w.(c := Value(), downed := downed[..]), search)
      modifies this`primary, info, downed
      ensures Valid()
      ensures Begun(b.w.(c := Value(), downed := downed[..]), searchPrimary) == TakeDown(b, kind, id)
    {
      searchPrimary := search;
      info[id] := info[id].(status := Down);
      if kind.NodeQuarantine? {
        info[id] := info[id].(quarantine := true);
      } else {
        if primary == -1 && info[id].quarantine && info[id].role.RolePrimary? {
          primary := id;
          searchPrimary := false;
        }
        info[id] := info[id].(quarantine := false);
      }
      downed[id] := true;
    }

    method TakeNodesDown(r: Request, downed: array<bool>, ghost w: Work) returns (cnt: nat, searchPrimary: bool)
      requires Valid() && WellFormed(r) && (r.kind.NodeDown? || r.kind.NodeQuarantine?)
      requires w.Valid() && w.c == Value() && w.downed == downed[..]
      modifies this`primary, info, downed
      ensures Valid()
      ensures TakeDownAll(cfg, Begun(w, true), r.kind, r.nodes)
           == (Begun(w.(c := Value(), downed := downed[..]), searchPrimary), cnt)
    {
      cnt, searchPrimary := 0, true;
      for i := 0 to |r.nodes|
        invariant Valid() && downed.Length == MAX_NUM_BACKENDS
        invariant TakeDownAll(cfg, Begun(w, true), r.kind, r.nodes[..i])
               == (Begun(w.(c := Value(), downed := downed[..]), searchPrimary), cnt)
      {
        ghost var b := Begun(w.(c := Value(), downed := downed[..]), searchPrimary);
        var id := r.nodes[i];
        assert r.nodes[..i + 1][..i] == r.nodes[..i];
        if id != -1 && (info[id].quarantine || (cfg.mode.Raw? && info[id].Live()) ||
                        (if cfg.mode.Raw? then id == master else info[id].Live())) {
          searchPrimary := TakeNodeDown(id, r.kind, downed, searchPrimary, b);
          cnt := cnt + 1;
        }
      }
      assert r.nodes[..|r.nodes|] == r.nodes;
    }

    // Follow degeneration: every configured node but the new primary.
    method DegenerateFollowers(keep: int) returns (followed: nat)
      requires Valid() && 0 <= keep
      modifies info
      ensures info[..] == AllDownBut(old(info[..]), cfg.numBackends, keep)
      ensures followed == if keep < cfg.numBackends then cfg.numBackends - 1 else cfg.numBackends
    {
      followed := 0;
      for i := 0 to cfg.numBackends
        invariant followed == if keep < i then i - 1 else i
        invariant forall j | 0 <= j < info.Length ::
                    info[j] == if j < i && j != keep then old(info[j]).(status := Down) else old(info[j])
      {
        if i != keep {
          info[i] := info[i].(status := Down);
          followed := followed + 1;
        }
      }
    }

    method SelectPrimary(r: Request, searchPrimary: bool, previous: int, finder: seq<Backend> -> int, ghost b: Begun)
        returns (newPrimary: int)
      requires Valid() && Names(r) && Finds(cfg, finder) && previous < MAX_NUM_BACKENDS
      requires b.Begun? && b.w.Valid() && b.w.c == Value() && b.w.newPrimary == previous && b.searchPrimary == searchPrimary
      modifies info
      ensures ChoosePrimary(cfg, b, r, finder) == b.w.(c := Value(), newPrimary := newPrimary)
    {
      var id := r.nodes[0];
      newPrimary := previous;
      if r.kind.PromoteNode? && (if cfg.mode.Raw? then id == master else info[id].Live()) {
        newPrimary := id;
      } else if r.kind.NodeQuarantine? {
        if primary == id {
          info[id] := info[id].(role := RolePrimary);
          newPrimary := -1;
        } else if cfg.SlMode() {
          newPrimary := primary;
        }
      } else if cfg.SlMode() && r.kind.NodeDown? {
        if primary != id {
          newPrimary := primary;
        } else {
          info[primary] := info[primary].(role := RoleStandby);
          newPrimary := finder(info[..]);
        }
      } else if !searchPrimary {
        newPrimary := primary;
      } else {
        newPrimary := finder(info[..]);
      }
    }

    method FollowNewPrimary(r: Request, downed: array<bool>, newPrimary: int, newMaster: int, ghost w: Work)
        returns (newMaster': int)
      requires Valid() && Names(r) && downed.Length == MAX_NUM_BACKENDS && newPrimary < MAX_NUM_BACKENDS
      requires w == Work(Value(), downed[..], newPrimary)
      modifies info
      ensures Follow(cfg, w, r, newMaster) == (w.(c := Value()), newMaster')
    {
      newMaster' := newMaster;
      if && cfg.mode.Streaming? && (cfg.followMaster || r.kind.PromoteNode?)
         && (|| (r.kind.NodeDown? && primary >= 0 && downed[primary])
             || (r.kind.PromoteNode? && info[r.nodes[0]].Live()))
         && newPrimary >= 0
      {
        var followed := DegenerateFollowers(newPrimary);
        if followed > 0 {
          newMaster' := GetNextMasterNode();
        }
      }
    }

    method Publish(newPrimary: int, newMaster: int, ghost w: Work)
      requires Valid() && w.Valid() && w.c == Value() && w.newPrimary == newPrimary < MAX_NUM_BACKENDS
      modifies this, info
      ensures Valid() && Finish(w, newMaster) == w.(c := Value())
    {
      if primary != newPrimary && newPrimary >= 0 {
        info[newPrimary] := info[newPrimary].(role := RolePrimary);
      }
      primary := newPrimary;
      if newMaster >= 0 {
        master := newMaster;
      }
    }

    method CompleteRequest(r: Request, downed: array<bool>, searchPrimary: bool, previous: int,
                           finder: seq<Backend> -> int, ghost b: Begun) returns (newPrimary: int)
      requires Valid() && Names(r) && Finds(cfg, finder) && previous < MAX_NUM_BACKENDS && downed.Length == MAX_NUM_BACKENDS
      requires b == Begun(Work(Value(), downed[..], previous), searchPrimary)
      modifies this, info
      ensures Valid()
      ensures Work(Value(), downed[..], newPrimary) == Complete(cfg, b, r, finder)
    {
      var newMaster := GetNextMasterNode();
      newPrimary := SelectPrimary(r, searchPrimary, previous, finder, b);
      ghost var w1 := ChoosePrimary(cfg, b, r, finder);
      newMaster := FollowNewPrimary(r, downed, newPrimary, newMaster, w1);
      Publish(newPrimary, newMaster, w1.(c := Value()));
    }

    method HandleRequest(r: Request, downed: array<bool>, previous: int, finder: seq<Backend> -> int)
        returns (newPrimary: int)
      requires Valid() && WellFormed(r) && Finds(cfg, finder) && previous < MAX_NUM_BACKENDS && downed.Length == MAX_NUM_BACKENDS
      modifies this, info, downed
      ensures Valid()
      ensures Work(Value(), downed[..], newPrimary) == Process(cfg, old(Work(Value(), downed[..], previous)), r, finder)
    {
      ghost var w := Work(Value(), downed[..], previous);
      var searchPrimary := true;
      if r.kind.CloseIdle? {
        return previous;
      } else if r.kind.NodeUp? {
        var skipped;
        skipped, searchPrimary := Failback(r, w);
        if skipped {
          return previous;
        }
      } else if r.kind.PromoteNode? {
        var id := r.nodes[0];
        if id == -1 || !(if cfg.mode.Raw? then id == master else info[id].Live()) {
          return previous;
        }
      } else {
        var cnt;
        cnt, searchPrimary := TakeNodesDown(r, downed, w);
        if cnt == 0 {
          return previous;
        }
      }
      newPrimary := CompleteRequest(r, downed, searchPrimary, previous, finder, Begin(cfg, w, r));
    }

    // One turn of the draining loop.
    method HandleNext(q: RequestInfo, downed: array<bool>, previous: int, finder: seq<Backend> -> int)
        returns (found: bool, newPrimary: int)
      requires Valid() && q.Valid() && Finds(cfg, finder) && previous < MAX_NUM_BACKENDS && downed.Length == MAX_NUM_BACKENDS
      requires q.Contents() != [] ==> WellFormed(q.Contents()[0])
      modifies this, info, downed, q`head, q`switching
      ensures Valid() && q.Valid() && newPrimary < MAX_NUM_BACKENDS
      ensures found <==> old(q.Contents()) != []
      ensures found ==> q.Contents() == old(q.Contents())[1..]
      ensures found ==>
                Process(cfg, old(Work(Value(), downed[..], previous)), old(q.Contents())[0], finder)
                == Work(Value(), downed[..], newPrimary)
      ensures !found ==> q.Contents() == [] && !q.switching && Value() == old(Value())
    {
      newPrimary := previous;
      var r;
      found, r := q.Drain();
      if found {
        ghost var rest := q.Contents();
        assert old(q.Contents()) == [r] + rest;
        newPrimary := HandleRequest(r, downed, previous, finder);
        assert q.Contents() == rest;
      }
    }

    method DrainLoop(q: RequestInfo, downed: array<bool>, finders: nat -> seq<Backend> -> int, ghost all: seq<Request>)
      requires Valid() && q.Valid() && downed.Length == MAX_NUM_BACKENDS && q.Contents() == all
      requires (forall k: nat :: Finds(cfg, finders(k))) && AllAllowed(cfg, Events(all, finders))
      modifies this, info, downed, q`head, q`switching
      ensures Valid() && q.Valid() && q.Contents() == [] && !q.switching
      ensures Value() == Run(cfg, old(Work(Value(), downed[..], -1)), Events(all, finders)).c
    {
      ghost var es := Events(all, finders);
      ghost var w0 := Work(Value(), downed[..], -1);
      ghost var w := w0;
      var newPrimary, k, found := -1, 0, true;
      assert es[..0] == [];
      while found
        invariant Valid() && q.Valid() && downed.Length == MAX_NUM_BACKENDS && newPrimary < MAX_NUM_BACKENDS
        invariant 0 <= k <= |all| && q.Contents() == all[k..]
        invariant w == Run(cfg, w0, es[..k]) && w.c == Value() && (found ==> w == Work(Value(), downed[..], newPrimary))
        invariant !found ==> k == |all| && !q.switching
        decreases |all| - k, found
      {
        assert k < |all| ==> Allowed(cfg, es[k]);
        found, newPrimary := HandleNext(q, downed, newPrimary, finders(k));
        if found {
          RunNext(cfg, w0, es, k);
          w := Step(cfg, w, es[k]);
          k := k + 1;
        }
      }
      assert es[..k] == es;
    }

    // One call of the routine: drain the shared queue, oldest request first,
    // until it is empty; `finders(k)` answers the primary search of request k.
    method HandleAll(q: RequestInfo, finders: nat -> seq<Backend> -> int)
      requires Valid() && q.Valid()
      requires (forall k: nat :: Finds(cfg, finders(k))) && AllAllowed(cfg, Events(q.Contents(), finders))
      modifies this, info, q`head, q`switching
      ensures Valid() && q.Valid() && q.Contents() == [] && !q.switching
      ensures Value() == Run(cfg, Work(old(Value()), AllUp(), -1), Events(old(q.Contents()), finders)).c
    {
      ghost var all := q.Contents();
      assert AllAllowed(cfg, Events(all, finders));
      q.BeginSwitching();
      var downed := new bool[MAX_NUM_BACKENDS](_ => false);
      assert downed[..] == AllUp();
      DrainLoop(q, downed, finders, all);
    }
  }

  lemma RunNext(cfg: Config, w: Work, es: seq<Event>, k: nat)
    requires cfg.Valid() && w.Valid() && w.newPrimary < MAX_NUM_BACKENDS && k < |es|
    requires AllAllowed(cfg, es)
    ensures Run(cfg, w, es[..k + 1]) == Step(cfg, Run(cfg, w, es[..k]), es[k])
  {
    assert es[..k + 1][..k] == es[..k];
  }

  function AllUp(): seq<bool> {
    seq(MAX_NUM_BACKENDS, i => false)
  }

  function Events(rs: seq<Request>, finders: nat -> seq<Backend> -> int): (es: seq<Event>)
    ensures |es| == |rs| && forall i | 0 <= i < |rs| :: es[i] == Drained(rs[i], finders(i))
  {
    seq(|rs|, i requires 0 <= i < |rs| => Drained(rs[i], finders(i)))
  }
}
