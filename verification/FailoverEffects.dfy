/** What each single-node request does to the whole cluster, written out field by
    field: statuses, roles, quarantine marks, primary and master. */
module FailoverEffects {
  import opened RequestRing
  import opened Failover

  // One node after a completed request: as in `after`, with the role of a new
  // primary set and, if the others have to follow it, taken down.
  ghost predicate NodeSettles(cfg: Config, i: nat, was: Backend, node: Backend, oldPrimary: int, newPrimary: int, follow: bool) {
    && node.status == (if follow && i < cfg.numBackends && i != newPrimary then Down else was.status)
    && node.role == (if i == newPrimary && newPrimary != oldPrimary then RolePrimary else was.role)
    && node.quarantine == was.quarantine
  }

  // The master is the least live node, or stays where it was if none is live.
  ghost predicate MasterSettles(cfg: Config, c: Cluster, oldMaster: int)
    requires cfg.Valid() && c.Valid()
  {
    if NoneLive(c.info, cfg.numBackends) then c.master == oldMaster
    else IsLeastLive(c.info, cfg.numBackends, c.master)
  }

  ghost predicate Settles(cfg: Config, after: seq<Backend>, oldPrimary: int, newPrimary: int, oldMaster: int, follow: bool, c: Cluster)
    requires cfg.Valid() && c.Valid() && |after| == MAX_NUM_BACKENDS
  {
    && c.primary == newPrimary
    && (forall i | 0 <= i < MAX_NUM_BACKENDS :: NodeSettles(cfg, i, after[i], c.info[i], oldPrimary, newPrimary, follow))
    && MasterSettles(cfg, c, oldMaster)
  }

  // The others follow a new primary in streaming mode if a follow command is set
  // and a primary marked as taken down was lost, and always on promotion.
  predicate Follows(cfg: Config, kind: Kind, lostPrimary: bool, newPrimary: int) {
    && cfg.mode.Streaming? && newPrimary >= 0
    && ((kind.NodeDown? && cfg.followMaster && lostPrimary) || kind.PromoteNode?)
  }

  lemma {:induction false} FollowSettles(cfg: Config, w: Work, r: Request, newMaster: int, follow: bool)
    requires cfg.Valid() && w.Valid() && w.newPrimary < MAX_NUM_BACKENDS && Names(r) && !cfg.mode.Raw?
    requires r.kind.PromoteNode? ==> w.c.info[r.nodes[0]].Live()
    requires follow == Follows(cfg, r.kind, w.c.primary >= 0 && w.downed[w.c.primary], w.newPrimary)
    ensures var (w2, m) := Follow(cfg, w, r, newMaster);
            var c := Finish(w2, m).c;
            && c.primary == w.newPrimary
            && forall i | 0 <= i < MAX_NUM_BACKENDS :: NodeSettles(cfg, i, w.c.info[i], c.info[i], w.c.primary, w.newPrimary, follow)
  {
  }

  lemma {:induction false} CompleteSettles(cfg: Config, b: Begun, r: Request, finder: seq<Backend> -> int, follow: bool)
    requires cfg.Valid() && Finds(cfg, finder) && !cfg.mode.Raw?
    requires b.Begun? && b.w.Valid() && b.w.newPrimary < MAX_NUM_BACKENDS && Names(r)
    requires r.kind.PromoteNode? ==> b.w.c.info[r.nodes[0]].Live()
    requires var p := ChoosePrimary(cfg, b, r, finder).newPrimary;
             follow == Follows(cfg, r.kind, b.w.c.primary >= 0 && b.w.downed[b.w.c.primary], p)
    ensures var w1 := ChoosePrimary(cfg, b, r, finder);
            Settles(cfg, w1.c.info, b.w.c.primary, w1.newPrimary, b.w.c.master, follow, Complete(cfg, b, r, finder).c)
  {
    ChoosingKeepsLive(cfg, b, r, finder);
    CompleteSetsMaster(cfg, b, r, finder);
    FollowSettles(cfg, ChoosePrimary(cfg, b, r, finder), r, NextMaster(cfg, b.w.c.info), follow);
  }

  // ----- node down -----

  // A node goes down if it is live or quarantined; any other request for one
  // node is ignored.
  lemma {:induction false} DownIgnored(cfg: Config, w: Work, d: bv8, id: int, kind: Kind, finder: seq<Backend> -> int)
    requires cfg.Valid() && w.Valid() && w.newPrimary < MAX_NUM_BACKENDS && Finds(cfg, finder) && !cfg.mode.Raw?
    requires -1 <= id < MAX_NUM_BACKENDS && (kind.NodeDown? || kind.NodeQuarantine?)
    requires id == -1 || !(w.c.info[id].Live() || w.c.info[id].quarantine)
    ensures Process(cfg, w, Request(kind, d, [id]), finder) == w
  {
    SingleDown(cfg, w, kind, id);
  }

  // The primary as failover sees it: a quarantined former primary that goes down
  // for good counts as the primary again.
  function PrimaryBefore(c: Cluster, id: nat): int
    requires c.Valid() && id < MAX_NUM_BACKENDS
  {
    if c.primary == -1 && c.info[id].quarantine && c.info[id].role.RolePrimary? then id else c.primary
  }

  // Down in streaming or logical mode: a standby's going leaves the primary, the
  // primary's going makes whatever the search finds among the nodes left.
  lemma {:induction false} DownEffect(cfg: Config, w: Work, d: bv8, id: nat, finder: seq<Backend> -> int)
    requires cfg.Valid() && w.Valid() && w.newPrimary < MAX_NUM_BACKENDS && Finds(cfg, finder) && cfg.SlMode()
    requires id < MAX_NUM_BACKENDS && (w.c.info[id].Live() || w.c.info[id].quarantine)
    ensures var c := Process(cfg, w, Request(NodeDown, d, [id]), finder).c;
            var was := PrimaryBefore(w.c, id);
            var after := w.c.info[id := Backend(Down, false, if was == id then RoleStandby else w.c.info[id].role)];
            var now := if was == id then finder(after) else was;
            var follow := Follows(cfg, NodeDown, was >= 0 && (was == id || w.downed[was]), now);
            Settles(cfg, after, was, now, w.c.master, follow, c)
  {
    var r := Request(NodeDown, d, [id]);
    SingleDown(cfg, w, NodeDown, id);
    var b := Begin(cfg, w, r);
    var was := PrimaryBefore(w.c, id);
    var after := w.c.info[id := Backend(Down, false, if was == id then RoleStandby else w.c.info[id].role)];
    var w1 := ChoosePrimary(cfg, b, r, finder);
    assert b.w.c.primary == was;
    assert w1.c.info == after;
    CompleteSettles(cfg, b, r, finder, Follows(cfg, NodeDown, was >= 0 && (was == id || w.downed[was]), w1.newPrimary));
  }

  // The loss of the primary, spelled out: the search's answer becomes primary.
  lemma {:induction false} NewPrimaryElected(cfg: Config, w: Work, d: bv8, finder: seq<Backend> -> int, m: int)
    requires cfg.Valid() && w.Valid() && w.newPrimary < MAX_NUM_BACKENDS && Finds(cfg, finder) && cfg.SlMode()
    requires w.c.primary >= 0 && w.c.info[w.c.primary].Live()
    requires forall info: seq<Backend> ::
               |info| == MAX_NUM_BACKENDS && !info[w.c.primary].Live() && (forall i | 0 <= i < |info| && i != w.c.primary :: info[i] == w.c.info[i])
               ==> finder(info) == m
    ensures var c := Process(cfg, w, Request(NodeDown, d, [w.c.primary]), finder).c;
            && c.primary == m && !c.info[w.c.primary].Live()
            && (m >= 0 ==> c.info[m].Live() && c.info[m].role.RolePrimary?)
            && (forall i | 0 <= i < cfg.numBackends && i != w.c.primary ::
                  c.info[i].Live() == (w.c.info[i].Live() && (i == m || m < 0 || !cfg.mode.Streaming? || !cfg.followMaster)))
  {
    var id := w.c.primary;
    var after := w.c.info[id := Backend(Down, false, RoleStandby)];
    assert finder(after) == m;
    DownEffect(cfg, w, d, id, finder);
    var c := Process(cfg, w, Request(NodeDown, d, [id]), finder).c;
    forall i | 0 <= i < MAX_NUM_BACKENDS
      ensures NodeSettles(cfg, i, after[i], c.info[i], id, m, m >= 0 && cfg.mode.Streaming? && cfg.followMaster)
    {
    }
  }

  // ----- node up -----

  // Failback of a node that is not live, without the update flag: it waits for
  // its first connection, and the search decides on the primary.
  lemma {:induction false} FailbackEffect(cfg: Config, w: Work, d: bv8, id: nat, finder: seq<Backend> -> int)
    requires cfg.Valid() && w.Valid() && w.newPrimary < MAX_NUM_BACKENDS && Finds(cfg, finder) && !cfg.mode.Raw?
    requires id < MAX_NUM_BACKENDS && !w.c.info[id].Live() && d & REQ_DETAIL_UPDATE == 0
    ensures var c := Process(cfg, w, Request(NodeUp, d, [id]), finder).c;
            var after := w.c.info[id := w.c.info[id].(status := ConnectWait)];
            && Settles(cfg, after, w.c.primary, finder(after), w.c.master, false, c)
            && c.info[id].Live()
  {
    var r := Request(NodeUp, d, [id]);
    var b := Begin(cfg, w, r);
    CompleteSettles(cfg, b, r, finder, false);
    var c := Process(cfg, w, r, finder).c;
    var after := w.c.info[id := w.c.info[id].(status := ConnectWait)];
    assert NodeSettles(cfg, id, after[id], c.info[id], w.c.primary, c.primary, false);
  }

  // Failback of a live node, or of no node, is refused.
  lemma {:induction false} FailbackIgnored(cfg: Config, w: Work, d: bv8, id: int, finder: seq<Backend> -> int)
    requires cfg.Valid() && w.Valid() && w.newPrimary < MAX_NUM_BACKENDS && Finds(cfg, finder) && !cfg.mode.Raw?
    requires id < 0 || id >= MAX_NUM_BACKENDS || w.c.info[id].Live()
    ensures Process(cfg, w, Request(NodeUp, d, [id]), finder) == w
  {
  }

  // ----- promotion -----

  // Promotion of a live node makes it the primary, and in streaming mode takes
  // every other configured node down; of any other node it is refused.
  lemma {:induction false} PromoteEffect(cfg: Config, w: Work, d: bv8, id: int, finder: seq<Backend> -> int)
    requires cfg.Valid() && w.Valid() && w.newPrimary < MAX_NUM_BACKENDS && Finds(cfg, finder) && !cfg.mode.Raw?
    requires -1 <= id < MAX_NUM_BACKENDS
    ensures var w' := Process(cfg, w, Request(PromoteNode, d, [id]), finder);
            if id == -1 || !w.c.info[id].Live() then w' == w
            else && Settles(cfg, w.c.info, w.c.primary, id, w.c.master, cfg.mode.Streaming?, w'.c)
                 && w'.c.info[id].Live()
  {
    var r := Request(PromoteNode, d, [id]);
    var b := Begin(cfg, w, r);
    if id != -1 && w.c.info[id].Live() {
      CompleteSettles(cfg, b, r, finder, cfg.mode.Streaming?);
      var c := Process(cfg, w, r, finder).c;
      assert NodeSettles(cfg, id, w.c.info[id], c.info[id], w.c.primary, id, cfg.mode.Streaming?);
    }
  }

  // ----- quarantine -----

  // Quarantine in streaming or logical mode: the node is down and marked; only
  // if it was the primary is there none now, and the node remembers its role.
  lemma {:induction false} QuarantineWhole(cfg: Config, w: Work, d: bv8, id: nat, finder: seq<Backend> -> int)
    requires cfg.Valid() && w.Valid() && w.newPrimary < MAX_NUM_BACKENDS && Finds(cfg, finder) && cfg.SlMode()
    requires id < MAX_NUM_BACKENDS && (w.c.info[id].Live() || w.c.info[id].quarantine)
    ensures var c := Process(cfg, w, Request(NodeQuarantine, d, [id]), finder).c;
            var mine := w.c.primary == id;
            var after := w.c.info[id := Backend(Down, true, if mine then RolePrimary else w.c.info[id].role)];
            Settles(cfg, after, w.c.primary, if mine then -1 else w.c.primary, w.c.master, false, c)
  {
    var r := Request(NodeQuarantine, d, [id]);
    SingleDown(cfg, w, NodeQuarantine, id);
    var b := Begin(cfg, w, r);
    var after := w.c.info[id := Backend(Down, true, if w.c.primary == id then RolePrimary else w.c.info[id].role)];
    assert ChoosePrimary(cfg, b, r, finder).c.info == after;
    CompleteSettles(cfg, b, r, finder, false);
  }

  // Failback with the update flag: the mark goes and the node comes back as
  // primary exactly if it held that role and there is none.
  lemma {:induction false} UpdateWhole(cfg: Config, w: Work, d: bv8, id: nat, finder: seq<Backend> -> int)
    requires cfg.Valid() && w.Valid() && w.newPrimary < MAX_NUM_BACKENDS && Finds(cfg, finder) && !cfg.mode.Raw?
    requires id < MAX_NUM_BACKENDS && !w.c.info[id].Live() && d & REQ_DETAIL_UPDATE != 0
    ensures var c := Process(cfg, w, Request(NodeUp, d, [id]), finder).c;
            var p := if w.c.primary == -1 && w.c.info[id].role.RolePrimary? then id else w.c.primary;
            var after := w.c.info[id := Backend(ConnectWait, false, w.c.info[id].role)];
            Settles(cfg, after, p, p, -1, false, c)
  {
    var r := Request(NodeUp, d, [id]);
    var b := Begin(cfg, w, r);
    var after := w.c.info[id := Backend(ConnectWait, false, w.c.info[id].role)];
    assert ChoosePrimary(cfg, b, r, finder).c.info == after;
    CompleteSettles(cfg, b, r, finder, false);
  }

  // ----- modes without a primary of their own -----

  // In replication and Slony mode the answer of the search is taken after every
  // node that goes down, unless a quarantined former primary does.
  lemma {:induction false} DownElsewhere(cfg: Config, w: Work, d: bv8, id: nat, finder: seq<Backend> -> int)
    requires cfg.Valid() && w.Valid() && w.newPrimary < MAX_NUM_BACKENDS && Finds(cfg, finder)
    requires cfg.mode.Replication? || cfg.mode.Slony?
    requires id < MAX_NUM_BACKENDS && (w.c.info[id].Live() || w.c.info[id].quarantine)
    ensures var c := Process(cfg, w, Request(NodeDown, d, [id]), finder).c;
            var was := PrimaryBefore(w.c, id);
            var after := w.c.info[id := Backend(Down, false, w.c.info[id].role)];
            Settles(cfg, after, was, if was != w.c.primary then was else finder(after), w.c.master, false, c)
  {
    var r := Request(NodeDown, d, [id]);
    SingleDown(cfg, w, NodeDown, id);
    var b := Begin(cfg, w, r);
    var after := w.c.info[id := Backend(Down, false, w.c.info[id].role)];
    assert ChoosePrimary(cfg, b, r, finder).c.info == after;
    CompleteSettles(cfg, b, r, finder, false);
  }

  // There a quarantine of the primary empties it, and any other leaves the choice
  // that an earlier request of the same call made.
  lemma {:induction false} QuarantineElsewhere(cfg: Config, w: Work, d: bv8, id: nat, finder: seq<Backend> -> int)
    requires cfg.Valid() && w.Valid() && w.newPrimary < MAX_NUM_BACKENDS && Finds(cfg, finder)
    requires cfg.mode.Replication? || cfg.mode.Slony?
    requires id < MAX_NUM_BACKENDS && (w.c.info[id].Live() || w.c.info[id].quarantine)
    ensures var c := Process(cfg, w, Request(NodeQuarantine, d, [id]), finder).c;
            var mine := w.c.primary == id;
            var after := w.c.info[id := Backend(Down, true, if mine then RolePrimary else w.c.info[id].role)];
            Settles(cfg, after, w.c.primary, if mine then -1 else w.newPrimary, w.c.master, false, c)
  {
    var r := Request(NodeQuarantine, d, [id]);
    SingleDown(cfg, w, NodeQuarantine, id);
    var b := Begin(cfg, w, r);
    var after := w.c.info[id := Backend(Down, true, if w.c.primary == id then RolePrimary else w.c.info[id].role)];
    assert ChoosePrimary(cfg, b, r, finder).c.info == after;
    CompleteSettles(cfg, b, r, finder, false);
  }

  // ----- raw mode -----

  // Without replication a node counts as valid only if it is the master: any
  // live, quarantined or master node may go down, and the master moves on.
  lemma {:induction false} RawDown(cfg: Config, w: Work, d: bv8, id: nat, finder: seq<Backend> -> int)
    requires cfg.Valid() && w.Valid() && w.newPrimary < MAX_NUM_BACKENDS && Finds(cfg, finder) && cfg.mode.Raw?
    requires id < MAX_NUM_BACKENDS
    ensures var w' := Process(cfg, w, Request(NodeDown, d, [id]), finder);
            if !(w.c.info[id].Live() || w.c.info[id].quarantine || id == w.c.master) then w' == w
            else && !w'.c.info[id].Live() && MasterSettles(cfg, w'.c, w.c.master)
                 && forall i | 0 <= i < MAX_NUM_BACKENDS && i != id :: w'.c.info[i].Live() == w.c.info[i].Live()
  {
    var r := Request(NodeDown, d, [id]);
    SingleDown(cfg, w, NodeDown, id);
    var b := Begin(cfg, w, r);
    if b.Begun? {
      CompleteSetsMaster(cfg, b, r, finder);
      ChoosingKeepsLive(cfg, b, r, finder);
      FinishKeepsLive(ChoosePrimary(cfg, b, r, finder), NextMaster(cfg, b.w.c.info));
    }
  }

  // A node comes back if it is down or not the master.
  lemma {:induction false} RawUp(cfg: Config, w: Work, d: bv8, id: nat, finder: seq<Backend> -> int)
    requires cfg.Valid() && w.Valid() && w.newPrimary < MAX_NUM_BACKENDS && Finds(cfg, finder) && cfg.mode.Raw?
    requires id < MAX_NUM_BACKENDS && d & REQ_DETAIL_UPDATE == 0
    ensures var w' := Process(cfg, w, Request(NodeUp, d, [id]), finder);
            if id == w.c.master && !w.c.info[id].status.Down? then w' == w
            else && w'.c.info[id].Live() && MasterSettles(cfg, w'.c, w.c.master)
                 && forall i | 0 <= i < MAX_NUM_BACKENDS && i != id :: w'.c.info[i].Live() == w.c.info[i].Live()
  {
    var r := Request(NodeUp, d, [id]);
    var b := Begin(cfg, w, r);
    if b.Begun? {
      CompleteSetsMaster(cfg, b, r, finder);
      ChoosingKeepsLive(cfg, b, r, finder);
      FinishKeepsLive(ChoosePrimary(cfg, b, r, finder), NextMaster(cfg, b.w.c.info));
    }
  }
}
