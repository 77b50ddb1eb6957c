/** What the failover routine does with one dequeued request: the transition on
    per-node status, quarantine and role and on the master and primary node ids.
    The search for a primary is a parameter (see SplitBrain for what it does). */
module Failover {
  import opened RequestRing

  datatype Mode = Raw | Replication | Slony | Streaming | Logical

  datatype Status = Unused | ConnectWait | Up | Down

  datatype Role = RoleMaster | RoleSlave | RolePrimary | RoleStandby

  datatype Backend = Backend(status: Status, quarantine: bool, role: Role) {
    predicate Live() {
      status.Up? || status.ConnectWait?
    }
  }

  // `followMaster`: a follow_master_command is configured.
  datatype Config = Config(mode: Mode, numBackends: nat, followMaster: bool) {
    predicate Valid() {
      numBackends <= MAX_NUM_BACKENDS
    }

    // Streaming or logical replication, the modes that have a primary node.
    predicate SlMode() {
      mode.Streaming? || mode.Logical?
    }
  }

  datatype Cluster = Cluster(info: seq<Backend>, primary: int, master: int) {
    predicate Valid() {
      |info| == MAX_NUM_BACKENDS && primary < MAX_NUM_BACKENDS
    }
  }

  // What one call of the routine carries from a drained request to the next:
  // the marks of nodes taken down so far and the last choice of primary.
  datatype Work = Work(c: Cluster, downed: seq<bool>, newPrimary: int) {
    predicate Valid() {
      c.Valid() && |downed| == MAX_NUM_BACKENDS
    }
  }

  // The validity test of the main process, which has no session.
  predicate ValidBackend(cfg: Config, c: Cluster, i: nat)
    requires c.Valid() && i < MAX_NUM_BACKENDS
  {
    if cfg.mode.Raw? then i == c.master else c.info[i].Live()
  }

  // Node ids a caller may put into a request; -1 is skipped by the routine.
  predicate WellFormed(r: Request) {
    match r.kind
    case CloseIdle => true
    case NodeUp => |r.nodes| >= 1
    case PromoteNode => |r.nodes| >= 1 && -1 <= r.nodes[0] < MAX_NUM_BACKENDS
    case _ =>
      && 1 <= |r.nodes| <= MAX_NUM_BACKENDS
      && (forall i | 0 <= i < |r.nodes| :: -1 <= r.nodes[i] < MAX_NUM_BACKENDS)
      && (r.nodes[0] == -1 ==> |r.nodes| == 1)
  }

  // ----- least live node -----

  ghost predicate IsLeastLive(info: seq<Backend>, n: nat, m: int)
    requires n <= |info|
  {
    0 <= m < n && info[m].Live() && forall j | 0 <= j < m :: !info[j].Live()
  }

  ghost predicate NoneLive(info: seq<Backend>, n: nat)
    requires n <= |info|
  {
    forall j | 0 <= j < n :: !info[j].Live()
  }

  function NextMasterFrom(info: seq<Backend>, n: nat, i: nat): (m: int)
    requires i <= n <= |info|
    ensures m == -1 || i <= m < n
    ensures m == -1 ==> forall j | i <= j < n :: !info[j].Live()
    ensures m >= 0 ==> info[m].Live() && forall j | i <= j < m :: !info[j].Live()
    decreases n - i
  {
    if i == n then -1 else if info[i].Live() then i else NextMasterFrom(info, n, i + 1)
  }

  // get_next_master_node
  function NextMaster(cfg: Config, info: seq<Backend>): (m: int)
    requires cfg.Valid() && |info| == MAX_NUM_BACKENDS
    ensures m == -1 <==> NoneLive(info, cfg.numBackends)
    ensures m != -1 ==> IsLeastLive(info, cfg.numBackends, m)
  {
    NextMasterFrom(info, cfg.numBackends, 0)
  }

  // ----- first half: apply the request to the nodes it names -----

  datatype Begun = Skipped | Begun(w: Work, searchPrimary: bool)

  function SetStatus(c: Cluster, i: nat, s: Status): Cluster
    requires c.Valid() && i < MAX_NUM_BACKENDS
  {
    c.(info := c.info[i := c.info[i].(status := s)])
  }

  function BeginUp(cfg: Config, w: Work, r: Request): Begun
    requires cfg.Valid() && w.Valid() && r.kind.NodeUp? && WellFormed(r)
  {
    var id := r.nodes[0];
    if id < 0 || id >= MAX_NUM_BACKENDS ||
       (!(cfg.mode.Raw? && w.c.info[id].status.Down?) && ValidBackend(cfg, w.c, id)) then Skipped
    else
      var c1 := SetStatus(w.c, id, ConnectWait);
      if r.details & REQ_DETAIL_UPDATE == 0 then Begun(w.(c := c1), true)
      else
        var c2 := c1.(info := c1.info[id := c1.info[id].(quarantine := false)]);
        var c3 := c2.(master := NextMaster(cfg, c2.info));
        var c4 := if c3.primary == -1 && c3.info[id].role.RolePrimary? then c3.(primary := id) else c3;
        Begun(w.(c := c4), false)
  }

  predicate MayGoDown(cfg: Config, c: Cluster, id: int)
    requires c.Valid() && -1 <= id < MAX_NUM_BACKENDS
  {
    id != -1 && (c.info[id].quarantine || (cfg.mode.Raw? && c.info[id].Live()) || ValidBackend(cfg, c, id))
  }

  // One node taken down or quarantined.  Degenerating a quarantined former
  // primary first makes it the primary again.
  function TakeDown(b: Begun, kind: Kind, id: nat): Begun
    requires b.Begun? && b.w.Valid() && id < MAX_NUM_BACKENDS
  {
    var c := SetStatus(b.w.c, id, Down);
    var node := c.info[id];
    var w := b.w.(downed := b.w.downed[id := true]);
    if kind.NodeQuarantine? then
      b.(w := w.(c := c.(info := c.info[id := node.(quarantine := true)])))
    else if c.primary == -1 && node.quarantine && node.role.RolePrimary? then
      Begun(w.(c := c.(primary := id, info := c.info[id := node.(quarantine := false)])), false)
    else
      b.(w := w.(c := c.(info := c.info[id := node.(quarantine := false)])))
  }

  // The loop over the node set; `b` is the state reached so far.
  function TakeDownAll(cfg: Config, b: Begun, kind: Kind, ids: seq<int>): (r: (Begun, nat))
    requires b.Begun? && b.w.Valid()
    requires forall i | 0 <= i < |ids| :: -1 <= ids[i] < MAX_NUM_BACKENDS
    ensures r.0.Begun? && r.0.w.Valid() && r.0.w.newPrimary == b.w.newPrimary
    ensures r.1 == 0 ==> r.0 == b
    ensures ids == [-1] ==> r.1 == 0
  {
    if ids == [] then (b, 0)
    else
      var (b', cnt) := TakeDownAll(cfg, b, kind, ids[..|ids| - 1]);
      var id := ids[|ids| - 1];
      if MayGoDown(cfg, b'.w.c, id) then (TakeDown(b', kind, id), cnt + 1) else (b', cnt)
  }

  // The request was acted upon, so its first node id is a real one.
  predicate Names(r: Request) {
    !r.kind.CloseIdle? && |r.nodes| >= 1 && 0 <= r.nodes[0] < MAX_NUM_BACKENDS
  }

  function Begin(cfg: Config, w: Work, r: Request): (b: Begun)
    requires cfg.Valid() && w.Valid() && WellFormed(r)
    ensures b.Begun? ==> b.w.Valid() && b.w.newPrimary == w.newPrimary && Names(r)
  {
    match r.kind
    case CloseIdle => Skipped
    case NodeUp => BeginUp(cfg, w, r)
    case PromoteNode =>
      if r.nodes[0] != -1 && ValidBackend(cfg, w.c, r.nodes[0]) then Begun(w, true) else Skipped
    case _ =>
      var (b, cnt) := TakeDownAll(cfg, Begun(w, true), r.kind, r.nodes);
      if cnt == 0 then Skipped else b
  }

  // ----- second half: choose the primary, follow it, publish -----

  // The search returns -1 or a configured live node.
  ghost predicate Finds(cfg: Config, finder: seq<Backend> -> int) {
    forall info: seq<Backend> :: |info| == MAX_NUM_BACKENDS ==>
      finder(info) == -1 || (0 <= finder(info) < cfg.numBackends <= MAX_NUM_BACKENDS && info[finder(info)].Live())
  }

  // Roles are adjusted here; the primary id itself is published in Finish.
  function ChoosePrimary(cfg: Config, b: Begun, r: Request, finder: seq<Backend> -> int): (w: Work)
    requires b.Begun? && b.w.Valid() && Names(r) && Finds(cfg, finder) && b.w.newPrimary < MAX_NUM_BACKENDS
    ensures w.Valid() && w.newPrimary < MAX_NUM_BACKENDS
  {
    var id := r.nodes[0];
    var w := b.w;
    var c := w.c;
    if r.kind.PromoteNode? && ValidBackend(cfg, c, id) then w.(newPrimary := id)
    else if r.kind.NodeQuarantine? then
      if c.primary == id then
        w.(c := c.(info := c.info[id := c.info[id].(role := RolePrimary)]), newPrimary := -1)
      else if cfg.SlMode() then w.(newPrimary := c.primary)
      else w
    else if cfg.SlMode() && r.kind.NodeDown? then
      if c.primary != id then w.(newPrimary := c.primary)
      else
        var c' := c.(info := c.info[id := c.info[id].(role := RoleStandby)]);
        w.(c := c', newPrimary := finder(c'.info))
    else if !b.searchPrimary then w.(newPrimary := c.primary)
    else w.(newPrimary := finder(c.info))
  }

  // Every configured backend but the new primary goes down.
  function AllDownBut(info: seq<Backend>, n: nat, keep: int): (r: seq<Backend>)
    requires n <= |info|
    ensures |r| == |info|
    ensures forall i | 0 <= i < |info| ::
              r[i] == if i < n && i != keep then info[i].(status := Down) else info[i]
  {
    seq(|info|, i requires 0 <= i < |info| => if i < n && i != keep then info[i].(status := Down) else info[i])
  }

  // `newMaster` was computed before the follow degeneration and is recomputed
  // only if that took some node down.
  function Follow(cfg: Config, w: Work, r: Request, newMaster: int): (Work, int)
    requires cfg.Valid() && w.Valid() && Names(r)
  {
    if && cfg.mode.Streaming? && (cfg.followMaster || r.kind.PromoteNode?)
       && (|| (r.kind.NodeDown? && w.c.primary >= 0 && w.downed[w.c.primary])
           || (r.kind.PromoteNode? && ValidBackend(cfg, w.c, r.nodes[0])))
       && w.newPrimary >= 0
    then
      var w' := w.(c := w.c.(info := AllDownBut(w.c.info, cfg.numBackends, w.newPrimary)));
      var followed := if 0 <= w.newPrimary < cfg.numBackends then cfg.numBackends - 1 else cfg.numBackends;
      (w', if followed == 0 then newMaster else NextMaster(cfg, w'.c.info))
    else (w, newMaster)
  }

  function Finish(w: Work, newMaster: int): Work
    requires w.Valid() && w.newPrimary < MAX_NUM_BACKENDS
  {
    var c := w.c;
    var info := if c.primary != w.newPrimary && w.newPrimary >= 0
                then c.info[w.newPrimary := c.info[w.newPrimary].(role := RolePrimary)] else c.info;
    w.(c := Cluster(info, w.newPrimary, if newMaster >= 0 then newMaster else c.master))
  }

  ghost function Complete(cfg: Config, b: Begun, r: Request, finder: seq<Backend> -> int): (w': Work)
    requires cfg.Valid() && b.Begun? && b.w.Valid() && b.w.newPrimary < MAX_NUM_BACKENDS && Names(r) && Finds(cfg, finder)
    ensures w'.Valid() && w'.newPrimary < MAX_NUM_BACKENDS
  {
    var newMaster := NextMaster(cfg, b.w.c.info);
    var w1 := ChoosePrimary(cfg, b, r, finder);
    var (w2, m) := Follow(cfg, w1, r, newMaster);
    Finish(w2, m)
  }

  ghost function Process(cfg: Config, w: Work, r: Request, finder: seq<Backend> -> int): (w': Work)
    requires cfg.Valid() && w.Valid() && WellFormed(r) && Finds(cfg, finder) && w.newPrimary < MAX_NUM_BACKENDS
    ensures w'.Valid() && w'.newPrimary < MAX_NUM_BACKENDS
  {
    var b := Begin(cfg, w, r);
    if b.Skipped? then w else Complete(cfg, b, r, finder)
  }

  // ----- runs -----

  // A run of the main process: calls of the routine, the requests each drains,
  // and a child marking a waiting backend as connected.
  datatype Event =
    | NewCall
    | Drained(r: Request, finder: seq<Backend> -> int)
    | Connected(i: nat)

  ghost predicate Allowed(cfg: Config, e: Event) {
    e.Drained? ==> WellFormed(e.r) && Finds(cfg, e.finder)
  }

  ghost predicate AllAllowed(cfg: Config, es: seq<Event>) {
    forall i | 0 <= i < |es| :: Allowed(cfg, es[i])
  }

  ghost function Step(cfg: Config, w: Work, e: Event): (w': Work)
    requires cfg.Valid() && w.Valid() && w.newPrimary < MAX_NUM_BACKENDS && Allowed(cfg, e)
    ensures w'.Valid() && w'.newPrimary < MAX_NUM_BACKENDS
  {
    match e
    case NewCall => Work(w.c, seq(MAX_NUM_BACKENDS, i => false), -1)
    case Drained(r, finder) => Process(cfg, w, r, finder)
    case Connected(i) =>
      if i < MAX_NUM_BACKENDS && w.c.info[i].status.ConnectWait? then w.(c := SetStatus(w.c, i, Up)) else w
  }

  ghost function Run(cfg: Config, w: Work, es: seq<Event>): (w': Work)
    requires cfg.Valid() && w.Valid() && w.newPrimary < MAX_NUM_BACKENDS
    requires AllAllowed(cfg, es)
    ensures w'.Valid() && w'.newPrimary < MAX_NUM_BACKENDS
  {
    if es == [] then w else Step(cfg, Run(cfg, w, es[..|es| - 1]), es[|es| - 1])
  }

  ghost predicate PrimaryLive(c: Cluster)
    requires c.Valid()
  {
    c.primary < 0 || c.info[c.primary].Live()
  }

  ghost predicate MasterLeast(cfg: Config, c: Cluster)
    requires cfg.Valid() && c.Valid()
  {
    NoneLive(c.info, cfg.numBackends) || IsLeastLive(c.info, cfg.numBackends, c.master)
  }

  predicate SingleNode(r: Request) {
    r.kind.NodeDown? || r.kind.NodeQuarantine? ==> |r.nodes| == 1
  }

  ghost predicate SameLive(a: seq<Backend>, b: seq<Backend>) {
    |a| == |b| && forall i | 0 <= i < |a| :: a[i].Live() == b[i].Live()
  }

  lemma {:induction false} NextMasterSame(cfg: Config, a: seq<Backend>, b: seq<Backend>)
    requires cfg.Valid() && |a| == MAX_NUM_BACKENDS && SameLive(a, b)
    ensures NextMaster(cfg, a) == NextMaster(cfg, b)
  {
    var m, m' := NextMaster(cfg, a), NextMaster(cfg, b);
    if m >= 0 { assert b[m].Live(); }
    if m' >= 0 { assert a[m'].Live(); }
  }

  // Choosing and publishing the primary never changes which nodes are live.
  lemma {:induction false} ChoosingKeepsLive(cfg: Config, b: Begun, r: Request, finder: seq<Backend> -> int)
    requires b.Begun? && b.w.Valid() && Names(r) && Finds(cfg, finder) && b.w.newPrimary < MAX_NUM_BACKENDS
    ensures var w := ChoosePrimary(cfg, b, r, finder);
            SameLive(b.w.c.info, w.c.info) && w.downed == b.w.downed && w.c.primary == b.w.c.primary && w.c.master == b.w.c.master
  {
  }

  lemma {:induction false} FinishKeepsLive(w: Work, m: int)
    requires w.Valid() && w.newPrimary < MAX_NUM_BACKENDS
    ensures SameLive(w.c.info, Finish(w, m).c.info) && Finish(w, m).c.primary == w.newPrimary
  {
  }

  // The master published with a completed request is the least live node.
  lemma {:induction false} CompleteSetsMaster(cfg: Config, b: Begun, r: Request, finder: seq<Backend> -> int)
    requires cfg.Valid() && b.Begun? && b.w.Valid() && b.w.newPrimary < MAX_NUM_BACKENDS && Names(r) && Finds(cfg, finder)
    ensures var c := Complete(cfg, b, r, finder).c;
            var m := NextMaster(cfg, c.info); c.master == if m == -1 then b.w.c.master else m
  {
    var newMaster := NextMaster(cfg, b.w.c.info);
    var w1 := ChoosePrimary(cfg, b, r, finder);
    ChoosingKeepsLive(cfg, b, r, finder);
    NextMasterSame(cfg, b.w.c.info, w1.c.info);
    var (w2, m) := Follow(cfg, w1, r, newMaster);
    FollowMaster(cfg, w1, r);
    FinishKeepsLive(w2, m);
    NextMasterSame(cfg, w2.c.info, Finish(w2, m).c.info);
  }

  lemma {:induction false} FollowMaster(cfg: Config, w: Work, r: Request)
    requires cfg.Valid() && w.Valid() && Names(r) && w.newPrimary < MAX_NUM_BACKENDS
    ensures var (w', m) := Follow(cfg, w, r, NextMaster(cfg, w.c.info)); m == NextMaster(cfg, w'.c.info) && w'.c.master == w.c.master
  {
    var (w', m) := Follow(cfg, w, r, NextMaster(cfg, w.c.info));
    if w'.c.info != w.c.info && m != NextMaster(cfg, w'.c.info) {
      NextMasterSame(cfg, w.c.info, w'.c.info);
    }
  }

  lemma {:induction false} ProcessKeepsMaster(cfg: Config, w: Work, r: Request, finder: seq<Backend> -> int)
    requires cfg.Valid() && w.Valid() && WellFormed(r) && Finds(cfg, finder) && w.newPrimary < MAX_NUM_BACKENDS
    requires MasterLeast(cfg, w.c)
    ensures MasterLeast(cfg, Process(cfg, w, r, finder).c)
  {
    var b := Begin(cfg, w, r);
    if b.Begun? {
      CompleteSetsMaster(cfg, b, r, finder);
    }
  }

  // A completed request publishes the chosen primary, and follow degeneration
  // spares it.
  lemma {:induction false} CompleteSetsPrimary(cfg: Config, b: Begun, r: Request, finder: seq<Backend> -> int)
    requires cfg.Valid() && b.Begun? && b.w.Valid() && b.w.newPrimary < MAX_NUM_BACKENDS && Names(r) && Finds(cfg, finder)
    ensures var p := ChoosePrimary(cfg, b, r, finder).newPrimary;
            var c := Complete(cfg, b, r, finder).c;
            c.primary == p && (p >= 0 ==> c.info[p].Live() == b.w.c.info[p].Live())
  {
    var w1 := ChoosePrimary(cfg, b, r, finder);
    ChoosingKeepsLive(cfg, b, r, finder);
    var (w2, m) := Follow(cfg, w1, r, NextMaster(cfg, b.w.c.info));
    FinishKeepsLive(w2, m);
  }

  lemma {:induction false} SingleDown(cfg: Config, w: Work, kind: Kind, id: int)
    requires w.Valid() && -1 <= id < MAX_NUM_BACKENDS
    ensures TakeDownAll(cfg, Begun(w, true), kind, [id]) ==
            if MayGoDown(cfg, w.c, id) then (TakeDown(Begun(w, true), kind, id), 1) else (Begun(w, true), 0)
  {
    assert [id][..0] == [];
  }

  lemma {:induction false} ProcessKeepsPrimary(cfg: Config, w: Work, r: Request, finder: seq<Backend> -> int)
    requires cfg.Valid() && w.Valid() && WellFormed(r) && Finds(cfg, finder) && w.newPrimary < MAX_NUM_BACKENDS
    requires cfg.SlMode() && SingleNode(r) && PrimaryLive(w.c)
    ensures PrimaryLive(Process(cfg, w, r, finder).c)
  {
    var b := Begin(cfg, w, r);
    if b.Begun? {
      CompleteSetsPrimary(cfg, b, r, finder);
      if r.kind.NodeDown? || r.kind.NodeQuarantine? {
        assert r.nodes == [r.nodes[0]];
        SingleDown(cfg, w, r.kind, r.nodes[0]);
      }
    }
  }

  // Over any run of single-node requests the primary is absent or live and the
  // master is the least live node.
  lemma {:induction false} RunKeepsInvariant(cfg: Config, w: Work, es: seq<Event>)
    requires cfg.Valid() && w.Valid() && w.newPrimary < MAX_NUM_BACKENDS && cfg.SlMode()
    requires AllAllowed(cfg, es)
    requires forall i | 0 <= i < |es| :: es[i].Drained? ==> SingleNode(es[i].r)
    requires PrimaryLive(w.c) && MasterLeast(cfg, w.c)
    ensures var c := Run(cfg, w, es).c; PrimaryLive(c) && MasterLeast(cfg, c)
  {
    if es != [] {
      var before := es[..|es| - 1];
      var e := es[|es| - 1];
      RunKeepsInvariant(cfg, w, before);
      var v := Run(cfg, w, before);
      if e.Drained? {
        ProcessKeepsPrimary(cfg, v, e.r, e.finder);
        ProcessKeepsMaster(cfg, v, e.r, e.finder);
      } else {
        assert SameLive(v.c.info, Step(cfg, v, e).c.info);
      }
    }
  }

  // ----- requests that name several nodes -----

  // The primary as the choice sees it: the recorded one, or, when none is
  // recorded and nodes are degenerated, the first named node that was the
  // primary before its quarantine.
  function SeenPrimary(c: Cluster, kind: Kind, ids: seq<int>): int
    requires c.Valid() && forall i | 0 <= i < |ids| :: -1 <= ids[i] < MAX_NUM_BACKENDS
  {
    if ids == [] then c.primary
    else
      var p := SeenPrimary(c, kind, ids[..|ids| - 1]);
      var last := ids[|ids| - 1];
      if kind.NodeDown? && p == -1 && last != -1 && c.info[last].quarantine && c.info[last].role.RolePrimary?
      then last else p
  }

  lemma {:induction false} SeenIsNamed(c: Cluster, kind: Kind, ids: seq<int>, i: nat)
    requires c.Valid() && forall i | 0 <= i < |ids| :: -1 <= ids[i] < MAX_NUM_BACKENDS
    requires i < |ids| && ids[i] != -1 && kind.NodeDown? && c.info[ids[i]].quarantine && c.info[ids[i]].role.RolePrimary?
    ensures SeenPrimary(c, kind, ids) != -1
  {
    if i < |ids| - 1 {
      SeenIsNamed(c, kind, ids[..|ids| - 1], i);
    }
  }

  // What the loop over a node set does to the nodes.
  lemma {:induction false} TakeDownAllNodes(cfg: Config, b: Begun, kind: Kind, ids: seq<int>)
    requires cfg.SlMode() && b.Begun? && b.w.Valid() && (kind.NodeDown? || kind.NodeQuarantine?)
    requires forall i | 0 <= i < |ids| :: -1 <= ids[i] < MAX_NUM_BACKENDS
    ensures var c' := TakeDownAll(cfg, b, kind, ids).0.w.c;
            forall i | 0 <= i < MAX_NUM_BACKENDS ::
                 && (c'.info[i].Live() <==> b.w.c.info[i].Live() && i !in ids)
                 && c'.info[i].role == b.w.c.info[i].role
                 && (i !in ids ==> c'.info[i] == b.w.c.info[i])
                 && (kind.NodeDown? && i in ids ==> !c'.info[i].quarantine)
  {
    if ids != [] {
      var before := ids[..|ids| - 1];
      var last := ids[|ids| - 1];
      TakeDownAllNodes(cfg, b, kind, before);
      assert ids == before + [last];
      assert forall i :: i in ids <==> i in before || i == last;
    }
  }

  // And everything it does to the state.
  lemma {:induction false} TakeDownAllEffect(cfg: Config, b: Begun, kind: Kind, ids: seq<int>)
    requires cfg.SlMode() && b.Begun? && b.w.Valid() && (kind.NodeDown? || kind.NodeQuarantine?)
    requires forall i | 0 <= i < |ids| :: -1 <= ids[i] < MAX_NUM_BACKENDS
    ensures var c' := TakeDownAll(cfg, b, kind, ids).0.w.c;
            && c'.primary == SeenPrimary(b.w.c, kind, ids)
            && forall i | 0 <= i < MAX_NUM_BACKENDS ::
                 && (c'.info[i].Live() <==> b.w.c.info[i].Live() && i !in ids)
                 && c'.info[i].role == b.w.c.info[i].role
                 && (i !in ids ==> c'.info[i] == b.w.c.info[i])
                 && (kind.NodeDown? && i in ids ==> !c'.info[i].quarantine)
  {
    TakeDownAllNodes(cfg, b, kind, ids);
    TakeDownAllPrimary(cfg, b, kind, ids);
  }

  lemma {:induction false} TakeDownAllPrimary(cfg: Config, b: Begun, kind: Kind, ids: seq<int>)
    requires cfg.SlMode() && b.Begun? && b.w.Valid() && (kind.NodeDown? || kind.NodeQuarantine?)
    requires forall i | 0 <= i < |ids| :: -1 <= ids[i] < MAX_NUM_BACKENDS
    ensures TakeDownAll(cfg, b, kind, ids).0.w.c.primary == SeenPrimary(b.w.c, kind, ids)
  {
    if ids != [] {
      var before := ids[..|ids| - 1];
      var last := ids[|ids| - 1];
      TakeDownAllPrimary(cfg, b, kind, before);
      TakeDownAllNodes(cfg, b, kind, before);
      if last in before && last != -1 && kind.NodeDown? && b.w.c.info[last].quarantine && b.w.c.info[last].role.RolePrimary? {
        var k :| 0 <= k < |before| && before[k] == last;
        SeenIsNamed(b.w.c, kind, before, k);
      }
    }
  }

  // Exactly when a request that takes nodes down leaves a usable primary: the
  // primary is not among them, or it is the first one named.
  lemma {:induction false} DownKeepsPrimaryIff(cfg: Config, w: Work, r: Request, finder: seq<Backend> -> int)
    requires cfg.Valid() && w.Valid() && WellFormed(r) && Finds(cfg, finder) && w.newPrimary < MAX_NUM_BACKENDS
    requires cfg.SlMode() && PrimaryLive(w.c) && (r.kind.NodeDown? || r.kind.NodeQuarantine?)
    ensures var p := SeenPrimary(w.c, r.kind, r.nodes);
            PrimaryLive(Process(cfg, w, r, finder).c) <==> p < 0 || p !in r.nodes || p == r.nodes[0]
  {
    TakeDownAllEffect(cfg, Begun(w, true), r.kind, r.nodes);
    var b := Begin(cfg, w, r);
    SeenInRange(w.c, r.kind, r.nodes);
    if b.Begun? {
      CompleteSetsPrimary(cfg, b, r, finder);
    } else {
      SeenWhenSkipped(cfg, w, r.kind, r.nodes);
    }
  }

  lemma {:induction false} SeenInRange(c: Cluster, kind: Kind, ids: seq<int>)
    requires c.Valid() && forall i | 0 <= i < |ids| :: -1 <= ids[i] < MAX_NUM_BACKENDS
    ensures SeenPrimary(c, kind, ids) < MAX_NUM_BACKENDS
    ensures SeenPrimary(c, kind, ids) == c.primary || SeenPrimary(c, kind, ids) in ids
  {
    if ids != [] {
      SeenInRange(c, kind, ids[..|ids| - 1]);
    }
  }

  lemma {:induction false} SeenWhenSkipped(cfg: Config, w: Work, kind: Kind, ids: seq<int>)
    requires w.Valid() && (forall i | 0 <= i < |ids| :: -1 <= ids[i] < MAX_NUM_BACKENDS)
    requires TakeDownAll(cfg, Begun(w, true), kind, ids).1 == 0
    ensures SeenPrimary(w.c, kind, ids) == w.c.primary
  {
    if ids != [] {
      SeenWhenSkipped(cfg, w, kind, ids[..|ids| - 1]);
    }
  }

  lemma {:induction false} SeenRecorded(c: Cluster, kind: Kind, ids: seq<int>)
    requires c.Valid() && (forall i | 0 <= i < |ids| :: -1 <= ids[i] < MAX_NUM_BACKENDS) && c.primary != -1
    ensures SeenPrimary(c, kind, ids) == c.primary
  {
    if ids != [] {
      SeenRecorded(c, kind, ids[..|ids| - 1]);
    }
  }

  // The family is not empty: naming a standby before the primary leaves a dead
  // primary recorded although a third node is live.
  lemma {:induction false} StandbyNamedFirst(w: Work, finder: seq<Backend> -> int)
    requires w.Valid() && w.newPrimary < MAX_NUM_BACKENDS && w.c.primary == 0
    requires w.c.info[0].Live() && w.c.info[1].Live() && w.c.info[2].Live()
    requires Finds(Config(Streaming, 3, false), finder)
    ensures var c := Process(Config(Streaming, 3, false), w, Request(NodeDown, 0, [1, 0]), finder).c;
            c.primary == 0 && !c.info[0].Live() && c.info[2].Live()
  {
    var cfg := Config(Streaming, 3, false);
    var r := Request(NodeDown, 0, [1, 0]);
    var b := Begin(cfg, w, r);
    SeenRecorded(w.c, NodeDown, [1, 0]);
    TakeDownAllEffect(cfg, Begun(w, true), NodeDown, [1, 0]);
    assert 1 in r.nodes && 0 in r.nodes && 2 !in r.nodes;
    CompleteSetsPrimary(cfg, b, r, finder);
    ChoosingKeepsLive(cfg, b, r, finder);
    var w1 := ChoosePrimary(cfg, b, r, finder);
    assert Complete(cfg, b, r, finder) == Finish(w1, NextMaster(cfg, b.w.c.info));
    FinishKeepsLive(w1, NextMaster(cfg, b.w.c.info));
  }

  // ----- quarantine and its undoing -----

  lemma {:induction false} QuarantineEffect(cfg: Config, w: Work, q: nat, details: bv8, finder: seq<Backend> -> int)
    requires cfg.Valid() && w.Valid() && Finds(cfg, finder) && w.newPrimary < MAX_NUM_BACKENDS && cfg.SlMode()
    requires q < MAX_NUM_BACKENDS && w.c.info[q].Live()
    ensures var c := Process(cfg, w, Request(NodeQuarantine, details, [q]), finder).c;
            && c.primary == (if w.c.primary == q then -1 else w.c.primary)
            && (w.c.primary == q ==> c.info[q].role.RolePrimary?)
            && c.info[q].status.Down?
            && (forall i | 0 <= i < MAX_NUM_BACKENDS && i != q :: c.info[i].Live() == w.c.info[i].Live())
            && var m := NextMaster(cfg, c.info); c.master == if m == -1 then w.c.master else m
  {
    var r := Request(NodeQuarantine, details, [q]);
    SingleDown(cfg, w, NodeQuarantine, q);
    var b := Begin(cfg, w, r);
    CompleteSetsMaster(cfg, b, r, finder);
    CompleteSetsPrimary(cfg, b, r, finder);
    ChoosingKeepsLive(cfg, b, r, finder);
    FinishKeepsLive(ChoosePrimary(cfg, b, r, finder), NextMaster(cfg, b.w.c.info));
  }

  lemma {:induction false} UpdateEffect(cfg: Config, w: Work, q: nat, details: bv8, finder: seq<Backend> -> int)
    requires cfg.Valid() && w.Valid() && Finds(cfg, finder) && w.newPrimary < MAX_NUM_BACKENDS && cfg.SlMode()
    requires q < MAX_NUM_BACKENDS && w.c.info[q].status.Down? && details & REQ_DETAIL_UPDATE != 0
    ensures var c := Process(cfg, w, Request(NodeUp, details, [q]), finder).c;
            && c.primary == (if w.c.primary == -1 && w.c.info[q].role.RolePrimary? then q else w.c.primary)
            && c.info[q].Live() && !c.info[q].quarantine
            && (forall i | 0 <= i < MAX_NUM_BACKENDS && i != q :: c.info[i].Live() == w.c.info[i].Live())
            && (NextMaster(cfg, c.info) != -1 ==> c.master == NextMaster(cfg, c.info))
  {
    var r := Request(NodeUp, details, [q]);
    var b := Begin(cfg, w, r);
    CompleteSetsMaster(cfg, b, r, finder);
    CompleteSetsPrimary(cfg, b, r, finder);
    ChoosingKeepsLive(cfg, b, r, finder);
    FinishKeepsLive(ChoosePrimary(cfg, b, r, finder), NextMaster(cfg, b.w.c.info));
  }

  // Quarantining a live node and failing it back as a status update restores
  // the primary, the master and the set of live nodes; the calls may differ.
  lemma {:induction false} QuarantineUndone(cfg: Config, w: Work, w': Work, q: nat, d: bv8, d': bv8,
                                            finder: seq<Backend> -> int, finder': seq<Backend> -> int)
    requires cfg.Valid() && w.Valid() && w.newPrimary < MAX_NUM_BACKENDS && cfg.SlMode()
    requires Finds(cfg, finder) && Finds(cfg, finder') && d' & REQ_DETAIL_UPDATE != 0
    requires w.c.primary >= 0 && PrimaryLive(w.c) && MasterLeast(cfg, w.c)
    requires q < cfg.numBackends && w.c.info[q].Live()
    requires w'.Valid() && w'.newPrimary < MAX_NUM_BACKENDS
    requires w'.c == Process(cfg, w, Request(NodeQuarantine, d, [q]), finder).c
    ensures var c := Process(cfg, w', Request(NodeUp, d', [q]), finder').c;
            c.primary == w.c.primary && c.master == w.c.master && SameLive(c.info, w.c.info) && !c.info[q].quarantine
  {
    QuarantineEffect(cfg, w, q, d, finder);
    UpdateEffect(cfg, w', q, d', finder');
    var c := Process(cfg, w', Request(NodeUp, d', [q]), finder').c;
    assert SameLive(c.info, w.c.info);
    NextMasterSame(cfg, c.info, w.c.info);
  }
}
