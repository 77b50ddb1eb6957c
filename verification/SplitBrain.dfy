/** The search for the primary node: classify every reachable backend, and when
    standbys are present decide by whom they stream from which primary is true.
    The answers of the backends to the queries are a parameter and do not change
    during one search. */
module SplitBrain {
  import opened RequestRing
  import opened Failover

  // Answer to "are you in recovery".
  datatype Recovery = NoRecoveryAnswer | InRecovery | NotInRecovery | Unclear

  // Answer about the WAL receiver of a standby.
  datatype WalReceiver = NoAnswer | NoRow | StatusNull | NotStreaming | ConninfoNull | Streams(host: string, port: int)

  datatype Peer = Peer(hostname: string, port: int, alwaysMaster: bool,
                       connected: bool, recovery: Recovery, wal: WalReceiver, version: int)

  datatype NodeStatus = StatusUnused | StatusPrimary | StatusStandby | StatusInvalid

  const WAL_RECEIVER_VERSION: int := 90600

  // What the first pass records for a node.
  function FirstStatus(p: Peer, valid: bool): NodeStatus {
    if !valid || !p.connected then StatusUnused
    else match p.recovery
         case InRecovery => StatusStandby
         case NotInRecovery => StatusPrimary
         case _ => StatusUnused
  }

  // A standby streams from a backend: same host, or a local socket on both
  // sides, and the same port.
  predicate StreamsFrom(standby: Peer, b: Peer) {
    && standby.wal.Streams?
    && (b.hostname == standby.wal.host || (b.hostname != "" && b.hostname[0] == '/' && standby.wal.host == ""))
    && b.port == standby.wal.port
  }

  // ----- declarative description -----

  ghost predicate Is(peers: seq<Peer>, valid: seq<bool>, i: int, s: NodeStatus)
    requires |valid| == |peers|
  {
    0 <= i < |peers| && FirstStatus(peers[i], valid[i]) == s
  }

  ghost predicate AnyIs(peers: seq<Peer>, valid: seq<bool>, s: NodeStatus)
    requires |valid| == |peers|
  {
    exists i :: Is(peers, valid, i, s)
  }

  ghost predicate OwnsAll(peers: seq<Peer>, valid: seq<bool>, i: int)
    requires |valid| == |peers|
  {
    && Is(peers, valid, i, StatusPrimary)
    && forall j :: Is(peers, valid, j, StatusStandby) ==> StreamsFrom(peers[j], peers[i])
  }

  ghost predicate NewEnough(peers: seq<Peer>, valid: seq<bool>)
    requires |valid| == |peers|
  {
    exists i | 0 <= i < |peers| :: valid[i] && peers[i].version >= WAL_RECEIVER_VERSION
  }

  // The status a node ends with.
  ghost function Verdict(peers: seq<Peer>, valid: seq<bool>, detach: bool, i: nat): NodeStatus
    requires |valid| == |peers| && i < |peers|
  {
    var first := FirstStatus(peers[i], valid[i]);
    if !first.StatusPrimary? then first
    else if !AnyIs(peers, valid, StatusStandby) then
      if exists k :: k < i && Is(peers, valid, k, StatusPrimary) then
        (if detach then StatusInvalid else StatusUnused)
      else StatusPrimary
    else if detach && NewEnough(peers, valid) && !OwnsAll(peers, valid, i) && exists k :: OwnsAll(peers, valid, k) then
      StatusInvalid
    else StatusPrimary
  }

  // ----- counting -----

  ghost function CountStandbys(peers: seq<Peer>, valid: seq<bool>, n: nat): nat
    requires |valid| == |peers| && n <= |peers|
  {
    if n == 0 then 0
    else CountStandbys(peers, valid, n - 1) + if Is(peers, valid, n - 1, StatusStandby) then 1 else 0
  }

  ghost function CountOwned(peers: seq<Peer>, valid: seq<bool>, i: nat, n: nat): nat
    requires |valid| == |peers| && n <= |peers| && i < |peers|
  {
    if n == 0 then 0
    else CountOwned(peers, valid, i, n - 1) +
         if Is(peers, valid, n - 1, StatusStandby) && StreamsFrom(peers[n - 1], peers[i]) then 1 else 0
  }

  // Owning as many standbys as there are means owning every one of them.
  lemma {:induction false} OwnedCount(peers: seq<Peer>, valid: seq<bool>, i: nat, n: nat)
    requires |valid| == |peers| && n <= |peers| && i < |peers|
    ensures CountOwned(peers, valid, i, n) <= CountStandbys(peers, valid, n)
    ensures CountOwned(peers, valid, i, n) == CountStandbys(peers, valid, n) <==>
            forall j :: j < n && Is(peers, valid, j, StatusStandby) ==> StreamsFrom(peers[j], peers[i])
  {
    if n > 0 {
      OwnedCount(peers, valid, i, n - 1);
    }
  }

  lemma {:induction false} CountGrows(peers: seq<Peer>, valid: seq<bool>, i: nat, m: nat, n: nat)
    requires |valid| == |peers| && m <= n <= |peers| && i < |peers|
    ensures CountStandbys(peers, valid, m) <= CountStandbys(peers, valid, n)
    ensures CountOwned(peers, valid, i, m) <= CountOwned(peers, valid, i, n)
    decreases n - m
  {
    if m < n {
      CountGrows(peers, valid, i, m, n - 1);
    }
  }

  lemma {:induction false} NoneCounted(peers: seq<Peer>, valid: seq<bool>, n: nat)
    requires |valid| == |peers| && n <= |peers|
    ensures CountStandbys(peers, valid, n) == 0 <==> forall j :: j < n ==> !Is(peers, valid, j, StatusStandby)
  {
    if n > 0 {
      NoneCounted(peers, valid, n - 1);
    }
  }

  // ----- the imperative search -----

  ghost predicate Records(status: array<NodeStatus>, peers: seq<Peer>, valid: seq<bool>, n: nat)
    reads status
    requires |valid| == |peers|
  {
    n <= |peers| <= status.Length && forall i | 0 <= i < n :: status[i] == FirstStatus(peers[i], valid[i])
  }

  method Classify(peers: seq<Peer>, valid: seq<bool>, status: array<NodeStatus>)
      returns (numPrimaries: nat, numStandbys: nat)
    requires |valid| == |peers| <= status.Length
    modifies status
    ensures Records(status, peers, valid, |peers|)
    ensures numStandbys == CountStandbys(peers, valid, |peers|)
    ensures numPrimaries == 0 <==> !AnyIs(peers, valid, StatusPrimary)
    ensures numPrimaries == 1 ==> forall i, k :: Is(peers, valid, i, StatusPrimary) && Is(peers, valid, k, StatusPrimary) ==> i == k
  {
    numPrimaries, numStandbys := 0, 0;
    for i := 0 to |peers|
      invariant Records(status, peers, valid, i)
      invariant numStandbys == CountStandbys(peers, valid, i)
      invariant numPrimaries == 0 <==> forall k :: k < i ==> !Is(peers, valid, k, StatusPrimary)
      invariant numPrimaries == 1 ==> forall k, l :: k < i && l < i && Is(peers, valid, k, StatusPrimary) && Is(peers, valid, l, StatusPrimary) ==> k == l
    {
      status[i] := StatusUnused;
      if !valid[i] || !peers[i].connected || peers[i].recovery.NoRecoveryAnswer? {
        continue;
      }
      if peers[i].recovery.InRecovery? {
        status[i] := StatusStandby;
        numStandbys := numStandbys + 1;
      } else if peers[i].recovery.NotInRecovery? {
        status[i] := StatusPrimary;
        numPrimaries := numPrimaries + 1;
        assert Is(peers, valid, i, StatusPrimary);
      }
    }
  }

  // No standby to ask: the first primary stays, later ones do not.
  method KeepFirstPrimary(peers: seq<Peer>, valid: seq<bool>, detach: bool, status: array<NodeStatus>)
    requires |valid| == |peers| && Records(status, peers, valid, |peers|) && !AnyIs(peers, valid, StatusStandby)
    modifies status
    ensures forall i | 0 <= i < |peers| :: status[i] == Verdict(peers, valid, detach, i)
  {
    var i := 0;
    while i < |peers|
      invariant 0 <= i <= |peers|
      invariant forall k | 0 <= k < i :: status[k] == Verdict(peers, valid, detach, k)
      invariant forall k | i <= k < |peers| :: status[k] == FirstStatus(peers[k], valid[k])
      invariant i < |peers| ==> forall k :: k < i ==> !Is(peers, valid, k, StatusPrimary)
    {
      if status[i].StatusPrimary? {
        var first := i;
        assert Is(peers, valid, first, StatusPrimary);
        i := i + 1;
        while i < |peers|
          invariant first < i <= |peers|
          invariant forall k | 0 <= k < i :: status[k] == Verdict(peers, valid, detach, k)
          invariant forall k | i <= k < |peers| :: status[k] == FirstStatus(peers[k], valid[k])
        {
          if status[i].StatusPrimary? {
            status[i] := if detach then StatusInvalid else StatusUnused;
          }
          i := i + 1;
        }
      } else {
        i := i + 1;
      }
    }
  }

  method CheckVersion(peers: seq<Peer>, valid: seq<bool>) returns (ok: bool)
    requires |valid| == |peers|
    ensures ok <==> NewEnough(peers, valid)
  {
    for i := 0 to |peers|
      invariant forall k | 0 <= k < i :: !(valid[k] && peers[k].version >= WAL_RECEIVER_VERSION)
    {
      if valid[i] && peers[i].version >= WAL_RECEIVER_VERSION {
        return true;
      }
    }
    return false;
  }

  // How many standbys stream from primary i, and whether that is all of them.
  method CountOwnedBy(peers: seq<Peer>, valid: seq<bool>, status: array<NodeStatus>, i: nat, numStandbys: nat)
      returns (owned: nat, all: bool)
    requires |valid| == |peers| && Records(status, peers, valid, |peers|) && i < |peers|
    requires numStandbys == CountStandbys(peers, valid, |peers|)
    ensures owned == CountOwned(peers, valid, i, |peers|)
    ensures all <==> owned == numStandbys && numStandbys > 0
  {
    owned, all := 0, false;
    for j := 0 to |peers|
      invariant owned == CountOwned(peers, valid, i, j)
      invariant all <==> owned == numStandbys && numStandbys > 0
    {
      CountGrows(peers, valid, i, j + 1, |peers|);
      OwnedCount(peers, valid, i, |peers|);
      if status[j].StatusStandby? {
        if peers[j].wal.Streams? {
          if StreamsFrom(peers[j], peers[i]) {
            owned := owned + 1;
            if owned == numStandbys {
              all := true;
            }
          }
        }
      }
    }
  }

  // For each primary the number of standbys it owns, and whether one owns all.
  method CountOwners(peers: seq<Peer>, valid: seq<bool>, status: array<NodeStatus>, numStandbys: nat)
      returns (primary: array<nat>, truePrimary: int)
    requires |valid| == |peers| && Records(status, peers, valid, |peers|)
    requires numStandbys == CountStandbys(peers, valid, |peers|) && numStandbys > 0
    ensures fresh(primary) && primary.Length == |peers|
    ensures forall k | 0 <= k < |peers| && Is(peers, valid, k, StatusPrimary) :: primary[k] == CountOwned(peers, valid, k, |peers|)
    ensures truePrimary >= 0 <==> exists k :: OwnsAll(peers, valid, k)
  {
    primary := new nat[|peers|](_ => 0);
    truePrimary := -1;
    for i := 0 to |peers|
      invariant Records(status, peers, valid, |peers|)
      invariant forall k | 0 <= k < i && Is(peers, valid, k, StatusPrimary) :: primary[k] == CountOwned(peers, valid, k, |peers|)
      invariant -1 <= truePrimary < i
      invariant truePrimary >= 0 <==> exists k :: k < i && OwnsAll(peers, valid, k)
    {
      primary[i] := 0;
      if valid[i] && status[i].StatusPrimary? {
        assert Is(peers, valid, i, StatusPrimary);
        var owned, all := CountOwnedBy(peers, valid, status, i, numStandbys);
        OwnedCount(peers, valid, i, |peers|);
        primary[i] := owned;
        if all {
          truePrimary := i;
          assert OwnsAll(peers, valid, i);
        }
      }
    }
  }

  // Standbys present: primaries that do not own all of them go when one does.
  method DetachFalsePrimaries(peers: seq<Peer>, valid: seq<bool>, status: array<NodeStatus>, numStandbys: nat)
    requires |valid| == |peers| && Records(status, peers, valid, |peers|)
    requires numStandbys == CountStandbys(peers, valid, |peers|) && numStandbys > 0 && NewEnough(peers, valid)
    modifies status
    ensures forall i | 0 <= i < |peers| :: status[i] == Verdict(peers, valid, true, i)
  {
    NoneCounted(peers, valid, |peers|);
    var primary, truePrimary := CountOwners(peers, valid, status, numStandbys);
    for i := 0 to |peers|
      invariant forall k | 0 <= k < |peers| && Is(peers, valid, k, StatusPrimary) :: primary[k] == CountOwned(peers, valid, k, |peers|)
      invariant forall k | 0 <= k < i :: status[k] == Verdict(peers, valid, true, k)
      invariant forall k | i <= k < |peers| :: status[k] == FirstStatus(peers[k], valid[k])
    {
      if status[i].StatusPrimary? {
        assert Is(peers, valid, i, StatusPrimary);
        OwnedCount(peers, valid, i, |peers|);
        assert OwnsAll(peers, valid, i) <==> primary[i] == numStandbys;
        if primary[i] < numStandbys && truePrimary >= 0 {
          status[i] := StatusInvalid;
        }
      }
    }
  }

  method VerifyBackendNodeStatus(peers: seq<Peer>, valid: seq<bool>, detach: bool, status: array<NodeStatus>)
    requires |valid| == |peers| <= status.Length
    modifies status
    ensures forall i | 0 <= i < |peers| :: status[i] == Verdict(peers, valid, detach, i)
  {
    var numPrimaries, numStandbys := Classify(peers, valid, status);
    NoneCounted(peers, valid, |peers|);
    if numPrimaries == 0 {
      return;
    }
    if numStandbys == 0 {
      assert !AnyIs(peers, valid, StatusStandby);
      if numPrimaries != 1 {
        KeepFirstPrimary(peers, valid, detach, status);
      } else {
        forall i | 0 <= i < |peers|
          ensures status[i] == Verdict(peers, valid, detach, i)
        {
          if k :| k < i && Is(peers, valid, k, StatusPrimary) {
            assert !Is(peers, valid, i, StatusPrimary);
          }
        }
      }
      return;
    }
    if !detach {
      return;
    }
    var ok := CheckVersion(peers, valid);
    if ok {
      DetachFalsePrimaries(peers, valid, status, numStandbys);
    }
  }

  // ----- find_primary_node -----

  ghost function LastPrimary(peers: seq<Peer>, valid: seq<bool>, detach: bool, n: nat): (p: int)
    requires |valid| == |peers| && n <= |peers|
    ensures -1 <= p < n
    ensures p >= 0 ==> Verdict(peers, valid, detach, p) == StatusPrimary
    ensures forall i | p < i < n :: Verdict(peers, valid, detach, i) != StatusPrimary
  {
    if n == 0 then -1
    else if Verdict(peers, valid, detach, n - 1) == StatusPrimary then n - 1
    else LastPrimary(peers, valid, detach, n - 1)
  }

  // The first node flagged as always master, if any.
  function FirstAlwaysMaster(peers: seq<Peer>, i: nat): (p: int)
    requires i <= |peers|
    ensures p == -1 || (i <= p < |peers| && peers[p].alwaysMaster)
    ensures p == -1 ==> forall k | i <= k < |peers| :: !peers[k].alwaysMaster
    decreases |peers| - i
  {
    if i == |peers| then -1 else if peers[i].alwaysMaster then i else FirstAlwaysMaster(peers, i + 1)
  }

  ghost function FindPrimary(cfg: Config, peers: seq<Peer>, valid: seq<bool>, detach: bool): (p: int)
    requires |valid| == |peers|
    ensures -1 <= p < |peers|
  {
    if !cfg.SlMode() then -1
    else
      var m := FirstAlwaysMaster(peers, 0);
      if m >= 0 then m else LastPrimary(peers, valid, detach, |peers|)
  }

  method FindPrimaryNode(cfg: Config, peers: seq<Peer>, valid: seq<bool>, detach: bool, status: array<NodeStatus>)
      returns (primary: int)
    requires |valid| == |peers| <= status.Length
    modifies status
    ensures primary == FindPrimary(cfg, peers, valid, detach)
  {
    primary := -1;
    if !cfg.SlMode() {
      return;
    }
    for i := 0 to |peers|
      invariant FirstAlwaysMaster(peers, 0) == FirstAlwaysMaster(peers, i)
    {
      if peers[i].alwaysMaster {
        return i;
      }
    }
    VerifyBackendNodeStatus(peers, valid, detach, status);
    for i := 0 to |peers|
      invariant primary == LastPrimary(peers, valid, detach, i)
    {
      if status[i].StatusPrimary? {
        primary := i;
      }
    }
  }

  // Only a valid, connected node that reported itself out of recovery is ever
  // found, unless a node is flagged as always master.
  lemma {:induction false} FoundIsValid(cfg: Config, peers: seq<Peer>, valid: seq<bool>, detach: bool)
    requires |valid| == |peers| && FirstAlwaysMaster(peers, 0) == -1
    ensures var p := FindPrimary(cfg, peers, valid, detach);
            p == -1 || (valid[p] && peers[p].connected && peers[p].recovery.NotInRecovery?)
  {
  }

  // ----- split brain -----

  ghost predicate KeepsPrimary(peers: seq<Peer>, valid: seq<bool>, detach: bool, i: int)
    requires |valid| == |peers|
  {
    0 <= i < |peers| && Verdict(peers, valid, detach, i) == StatusPrimary
  }

  // No standby can be read as streaming from two of the backends.
  ghost predicate Unambiguous(peers: seq<Peer>) {
    forall j, a, b | 0 <= j < |peers| && 0 <= a < |peers| && 0 <= b < |peers| ::
      StreamsFrom(peers[j], peers[a]) && StreamsFrom(peers[j], peers[b]) ==> a == b
  }

  // If some primary owns all standbys, it alone stays primary and is found.
  lemma {:induction false} SplitBrainResolved(cfg: Config, peers: seq<Peer>, valid: seq<bool>, t: nat)
    requires |valid| == |peers| && cfg.SlMode() && FirstAlwaysMaster(peers, 0) == -1
    requires AnyIs(peers, valid, StatusStandby) && NewEnough(peers, valid) && Unambiguous(peers)
    requires t < |peers| && OwnsAll(peers, valid, t)
    ensures forall i :: KeepsPrimary(peers, valid, true, i) <==> i == t
    ensures forall i | 0 <= i < |peers| && i != t && Is(peers, valid, i, StatusPrimary) ::
              Verdict(peers, valid, true, i) == StatusInvalid
    ensures FindPrimary(cfg, peers, valid, true) == t
  {
    var j :| Is(peers, valid, j, StatusStandby);
    forall i | OwnsAll(peers, valid, i)
      ensures i == t
    {
      assert StreamsFrom(peers[j], peers[i]) && StreamsFrom(peers[j], peers[t]);
    }
    assert KeepsPrimary(peers, valid, true, t);
  }

  // Exactly when one node stays primary while standbys are present: one primary
  // alone owns all standbys, or nobody does and there was only one primary.
  lemma {:induction false} UniquePrimaryIff(peers: seq<Peer>, valid: seq<bool>, t: nat)
    requires |valid| == |peers| && t < |peers|
    requires AnyIs(peers, valid, StatusStandby) && NewEnough(peers, valid)
    ensures (forall i :: KeepsPrimary(peers, valid, true, i) <==> i == t) <==>
            || (forall i :: OwnsAll(peers, valid, i) <==> i == t)
            || ((forall i :: !OwnsAll(peers, valid, i)) && forall i :: Is(peers, valid, i, StatusPrimary) <==> i == t)
  {
    if k :| OwnsAll(peers, valid, k) {
      forall i
        ensures KeepsPrimary(peers, valid, true, i) <==> OwnsAll(peers, valid, i)
      {
      }
    } else {
      assert !OwnsAll(peers, valid, t);
      forall i
        ensures KeepsPrimary(peers, valid, true, i) <==> Is(peers, valid, i, StatusPrimary)
      {
      }
    }
  }

  // The other family is not empty: two primaries configured under one host and
  // port, say after a copy of a configuration line, both own the one standby
  // that streams from there, both stay primary, and the later one is found.
  lemma {:induction false} TwoPrimariesStay(cfg: Config, host: string, port: int, version: int)
    requires cfg.SlMode() && version >= WAL_RECEIVER_VERSION
    ensures var primary := Peer(host, port, false, true, NotInRecovery, NoRow, version);
            var standby := Peer("standby", 5433, false, true, InRecovery, Streams(host, port), version);
            var peers, valid := [primary, primary, standby], [true, true, true];
            && OwnsAll(peers, valid, 0) && OwnsAll(peers, valid, 1)
            && KeepsPrimary(peers, valid, true, 0) && KeepsPrimary(peers, valid, true, 1)
            && FindPrimary(cfg, peers, valid, true) == 1
  {
    var primary := Peer(host, port, false, true, NotInRecovery, NoRow, version);
    var standby := Peer("standby", 5433, false, true, InRecovery, Streams(host, port), version);
    var peers, valid := [primary, primary, standby], [true, true, true];
    assert OwnsAll(peers, valid, 0) && OwnsAll(peers, valid, 1);
    assert Is(peers, valid, 2, StatusStandby);
    assert Verdict(peers, valid, true, 2) == StatusStandby;
    assert FirstAlwaysMaster(peers, 3) == -1 && FirstAlwaysMaster(peers, 2) == -1 && FirstAlwaysMaster(peers, 1) == -1;
  }

  // Which of two primaries stays is decided by the host and the port the standby
  // streams from; an empty host means a local socket, whose directory starts
  // with a slash.
  predicate Connects(host: string, port: int, fromHost: string, fromPort: int) {
    port == fromPort && (host == fromHost || (fromHost == "" && |host| > 0 && host[0] == '/'))
  }

  ghost function TwoPrimaries(h0: string, p0: int, h1: string, p1: int, from: WalReceiver, version: int): seq<Peer> {
    [Peer(h0, p0, false, true, NotInRecovery, NoRow, version),
     Peer(h1, p1, false, true, NotInRecovery, NoRow, version),
     Peer("standby", 5433, false, true, InRecovery, from, version)]
  }

  lemma {:induction false} OwnersOfTwo(h0: string, p0: int, h1: string, p1: int, from: WalReceiver, version: int)
    ensures var peers, valid := TwoPrimaries(h0, p0, h1, p1, from, version), [true, true, true];
            && (forall i :: OwnsAll(peers, valid, i) <==>
                  && 0 <= i < 2 && from.Streams?
                  && (if i == 0 then Connects(h0, p0, from.host, from.port) else Connects(h1, p1, from.host, from.port)))
            && (forall i :: Is(peers, valid, i, StatusPrimary) <==> i == 0 || i == 1)
            && Is(peers, valid, 2, StatusStandby)
            && FirstAlwaysMaster(peers, 0) == -1
  {
    var peers, valid := TwoPrimaries(h0, p0, h1, p1, from, version), [true, true, true];
    assert FirstAlwaysMaster(peers, 3) == -1 && FirstAlwaysMaster(peers, 2) == -1 && FirstAlwaysMaster(peers, 1) == -1;
    assert Is(peers, valid, 2, StatusStandby);
    assert Is(peers, valid, 0, StatusPrimary) && Is(peers, valid, 1, StatusPrimary);
    assert forall j :: Is(peers, valid, j, StatusStandby) ==> j == 2;
  }

  lemma {:induction false} StandbyDecides(cfg: Config, h0: string, p0: int, h1: string, p1: int, from: WalReceiver, version: int)
    requires cfg.SlMode() && version >= 90600
    ensures var peers, valid := TwoPrimaries(h0, p0, h1, p1, from, version), [true, true, true];
            var zero := from.Streams? && Connects(h0, p0, from.host, from.port);
            var one := from.Streams? && Connects(h1, p1, from.host, from.port);
            && (KeepsPrimary(peers, valid, true, 0) <==> zero || !one)
            && (KeepsPrimary(peers, valid, true, 1) <==> one || !zero)
            && FindPrimary(cfg, peers, valid, true) == if one || !zero then 1 else 0
  {
    var peers, valid := TwoPrimaries(h0, p0, h1, p1, from, version), [true, true, true];
    OwnersOfTwo(h0, p0, h1, p1, from, version);
    assert valid[0] && peers[0].version >= WAL_RECEIVER_VERSION;
    assert AnyIs(peers, valid, StatusStandby);
    assert OwnsAll(peers, valid, 0) <==> from.Streams? && Connects(h0, p0, from.host, from.port);
    assert OwnsAll(peers, valid, 1) <==> from.Streams? && Connects(h1, p1, from.host, from.port);
    assert Verdict(peers, valid, true, 2) == StatusStandby;
  }

  // Without any standby the first of several primaries stays; the others become
  // invalid if detaching is on and are merely left out otherwise.
  lemma {:induction false} FirstPrimaryStays(peers: seq<Peer>, valid: seq<bool>, detach: bool, i: nat, j: nat)
    requires |valid| == |peers| && i < j < |peers| && (forall k :: !Is(peers, valid, k, StatusStandby))
    requires Is(peers, valid, i, StatusPrimary) && Is(peers, valid, j, StatusPrimary)
    requires forall k :: k < i ==> !Is(peers, valid, k, StatusPrimary)
    ensures Verdict(peers, valid, detach, i) == StatusPrimary
    ensures Verdict(peers, valid, detach, j) == if detach then StatusInvalid else StatusUnused
  {
  }

  // Servers older than 9.6 cannot be asked, and then nobody is detached.
  lemma {:induction false} OldServersKeepAll(h0: string, p0: int, h1: string, p1: int, from: WalReceiver, version: int)
    requires version < 90600
    ensures var peers, valid := TwoPrimaries(h0, p0, h1, p1, from, version), [true, true, true];
            KeepsPrimary(peers, valid, true, 0) && KeepsPrimary(peers, valid, true, 1)
  {
    var peers, valid := TwoPrimaries(h0, p0, h1, p1, from, version), [true, true, true];
    OwnersOfTwo(h0, p0, h1, p1, from, version);
    assert !NewEnough(peers, valid);
  }

  // ----- the repeated search used by the failover routine -----

  function Lives(info: seq<Backend>, n: nat): (v: seq<bool>)
    requires n <= |info|
    ensures |v| == n && forall i | 0 <= i < n :: v[i] == info[i].Live()
  {
    seq(n, i requires 0 <= i < n => info[i].Live())
  }

  // Attempts k, k+1, ... before the timeout; attempt k sees the answers env(k).
  ghost function SearchFrom(cfg: Config, env: nat -> seq<Peer>, detach: bool, timeout: nat, info: seq<Backend>, k: nat): int
    requires cfg.numBackends <= |info| && forall j: nat :: |env(j)| == cfg.numBackends
    decreases timeout - k
  {
    if k >= timeout then -1
    else
      var p := FindPrimary(cfg, env(k), Lives(info, cfg.numBackends), detach);
      if p != -1 then p else SearchFrom(cfg, env, detach, timeout, info, k + 1)
  }

  ghost function Search(cfg: Config, env: nat -> seq<Peer>, detach: bool, timeout: nat, info: seq<Backend>): int
    requires cfg.numBackends <= |info| && forall j: nat :: |env(j)| == cfg.numBackends
  {
    if !cfg.SlMode() || NoneLive(info, cfg.numBackends) then -1
    else SearchFrom(cfg, env, detach, timeout, info, 0)
  }

  // A node flagged as always master is the answer, whatever its state; of
  // several the first.
  lemma {:induction false} AlwaysMasterFound(cfg: Config, peers: seq<Peer>, valid: seq<bool>, detach: bool, i: nat)
    requires cfg.SlMode() && |valid| == |peers| && i < |peers| && peers[i].alwaysMaster
    requires forall k | 0 <= k < i :: !peers[k].alwaysMaster
    ensures FindPrimary(cfg, peers, valid, detach) == i
  {
    FlaggedFrom(peers, 0, i);
  }

  lemma {:induction false} FlaggedFrom(peers: seq<Peer>, k: nat, i: nat)
    requires k <= i < |peers| && peers[i].alwaysMaster && forall j | k <= j < i :: !peers[j].alwaysMaster
    ensures FirstAlwaysMaster(peers, k) == i
    decreases i - k
  {
    if k < i {
      FlaggedFrom(peers, k + 1, i);
    }
  }

  // The search gives the first attempt's answer that is not -1, and -1 if there
  // is none before the limit, or no live node, or no primary to look for.
  lemma {:induction false} SearchIsFirst(cfg: Config, env: nat -> seq<Peer>, detach: bool, limit: nat, info: seq<Backend>, k: nat)
    requires cfg.numBackends <= |info| && (forall j: nat :: |env(j)| == cfg.numBackends) && k <= limit
    requires forall j: nat | j < k :: FindPrimary(cfg, env(j), Lives(info, cfg.numBackends), detach) == -1
    requires k < limit ==> FindPrimary(cfg, env(k), Lives(info, cfg.numBackends), detach) != -1
    ensures Search(cfg, env, detach, limit, info) ==
            if cfg.mode != Streaming && cfg.mode != Logical then -1
            else if forall i | 0 <= i < cfg.numBackends :: !info[i].Live() then -1
            else if k < limit then FindPrimary(cfg, env(k), Lives(info, cfg.numBackends), detach)
            else -1
  {
    SearchReaches(cfg, env, detach, limit, info, 0, k);
  }

  lemma {:induction false} SearchReaches(cfg: Config, env: nat -> seq<Peer>, detach: bool, limit: nat, info: seq<Backend>, from: nat, k: nat)
    requires cfg.numBackends <= |info| && (forall j: nat :: |env(j)| == cfg.numBackends) && from <= k <= limit
    requires forall j: nat | from <= j < k :: FindPrimary(cfg, env(j), Lives(info, cfg.numBackends), detach) == -1
    ensures SearchFrom(cfg, env, detach, limit, info, from) == SearchFrom(cfg, env, detach, limit, info, k)
    decreases k - from
  {
    if from < k {
      SearchReaches(cfg, env, detach, limit, info, from + 1, k);
    }
  }

  // A success within a limit is the answer under every larger limit.
  lemma {:induction false} LongerSearchAgrees(cfg: Config, env: nat -> seq<Peer>, detach: bool, limit: nat, longer: nat, info: seq<Backend>, k: nat)
    requires cfg.numBackends <= |info| && (forall j: nat :: |env(j)| == cfg.numBackends) && limit <= longer
    requires SearchFrom(cfg, env, detach, limit, info, k) != -1
    ensures SearchFrom(cfg, env, detach, longer, info, k) == SearchFrom(cfg, env, detach, limit, info, k)
    decreases limit - k
  {
    if FindPrimary(cfg, env(k), Lives(info, cfg.numBackends), detach) == -1 {
      LongerSearchAgrees(cfg, env, detach, limit, longer, info, k + 1);
    }
  }

  // A timeout of 0 searches until an attempt succeeds; the call then returns
  // only because some attempt, number `until`, does.
  method FindPrimaryNodeRepeatedly(cfg: Config, env: nat -> seq<Peer>, detach: bool, timeout: nat,
                                   info: seq<Backend>, status: array<NodeStatus>, ghost until: nat) returns (p: int)
    requires cfg.numBackends <= |info| && cfg.numBackends <= status.Length
    requires forall j: nat :: |env(j)| == cfg.numBackends
    requires timeout == 0 ==> FindPrimary(cfg, env(until), Lives(info, cfg.numBackends), detach) != -1
    modifies status
    ensures p == Search(cfg, env, detach, if timeout == 0 then until + 1 else timeout, info)
  {
    p := -1;
    if !cfg.SlMode() {
      return;
    }
    var i := 0;
    while i < cfg.numBackends && !info[i].Live()
      invariant 0 <= i <= cfg.numBackends && NoneLive(info, i)
    {
      i := i + 1;
    }
    if i == cfg.numBackends {
      return;
    }
    var sec: nat := 0;
    ghost var limit := if timeout == 0 then until + 1 else timeout;
    while timeout == 0 || sec < timeout
      invariant sec <= limit && p == -1
      invariant timeout == 0 ==> sec <= until
      invariant Search(cfg, env, detach, limit, info) == SearchFrom(cfg, env, detach, limit, info, sec)
      decreases limit - sec
    {
      p := FindPrimaryNode(cfg, env(sec), Lives(info, cfg.numBackends), detach, status);
      if p != -1 {
        break;
      }
      sec := sec + 1;
    }
  }

  lemma {:induction false} SearchFromIsLive(cfg: Config, env: nat -> seq<Peer>, detach: bool, timeout: nat, info: seq<Backend>, k: nat)
    requires cfg.numBackends <= |info| && forall j: nat :: |env(j)| == cfg.numBackends
    requires forall j: nat :: FirstAlwaysMaster(env(j), 0) == -1
    ensures var p := SearchFrom(cfg, env, detach, timeout, info, k); p == -1 || (0 <= p < cfg.numBackends && info[p].Live())
    decreases timeout - k
  {
    if k < timeout {
      FoundIsValid(cfg, env(k), Lives(info, cfg.numBackends), detach);
      SearchFromIsLive(cfg, env, detach, timeout, info, k + 1);
    }
  }

  // The search meets what the failover routine relies on.
  lemma {:induction false} SearchFinds(cfg: Config, env: nat -> seq<Peer>, detach: bool, timeout: nat, finder: seq<Backend> -> int)
    requires cfg.Valid() && (forall j: nat :: |env(j)| == cfg.numBackends && FirstAlwaysMaster(env(j), 0) == -1)
    requires forall info: seq<Backend> :: |info| == MAX_NUM_BACKENDS ==> finder(info) == Search(cfg, env, detach, timeout, info)
    ensures Finds(cfg, finder)
  {
    forall info: seq<Backend> | |info| == MAX_NUM_BACKENDS
      ensures finder(info) == -1 || (0 <= finder(info) < cfg.numBackends && info[finder(info)].Live())
    {
      SearchFromIsLive(cfg, env, detach, timeout, info, 0);
    }
  }
}
