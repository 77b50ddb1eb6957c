/** The node-request queue that every pgpool-II process shares: ten slots used
    as a ring, a head and a tail counter that only grow, and a request copied
    into a slot by value.  Kinds, detail flags and sizes follow pool.h. */
module RequestRing {

  const MAX_REQUEST_QUEUE_SIZE: nat := 10
  const MAX_NUM_BACKENDS: nat := 128

  const REQ_DETAIL_UPDATE: bv8 := 0x08

  datatype Kind = NodeUp | NodeDown | CloseIdle | PromoteNode | NodeQuarantine

  datatype Request = Request(kind: Kind, details: bv8, nodes: seq<int>)

  // One slot of shared memory: the node array keeps stale entries past `count`.
  datatype Slot = Slot(kind: Kind, details: bv8, nodeId: seq<int>, count: nat) {
    predicate Valid() {
      count <= |nodeId| == MAX_NUM_BACKENDS
    }

    function Read(): Request
      requires Valid()
    {
      Request(kind, details, nodeId[..count])
    }

    // The copy into a slot overwrites only the first `count` node ids.
    function Write(r: Request): (s: Slot)
      requires Valid() && |r.nodes| <= MAX_NUM_BACKENDS
      ensures s.Valid() && s.Read() == r
      ensures s.nodeId[|r.nodes|..] == nodeId[|r.nodes|..]
    {
      Slot(r.kind, r.details, r.nodes + nodeId[|r.nodes|..], |r.nodes|)
    }
  }

  // The whole shared record as a value.
  datatype Ring = Ring(head: int, tail: int, slots: seq<Request>) {

    ghost predicate Valid() {
      && |slots| == MAX_REQUEST_QUEUE_SIZE
      && -1 <= head <= tail <= head + MAX_REQUEST_QUEUE_SIZE
    }

    predicate Full() {
      tail - MAX_REQUEST_QUEUE_SIZE == head
    }

    // The requests at counters from+1 .. to, oldest first.
    ghost function Window(from: int, to: int): (w: seq<Request>)
      requires |slots| == MAX_REQUEST_QUEUE_SIZE && -1 <= from <= to
      ensures |w| == to - from
    {
      seq(to - from, i requires 0 <= i < to - from => slots[(from + 1 + i) % MAX_REQUEST_QUEUE_SIZE])
    }

    ghost function Contents(): (w: seq<Request>)
      requires Valid()
    {
      Window(head, tail)
    }
  }

  // Distinct counters less than one lap apart use distinct slots.
  lemma SlotsDistinct(a: int, b: int)
    requires 0 <= a < b < a + MAX_REQUEST_QUEUE_SIZE
    ensures a % MAX_REQUEST_QUEUE_SIZE != b % MAX_REQUEST_QUEUE_SIZE
  {
  }

  // Writing the slot of the newest counter leaves every older pending request in place.
  lemma WriteKeepsWindow(r: Ring, from: int, to: int, q: Request)
    requires |r.slots| == MAX_REQUEST_QUEUE_SIZE && -1 <= from < to <= from + MAX_REQUEST_QUEUE_SIZE
    ensures r.(slots := r.slots[to % MAX_REQUEST_QUEUE_SIZE := q]).Window(from, to)
         == r.Window(from, to - 1) + [q]
  {
    var r' := r.(slots := r.slots[to % MAX_REQUEST_QUEUE_SIZE := q]);
    forall i | 0 <= i < to - 1 - from
      ensures r'.Window(from, to)[i] == r.Window(from, to - 1)[i]
    {
      SlotsDistinct(from + 1 + i, to);
    }
  }

  // The imperative form: registration and draining as the C code performs them.
  class RequestInfo {
    var head: int
    var tail: int
    var switching: bool
    const slots: array<Slot>

    ghost predicate Valid()
      reads this, slots
    {
      && slots.Length == MAX_REQUEST_QUEUE_SIZE
      && (forall i | 0 <= i < slots.Length :: slots[i].Valid())
      && -1 <= head <= tail <= head + MAX_REQUEST_QUEUE_SIZE
    }

    ghost function Value(): (r: Ring)
      reads this, slots
      requires Valid()
      ensures r.Valid()
    {
      Ring(head, tail, seq(slots.Length, i requires 0 <= i < slots.Length reads this, slots =>
        if slots[i].Valid() then slots[i].Read() else Request(CloseIdle, 0, [])))
    }

    ghost function Contents(): seq<Request>
      reads this, slots
      requires Valid()
    {
      Value().Contents()
    }

    constructor ()
      ensures Valid() && fresh(slots) && Contents() == [] && !switching
    {
      head, tail, switching := -1, -1, false;
      slots := new Slot[MAX_REQUEST_QUEUE_SIZE](_ => Slot(CloseIdle, 0, seq(MAX_NUM_BACKENDS, i => 0), 0));
    }

    // The part of register_node_operation_request between lock and unlock: a
    // full queue rejects and changes nothing, otherwise the request joins the end.
    method Register(r: Request) returns (accepted: bool, failoverInProgress: bool)
      requires Valid() && |r.nodes| <= MAX_NUM_BACKENDS
      modifies this`tail, slots
      ensures Valid()
      ensures accepted <==> |old(Contents())| < 10
      ensures Contents() == if accepted then old(Contents()) + [r] else old(Contents())
      ensures accepted ==> failoverInProgress == switching
      ensures !accepted ==> tail == old(tail) && slots[..] == old(slots[..])
    {
      if tail - MAX_REQUEST_QUEUE_SIZE == head {
        return false, false;
      }
      ghost var before := Value();
      tail := tail + 1;
      var index := tail % MAX_REQUEST_QUEUE_SIZE;
      slots[index] := slots[index].Write(r);
      assert Value() == before.(tail := tail).(slots := before.slots[index := r]);
      WriteKeepsWindow(before.(tail := tail), head, tail, r);
      assert before.(tail := tail).Window(head, tail - 1) == before.Contents();
      return true, switching;
    }

    // The failover routine announces itself before it looks at the queue.
    method BeginSwitching()
      requires Valid()
      modifies this`switching
      ensures Valid() && switching && Contents() == old(Contents())
    {
      switching := true;
      assert Value() == old(Value());
    }

    // One turn of the draining loop: empty ends the switching phase, otherwise
    // the oldest request is copied out.
    method Drain() returns (found: bool, r: Request)
      requires Valid()
      modifies this`head, this`switching
      ensures Valid() && slots[..] == old(slots[..])
      ensures found <==> old(Contents()) != []
      ensures found ==> [r] + Contents() == old(Contents()) && switching == old(switching)
      ensures !found ==> head == old(head) && !switching
    {
      r := Request(CloseIdle, 0, []);
      if tail == head {
        switching := false;
        return false, r;
      }
      head := head + 1;
      r := slots[head % MAX_REQUEST_QUEUE_SIZE].Read();
      found := true;
      assert [r] + Contents() == old(Contents());
    }
  }
}
