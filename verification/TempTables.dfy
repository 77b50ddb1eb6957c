/** The session's list of temporary tables: entries follow the transaction that
    creates or drops them, and commit and abort walk the list again from the
    start after every deletion. */
module TempTables {

  const MAX_IDENTIFIER_LEN: nat := 128

  datatype TableState = Creating | Dropping | CreateCommitted | DropCommitted

  datatype Table = Table(name: string, state: TableState)

  // What a fixed-size name buffer keeps of a name.
  function Truncate(name: string): (t: string)
    ensures |name| < MAX_IDENTIFIER_LEN ==> t == name
  {
    if |name| < MAX_IDENTIFIER_LEN then name else name[..MAX_IDENTIFIER_LEN - 1]
  }

  // ----- single-pass descriptions -----

  // The first entry with a name, or the length of the list.
  function Find(ts: seq<Table>, name: string): (i: nat)
    ensures i <= |ts| && (i < |ts| ==> ts[i].name == name)
    ensures forall k | 0 <= k < i :: ts[k].name != name
  {
    if ts == [] || ts[0].name == name then 0 else
      var i := Find(ts[1..], name);
      assert forall k | 1 <= k < i + 1 :: ts[k] == ts[1..][k - 1];
      1 + i
  }

  function Added(ts: seq<Table>, name: string, s: TableState): seq<Table> {
    var i := Find(ts, name);
    if i < |ts| then ts[i := ts[i].(state := s)] else ts + [Table(Truncate(name), s)]
  }

  // An entry already dropped and committed goes; any other takes the state.
  function Deleted(ts: seq<Table>, name: string, s: TableState): seq<Table> {
    var i := Find(ts, name);
    if i == |ts| then ts
    else if ts[i].state.DropCommitted? then ts[..i] + ts[i + 1..]
    else ts[i := ts[i].(state := s)]
  }

  function Settle(t: Table): Table {
    if t.state.Creating? then t.(state := CreateCommitted) else t
  }

  function Committed(ts: seq<Table>): seq<Table> {
    if ts == [] then []
    else (if ts[0].state.Dropping? then [] else [Settle(ts[0])]) + Committed(ts[1..])
  }

  function Aborted(ts: seq<Table>): seq<Table> {
    if ts == [] then []
    else (if ts[0].state.Creating? || ts[0].state.Dropping? then [] else [ts[0]]) + Aborted(ts[1..])
  }

  lemma {:induction false} CommittedConcat(a: seq<Table>, b: seq<Table>)
    ensures Committed(a + b) == Committed(a) + Committed(b)
  {
    if a == [] {
      assert a + b == b;
    } else {
      assert (a + b)[1..] == a[1..] + b;
      CommittedConcat(a[1..], b);
    }
  }

  lemma {:induction false} AbortedConcat(a: seq<Table>, b: seq<Table>)
    ensures Aborted(a + b) == Aborted(a) + Aborted(b)
  {
    if a == [] {
      assert a + b == b;
    } else {
      assert (a + b)[1..] == a[1..] + b;
      AbortedConcat(a[1..], b);
    }
  }

  ghost predicate Settled(ts: seq<Table>) {
    forall i | 0 <= i < |ts| :: !ts[i].state.Creating? && !ts[i].state.Dropping?
  }

  // A list without pending entries is what commit and abort leave.
  lemma {:induction false} SettledStays(ts: seq<Table>)
    requires Settled(ts)
    ensures Committed(ts) == ts && Aborted(ts) == ts
  {
    if ts != [] {
      SettledStays(ts[1..]);
    }
  }

  lemma {:induction false} CommitSettles(ts: seq<Table>)
    ensures Settled(Committed(ts)) && Settled(Aborted(ts))
  {
    if ts != [] {
      CommitSettles(ts[1..]);
    }
  }

  // Replacing one entry by what commit makes of it, or deleting a dropping one,
  // does not change the outcome of the commit.
  lemma {:induction false} CommitStep(ts: seq<Table>, i: nat)
    requires i < |ts|
    ensures Committed(ts[i := Settle(ts[i])]) == Committed(ts)
    ensures ts[i].state.Dropping? ==> Committed(ts[..i] + ts[i + 1..]) == Committed(ts)
  {
    var t := ts[i];
    assert ts == ts[..i] + ([t] + ts[i + 1..]);
    assert ts[i := Settle(t)] == ts[..i] + ([Settle(t)] + ts[i + 1..]);
    CommittedConcat(ts[..i], [t] + ts[i + 1..]);
    CommittedConcat(ts[..i], [Settle(t)] + ts[i + 1..]);
    CommittedConcat(ts[..i], ts[i + 1..]);
    assert ([t] + ts[i + 1..])[1..] == ts[i + 1..] == ([Settle(t)] + ts[i + 1..])[1..];
  }

  lemma {:induction false} AbortStep(ts: seq<Table>, i: nat)
    requires i < |ts| && (ts[i].state.Creating? || ts[i].state.Dropping?)
    ensures Aborted(ts[..i] + ts[i + 1..]) == Aborted(ts)
  {
    assert ts == ts[..i] + ([ts[i]] + ts[i + 1..]);
    AbortedConcat(ts[..i], [ts[i]] + ts[i + 1..]);
    AbortedConcat(ts[..i], ts[i + 1..]);
    assert ([ts[i]] + ts[i + 1..])[1..] == ts[i + 1..];
  }

  // ----- the list in place -----

  class TableList {
    var tables: seq<Table>

    constructor ()
      ensures tables == []
    {
      tables := [];
    }

    method FindTable(name: string) returns (i: nat)
      ensures i == Find(tables, name)
    {
      i := 0;
      while i < |tables| && tables[i].name != name
        invariant 0 <= i <= |tables|
        invariant Find(tables, name) == i + Find(tables[i..], name)
      {
        assert tables[i..][1..] == tables[i + 1..];
        i := i + 1;
      }
    }

    method Add(name: string, s: TableState)
      modifies this
      ensures tables == Added(old(tables), name, s)
    {
      var i := FindTable(name);
      if i < |tables| {
        tables := tables[i := tables[i].(state := s)];
      } else {
        tables := tables + [Table(Truncate(name), s)];
      }
    }

    method Delete(name: string, s: TableState)
      modifies this
      ensures tables == Deleted(old(tables), name, s)
    {
      var i := FindTable(name);
      if i < |tables| {
        if tables[i].state.DropCommitted? {
          tables := tables[..i] + tables[i + 1..];
        } else {
          tables := tables[i := tables[i].(state := s)];
        }
      }
    }

    method CommitPending()
      modifies this
      ensures tables == Committed(old(tables))
    {
      var restart := true;
      while restart
        invariant Committed(tables) == Committed(old(tables))
        invariant !restart ==> Settled(tables)
        decreases |tables|, restart
      {
        restart := false;
        var i := 0;
        ghost var size := |tables|;
        while i < |tables| && !restart
          invariant 0 <= i <= |tables| && Committed(tables) == Committed(old(tables))
          invariant if restart then |tables| < size else |tables| == size && Settled(tables[..i])
          decreases |tables| - i, !restart
        {
          CommitStep(tables, i);
          if tables[i].state.Creating? {
            tables := tables[i := tables[i].(state := CreateCommitted)];
            i := i + 1;
          } else if tables[i].state.Dropping? {
            tables := tables[..i] + tables[i + 1..];
            restart := true;
          } else {
            i := i + 1;
          }
        }
      }
      SettledStays(tables);
    }

    method RemovePending()
      modifies this
      ensures tables == Aborted(old(tables))
    {
      var restart := true;
      while restart
        invariant Aborted(tables) == Aborted(old(tables))
        invariant !restart ==> Settled(tables)
        decreases |tables|, restart
      {
        restart := false;
        var i := 0;
        ghost var size := |tables|;
        while i < |tables| && !restart
          invariant 0 <= i <= |tables| && Aborted(tables) == Aborted(old(tables))
          invariant if restart then |tables| < size else |tables| == size && Settled(tables[..i])
          decreases |tables| - i, !restart
        {
          if tables[i].state.Creating? || tables[i].state.Dropping? {
            AbortStep(tables, i);
            tables := tables[..i] + tables[i + 1..];
            restart := true;
          } else {
            i := i + 1;
          }
        }
      }
      SettledStays(tables);
    }
  }

  // ----- which entries survive -----

  lemma {:induction false} CommittedMembers(ts: seq<Table>, t: Table)
    ensures t in Committed(ts) <==>
            || (t in ts && t.state != Dropping && t.state != Creating)
            || (t.state == CreateCommitted && Table(t.name, Creating) in ts)
  {
    if ts != [] {
      CommittedMembers(ts[1..], t);
      assert forall u :: u in ts <==> u == ts[0] || u in ts[1..];
    }
  }

  lemma {:induction false} AbortedMembers(ts: seq<Table>, t: Table)
    ensures t in Aborted(ts) <==> t in ts && !t.state.Creating? && !t.state.Dropping?
  {
    if ts != [] {
      AbortedMembers(ts[1..], t);
      assert t in ts <==> t == ts[0] || t in ts[1..];
    }
  }

  // ----- names stay distinct -----

  ghost predicate Distinct(ts: seq<Table>) {
    forall i, j | 0 <= i < j < |ts| :: ts[i].name != ts[j].name
  }

  function Names(ts: seq<Table>): (ns: set<string>)
    ensures forall n :: n in ns <==> exists i :: 0 <= i < |ts| && ts[i].name == n
  {
    set i | 0 <= i < |ts| :: ts[i].name
  }

  lemma {:induction false} CommitKeepsDistinct(ts: seq<Table>)
    requires Distinct(ts)
    ensures Distinct(Committed(ts)) && Distinct(Aborted(ts))
    ensures Names(Committed(ts)) <= Names(ts) && Names(Aborted(ts)) <= Names(ts)
  {
    if ts != [] {
      var rest := ts[1..];
      assert Distinct(rest);
      CommitKeepsDistinct(rest);
      assert Names(rest) <= Names(ts) by {
        forall n | n in Names(rest)
          ensures n in Names(ts)
        {
          var i :| 0 <= i < |rest| && rest[i].name == n;
          assert ts[i + 1].name == n;
        }
      }
      assert ts[0].name !in Names(rest);
      ConsDistinct(Settle(ts[0]), Committed(rest));
      ConsDistinct(ts[0], Aborted(rest));
    }
  }

  lemma {:induction false} ConsDistinct(t: Table, ts: seq<Table>)
    requires Distinct(ts) && t.name !in Names(ts)
    ensures Distinct([t] + ts) && Names([t] + ts) == Names(ts) + {t.name}
  {
    var s := [t] + ts;
    forall i, j | 0 <= i < j < |s|
      ensures s[i].name != s[j].name
    {
      assert s[j] == ts[j - 1] && ts[j - 1].name in Names(ts);
    }
    forall n
      ensures n in Names(s) <==> n in Names(ts) + {t.name}
    {
      if n in Names(ts) {
        var i :| 0 <= i < |ts| && ts[i].name == n;
        assert s[i + 1].name == n;
      }
      if n in Names(s) {
        var i :| 0 <= i < |s| && s[i].name == n;
        if i > 0 {
          assert ts[i - 1].name == n;
        }
      }
      assert s[0].name == t.name;
    }
  }

  datatype Op = AddOp(name: string, s: TableState) | DeleteOp(name: string, s: TableState) | CommitOp | AbortOp

  function Apply(ts: seq<Table>, op: Op): seq<Table> {
    match op
    case AddOp(name, s) => Added(ts, name, s)
    case DeleteOp(name, s) => Deleted(ts, name, s)
    case CommitOp => Committed(ts)
    case AbortOp => Aborted(ts)
  }

  function Run(ts: seq<Table>, ops: seq<Op>): seq<Table> {
    if ops == [] then ts else Apply(Run(ts, ops[..|ops| - 1]), ops[|ops| - 1])
  }

  // Over any run in which every added name fits its buffer.
  lemma {:induction false} RunKeepsDistinct(ops: seq<Op>)
    requires forall i | 0 <= i < |ops| :: ops[i].AddOp? ==> |ops[i].name| < 128
    ensures Distinct(Run([], ops))
  {
    if ops != [] {
      var before := ops[..|ops| - 1];
      RunKeepsDistinct(before);
      CommitKeepsDistinct(Run([], before));
    }
  }

  // A name that does not fit is not found again: adding it twice leaves two
  // entries with the same stored name.
  lemma {:induction false} LongNameTwice(name: string, s: TableState)
    requires |name| >= 128
    ensures !Distinct(Run([], [AddOp(name, s), AddOp(name, s)]))
  {
    var ops := [AddOp(name, s), AddOp(name, s)];
    assert ops[..1] == [AddOp(name, s)] && [AddOp(name, s)][..0] == [];
    var t := Table(Truncate(name), s);
    assert Run([], [AddOp(name, s)]) == [t];
    assert Find([t], name) == 1;
    var two := Run([], ops);
    assert two == [t, t] && two[0].name == two[1].name;
  }

  // Exactly when adding keeps the names distinct: the name is found, or what
  // its buffer keeps of it is not yet there.
  lemma {:induction false} AddKeepsDistinctIff(ts: seq<Table>, name: string, s: TableState)
    requires Distinct(ts)
    ensures Distinct(Added(ts, name, s)) <==> name in Names(ts) || Truncate(name) !in Names(ts)
  {
    var i := Find(ts, name);
    var ts' := Added(ts, name, s);
    if i < |ts| {
      assert ts[i].name in Names(ts);
    } else {
      assert name !in Names(ts);
      if k :| 0 <= k < |ts| && ts[k].name == Truncate(name) {
        assert ts'[k].name == ts'[|ts|].name;
      } else {
        assert forall k | 0 <= k < |ts| :: ts[k].name in Names(ts);
      }
    }
  }

  // ----- the list as a table of states -----

  datatype Stated = Absent | In(state: TableState)

  function StateOf(ts: seq<Table>, name: string): Stated {
    if Find(ts, name) < |ts| then In(ts[Find(ts, name)].state) else Absent
  }

  lemma {:induction false} StateIff(ts: seq<Table>, name: string, st: TableState)
    requires Distinct(ts)
    ensures StateOf(ts, name) == In(st) <==> Table(name, st) in ts
  {
    var i := Find(ts, name);
    if Table(name, st) in ts {
      var k :| 0 <= k < |ts| && ts[k] == Table(name, st);
      assert i == k;
    }
  }

  lemma {:induction false} AbsentIff(ts: seq<Table>, name: string)
    requires Distinct(ts)
    ensures StateOf(ts, name) == Absent <==> forall st :: Table(name, st) !in ts
  {
    if Find(ts, name) < |ts| {
      assert ts[Find(ts, name)] == Table(name, ts[Find(ts, name)].state);
    }
  }

  // Adding a name gives it the state; deleting it removes an entry whose drop is
  // committed and gives any other the state; no other name is touched.
  lemma {:induction false} AddedStates(ts: seq<Table>, name: string, s: TableState, other: string)
    requires |name| < 128
    ensures StateOf(Added(ts, name, s), other) == if other == name then In(s) else StateOf(ts, other)
  {
    FirstIs(Added(ts, name, s), other, if other == name then Find(ts, name) else if Find(ts, other) < |ts| then Find(ts, other) else |Added(ts, name, s)|);
  }

  lemma FirstIs(ts: seq<Table>, name: string, i: nat)
    requires i <= |ts| && (i < |ts| ==> ts[i].name == name) && forall k | 0 <= k < i :: ts[k].name != name
    ensures Find(ts, name) == i
  {
  }

  lemma {:induction false} DeletedStates(ts: seq<Table>, name: string, s: TableState, other: string)
    requires Distinct(ts)
    ensures StateOf(Deleted(ts, name, s), other) ==
            if other != name then StateOf(ts, other)
            else if StateOf(ts, name) == Absent || StateOf(ts, name) == In(DropCommitted) then Absent
            else In(s)
  {
    var i, j := Find(ts, name), Find(ts, other);
    var r := Deleted(ts, name, s);
    if i < |ts| && ts[i].state.DropCommitted? {
      assert forall k | 0 <= k < |r| :: r[k] == if k < i then ts[k] else ts[k + 1];
      FirstIs(r, other, if other == name || j == |ts| then |r| else if j < i then j else j - 1);
    } else {
      FirstIs(r, other, j);
    }
  }

  // Commit makes a creation definite and a drop effective; abort undoes a
  // creation and, as the code has it, forgets a table whose drop it undoes.
  lemma {:induction false} CommittedStates(ts: seq<Table>, name: string)
    requires Distinct(ts)
    ensures StateOf(Committed(ts), name) ==
            match StateOf(ts, name)
            case In(Creating) => In(CreateCommitted)
            case In(Dropping) => Absent
            case other => other
  {
    CommitKeepsDistinct(ts);
    StatesOf(Committed(ts), name);
    StatesOf(ts, name);
    forall st
      ensures Table(name, st) in Committed(ts) <==>
              || (Table(name, st) in ts && st != Dropping && st != Creating) || (st == CreateCommitted && Table(name, Creating) in ts)
    {
      CommittedMembers(ts, Table(name, st));
    }
  }

  lemma {:induction false} AbortedStates(ts: seq<Table>, name: string)
    requires Distinct(ts)
    ensures StateOf(Aborted(ts), name) ==
            match StateOf(ts, name)
            case In(Creating) => Absent
            case In(Dropping) => Absent
            case other => other
  {
    CommitKeepsDistinct(ts);
    StatesOf(Aborted(ts), name);
    StatesOf(ts, name);
    forall st
      ensures Table(name, st) in Aborted(ts) <==> Table(name, st) in ts && st != Creating && st != Dropping
    {
      AbortedMembers(ts, Table(name, st));
    }
  }

  lemma {:induction false} StatesOf(ts: seq<Table>, name: string)
    requires Distinct(ts)
    ensures forall st :: StateOf(ts, name) == In(st) <==> Table(name, st) in ts
    ensures StateOf(ts, name) == Absent <==> forall st :: Table(name, st) !in ts
  {
    forall st
      ensures StateOf(ts, name) == In(st) <==> Table(name, st) in ts
    {
      StateIff(ts, name, st);
    }
    AbsentIff(ts, name);
  }
}
