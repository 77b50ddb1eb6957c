/** The session's list of sent messages (prepared statements and portals) and the
    query contexts the messages share.  A query context is destroyed together with
    the last sent message that refers to it, unless a pending message still does.
    Which contexts are alive is tracked so that "never used after destruction" can
    be stated. */
module SentMessages {
  import opened Options

  datatype MessageState = Created | Closed

  const NoKind: char := '\0'

  // Messages are compared by identity; contexts are named by numbers.
  datatype SentMessage = SentMessage(id: nat, kind: char, name: string, state: MessageState, qc: Option<nat>)

  datatype Session = Session(
    msgs: seq<SentMessage>,
    pending: seq<Option<nat>>,  // query contexts of the pending messages
    current: Option<nat>,       // the session's current query context
    inProgress: bool,
    live: set<nat>)             // contexts created and not destroyed

  // ----- the list on its own -----

  predicate Matches(m: SentMessage, kind: char, name: string) {
    m.kind == kind && m.name == name
  }

  // First message of a kind and name in any state, or the length of the list.
  function IndexOf(ms: seq<SentMessage>, kind: char, name: string): (i: nat)
    ensures i <= |ms| && (i < |ms| ==> Matches(ms[i], kind, name))
    ensures forall k | 0 <= k < i :: !Matches(ms[k], kind, name)
  {
    if ms == [] || Matches(ms[0], kind, name) then 0
    else
      var i := IndexOf(ms[1..], kind, name);
      assert forall k | 1 <= k < i + 1 :: ms[k] == ms[1..][k - 1];
      1 + i
  }

  // First message of a kind and name in a given state.
  function IndexIn(ms: seq<SentMessage>, kind: char, name: string, state: MessageState): (i: nat)
    ensures i <= |ms| && (i < |ms| ==> Matches(ms[i], kind, name) && ms[i].state == state)
    ensures forall k | 0 <= k < i :: !(Matches(ms[k], kind, name) && ms[k].state == state)
  {
    if ms == [] || (Matches(ms[0], kind, name) && ms[0].state == state) then 0
    else
      var i := IndexIn(ms[1..], kind, name, state);
      assert forall k | 1 <= k < i + 1 :: ms[k] == ms[1..][k - 1];
      1 + i
  }

  function Drop(ms: seq<SentMessage>, i: nat): seq<SentMessage>
    requires i < |ms|
  {
    ms[..i] + ms[i + 1..]
  }

  function Others(ms: seq<SentMessage>, kind: char): seq<SentMessage> {
    if ms == [] then [] else (if ms[0].kind == kind then [] else [ms[0]]) + Others(ms[1..], kind)
  }

  // The contexts the messages refer to, and the pending ones.
  function Contexts(ms: seq<SentMessage>): set<nat> {
    set i | 0 <= i < |ms| && ms[i].qc.Some? :: ms[i].qc.value
  }

  function Pending(ps: seq<Option<nat>>): set<nat> {
    set i | 0 <= i < |ps| && ps[i].Some? :: ps[i].value
  }

  function Uses(ms: seq<SentMessage>, q: nat): nat {
    if ms == [] then 0 else (if ms[0].qc == Some(q) then 1 else 0) + Uses(ms[1..], q)
  }

  lemma {:induction false} UsesNone(ms: seq<SentMessage>, q: nat)
    ensures Uses(ms, q) == 0 <==> q !in Contexts(ms)
  {
    if ms != [] {
      UsesNone(ms[1..], q);
      ContextsCons(ms);
    }
  }

  lemma {:induction false} ContextsCons(ms: seq<SentMessage>)
    requires ms != []
    ensures Contexts(ms) == (if ms[0].qc.Some? then {ms[0].qc.value} else {}) + Contexts(ms[1..])
  {
    var tail := ms[1..];
    forall q | q in Contexts(tail)
      ensures q in Contexts(ms)
    {
      var i :| 0 <= i < |tail| && tail[i].qc.Some? && tail[i].qc.value == q;
      assert ms[i + 1].qc == Some(q);
    }
    forall q | q in Contexts(ms)
      ensures q in (if ms[0].qc.Some? then {ms[0].qc.value} else {}) + Contexts(tail)
    {
      var i :| 0 <= i < |ms| && ms[i].qc.Some? && ms[i].qc.value == q;
      if i > 0 {
        assert tail[i - 1].qc == Some(q);
      }
    }
  }

  lemma {:induction false} ContextsConcat(a: seq<SentMessage>, b: seq<SentMessage>)
    ensures Contexts(a + b) == Contexts(a) + Contexts(b)
  {
    forall q
      ensures q in Contexts(a + b) <==> q in Contexts(a) + Contexts(b)
    {
      if q in Contexts(a) {
        var i :| 0 <= i < |a| && a[i].qc.Some? && a[i].qc.value == q;
        assert (a + b)[i].qc == Some(q);
      }
      if q in Contexts(b) {
        var i :| 0 <= i < |b| && b[i].qc.Some? && b[i].qc.value == q;
        assert (a + b)[|a| + i].qc == Some(q);
      }
      if q in Contexts(a + b) {
        var i :| 0 <= i < |a + b| && (a + b)[i].qc.Some? && (a + b)[i].qc.value == q;
        if i < |a| {
          assert a[i].qc == Some(q);
        } else {
          assert b[i - |a|].qc == Some(q);
        }
      }
    }
  }

  lemma {:induction false} UsesConcat(a: seq<SentMessage>, b: seq<SentMessage>, q: nat)
    ensures Uses(a + b, q) == Uses(a, q) + Uses(b, q)
  {
    if a == [] {
      assert a + b == b;
    } else {
      assert (a + b)[1..] == a[1..] + b;
      UsesConcat(a[1..], b, q);
    }
  }

  // A message's context is used once in the list exactly when no other message has it.
  lemma {:induction false} UsedOnce(ms: seq<SentMessage>, i: nat, q: nat)
    requires i < |ms| && ms[i].qc == Some(q)
    ensures Uses(ms, q) <= 1 <==> q !in Contexts(Drop(ms, i))
    ensures Contexts(ms) == Contexts(Drop(ms, i)) + {q}
  {
    assert ms == ms[..i] + ([ms[i]] + ms[i + 1..]);
    UsesConcat(ms[..i], [ms[i]] + ms[i + 1..], q);
    UsesConcat([ms[i]], ms[i + 1..], q);
    UsesConcat(ms[..i], ms[i + 1..], q);
    UsesNone(Drop(ms, i), q);
    ContextsConcat(ms[..i], [ms[i]] + ms[i + 1..]);
    ContextsConcat([ms[i]], ms[i + 1..]);
    ContextsConcat(ms[..i], ms[i + 1..]);
    assert Uses([ms[i]], q) == 1;
    assert Contexts([ms[i]]) == {q} by {
      assert [ms[i]][0].qc == Some(q);
    }
  }

  lemma {:induction false} DropSubset(ms: seq<SentMessage>, i: nat)
    requires i < |ms|
    ensures Contexts(Drop(ms, i)) <= Contexts(ms)
    ensures ms[i].qc.None? ==> Contexts(Drop(ms, i)) == Contexts(ms)
  {
    assert ms == ms[..i] + ([ms[i]] + ms[i + 1..]);
    ContextsConcat(ms[..i], [ms[i]] + ms[i + 1..]);
    ContextsConcat([ms[i]], ms[i + 1..]);
    ContextsConcat(ms[..i], ms[i + 1..]);
  }

  // ----- what removing messages does to the session -----

  // The session once its list has shrunk to `rest`: contexts whose last message
  // went and which nothing pending refers to are gone, and the current query
  // context is forgotten if it is one of them.
  ghost function Without(s: Session, rest: seq<SentMessage>): Session {
    var dead := Contexts(s.msgs) - Contexts(rest) - Pending(s.pending);
    s.(msgs := rest, live := s.live - dead,
       current := if s.current.Some? && s.current.value in dead then None else s.current)
  }

  // The shrinking may be done in stages.
  lemma {:induction false} WithoutStages(s: Session, r1: seq<SentMessage>, r2: seq<SentMessage>)
    requires Contexts(r2) <= Contexts(r1) <= Contexts(s.msgs)
    ensures Without(Without(s, r1), r2) == Without(s, r2)
  {
  }

  predicate CanDestroy(s: Session, q: nat) {
    Uses(s.msgs, q) <= 1 && Some(q) !in s.pending
  }

  // pool_query_context_destroy
  function DestroyContext(s: Session, q: nat): Session {
    s.(live := s.live - {q}, current := None, inProgress := false)
  }

  // pool_sent_message_destroy: flag and pointer are put back afterwards.
  function DestroyMessage(s: Session, m: SentMessage): Session {
    if m.qc.Some? && CanDestroy(s, m.qc.value) then
      var d := DestroyContext(s, m.qc.value);
      d.(inProgress := s.inProgress, current := if s.current != m.qc then s.current else None)
    else s
  }

  // Destroying message i and closing the gap is the shrinking by one message.
  lemma {:induction false} DestroyIsWithout(s: Session, i: nat)
    requires i < |s.msgs|
    ensures DestroyMessage(s, s.msgs[i]).(msgs := Drop(s.msgs, i)) == Without(s, Drop(s.msgs, i))
  {
    var m := s.msgs[i];
    if m.qc.Some? {
      var q := m.qc.value;
      UsedOnce(s.msgs, i, q);
      assert Some(q) in s.pending <==> q in Pending(s.pending) by {
        if Some(q) in s.pending {
          var k :| 0 <= k < |s.pending| && s.pending[k] == Some(q);
          assert s.pending[k].value in Pending(s.pending);
        }
      }
      var dead := Contexts(s.msgs) - Contexts(Drop(s.msgs, i)) - Pending(s.pending);
      assert dead == if CanDestroy(s, q) then {q} else {};
    } else {
      DropSubset(s.msgs, i);
    }
  }

  ghost function Removed(s: Session, kind: char, name: string): Session {
    var i := IndexOf(s.msgs, kind, name);
    if i < |s.msgs| && kind != NoKind then Without(s, Drop(s.msgs, i)) else s
  }

  // pool_add_sent_message: an unnamed message replaces the one of its kind, a
  // named one is kept out while the name is taken.
  ghost function Added(s: Session, m: SentMessage): Session {
    var i := IndexIn(s.msgs, m.kind, m.name, Created);
    if i < |s.msgs| && (s.msgs[i].id == m.id || m.name != "") then s
    else
      var s' := if i < |s.msgs| then Removed(s, m.kind, m.name) else s;
      s'.(msgs := s'.msgs + [m])
  }

  // ----- safety -----

  // Every context that anything refers to is alive.
  ghost predicate Safe(s: Session) {
    && Contexts(s.msgs) <= s.live
    && Pending(s.pending) <= s.live
    && (s.current.Some? ==> s.current.value in s.live)
  }

  lemma {:induction false} WithoutSafe(s: Session, rest: seq<SentMessage>)
    requires Safe(s) && Contexts(rest) <= Contexts(s.msgs)
    ensures Safe(Without(s, rest))
  {
  }

  // A context goes exactly when the last message using it goes and nothing
  // pending uses it; one still referred to stays.
  lemma {:induction false} DestroyedIff(s: Session, rest: seq<SentMessage>, q: nat)
    requires Safe(s) && Contexts(rest) <= Contexts(s.msgs)
    ensures q in s.live && q !in Without(s, rest).live <==>
            q in Contexts(s.msgs) && q !in Contexts(rest) && q !in Pending(s.pending)
  {
  }

  // The one unsafe addition: the new message shares its context with nothing
  // but the unnamed message it replaces.
  ghost predicate LosesContext(s: Session, m: SentMessage) {
    var i := IndexIn(s.msgs, m.kind, m.name, Created);
    && i < |s.msgs| && s.msgs[i].id != m.id && m.name == "" && m.kind != NoKind && m.qc.Some?
    && var j := IndexOf(s.msgs, m.kind, m.name);
       j < |s.msgs| && s.msgs[j].qc == m.qc && m.qc.value !in Contexts(Drop(s.msgs, j)) && m.qc.value !in Pending(s.pending)
  }

  lemma {:induction false} AddSafeIff(s: Session, m: SentMessage)
    requires Safe(s) && (m.qc.Some? ==> m.qc.value in s.live)
    ensures Safe(Added(s, m)) <==> !LosesContext(s, m)
  {
    var i := IndexIn(s.msgs, m.kind, m.name, Created);
    if i < |s.msgs| && (s.msgs[i].id == m.id || m.name != "") {
    } else {
      var j := IndexOf(s.msgs, m.kind, m.name);
      var s' := if i < |s.msgs| then Removed(s, m.kind, m.name) else s;
      if i < |s.msgs| && m.kind != NoKind {
        assert j <= i;
        DropSubset(s.msgs, j);
        WithoutSafe(s, Drop(s.msgs, j));
        if s.msgs[j].qc.Some? {
          UsedOnce(s.msgs, j, s.msgs[j].qc.value);
        }
      }
      ContextsConcat(s'.msgs, [m]);
      SingleContext(m);
    }
  }

  lemma SingleContext(m: SentMessage)
    ensures Contexts([m]) == if m.qc.Some? then {m.qc.value} else {}
  {
    if m.qc.Some? {
      assert [m][0].qc.value in Contexts([m]);
    }
  }

  lemma {:induction false} OthersSubset(ms: seq<SentMessage>, kind: char)
    ensures Contexts(Others(ms, kind)) <= Contexts(ms)
  {
    if ms != [] {
      OthersSubset(ms[1..], kind);
      ContextsCons(ms);
      var head := if ms[0].kind == kind then [] else [ms[0]];
      ContextsConcat(head, Others(ms[1..], kind));
      SingleContext(ms[0]);
    }
  }

  // ----- runs -----

  datatype Op =
    | NewContext(q: nat)                 // a query starts and becomes current
    | UseContext(q: nat)                 // an existing context becomes current
    | Add(m: SentMessage)
    | Remove(kind: char, name: string)
    | RemoveKind(kind: char)
    | Clear
    | Close(i: nat)                      // message i is marked closed
    | AddPending(p: Option<nat>)
    | PullPending
    | FinishQuery                        // end of a command: see FinishedQuery

  // At the end of a command the current context goes if nothing but at most one
  // unnamed message refers to it; the message forgets it first.
  ghost predicate Finishes(s: Session) {
    && s.current.Some? && CanDestroy(s, s.current.value)
    && forall i | 0 <= i < |s.msgs| && s.msgs[i].qc == s.current :: s.msgs[i].name == ""
  }

  function Zapped(ms: seq<SentMessage>, q: nat): (r: seq<SentMessage>)
    ensures |r| == |ms|
  {
    seq(|ms|, i requires 0 <= i < |ms| => if ms[i].qc == Some(q) then ms[i].(qc := None) else ms[i])
  }

  ghost function FinishedQuery(s: Session): Session {
    if Finishes(s) then DestroyContext(s, s.current.value).(msgs := Zapped(s.msgs, s.current.value))
    else s.(inProgress := false)
  }

  // What the callers guarantee: a new context is fresh, anything stored refers
  // to a live one, and additions are not of the unsafe kind.
  ghost predicate Allowed(s: Session, op: Op) {
    match op
    case NewContext(q) => q !in s.live
    case UseContext(q) => q in s.live
    case Add(m) => (m.qc.Some? ==> m.qc.value in s.live) && !LosesContext(s, m)
    case Close(i) => i < |s.msgs|
    case AddPending(p) => p.Some? ==> p.value in s.live
    case _ => true
  }

  ghost function Apply(s: Session, op: Op): Session
    requires Allowed(s, op)
  {
    match op
    case NewContext(q) => s.(live := s.live + {q}, current := Some(q), inProgress := true)
    case UseContext(q) => s.(current := Some(q))
    case Add(m) => Added(s, m)
    case Remove(kind, name) => Removed(s, kind, name)
    case RemoveKind(kind) => Without(s, Others(s.msgs, kind))
    case Clear => Without(s, [])
    case Close(i) => s.(msgs := s.msgs[i := s.msgs[i].(state := Closed)])
    case AddPending(p) => s.(pending := s.pending + [p])
    case PullPending => if s.pending == [] then s else s.(pending := s.pending[1..])
    case FinishQuery => FinishedQuery(s)
  }

  lemma {:induction false} SimpleOpSafe(s: Session, op: Op)
    requires Safe(s) && Allowed(s, op)
    requires op.NewContext? || op.UseContext? || op.Close? || op.AddPending? || op.PullPending?
    ensures Safe(Apply(s, op))
  {
    var s' := Apply(s, op);
    if op.Close? {
      forall q | q in Contexts(s'.msgs)
        ensures q in s.live
      {
        var k :| 0 <= k < |s'.msgs| && s'.msgs[k].qc.Some? && s'.msgs[k].qc.value == q;
        assert s.msgs[k].qc == Some(q);
        assert s.msgs[k].qc.value in Contexts(s.msgs);
      }
    }
    if op.PullPending? || op.AddPending? {
      forall q | q in Pending(s'.pending)
        ensures q in s.live
      {
        var k :| 0 <= k < |s'.pending| && s'.pending[k].Some? && s'.pending[k].value == q;
        if op.AddPending? && k < |s.pending| {
          assert s.pending[k].value in Pending(s.pending);
        } else if op.PullPending? && s.pending != [] {
          assert s.pending[k + 1].value in Pending(s.pending);
        }
      }
    }
  }

  lemma {:induction false} FinishSafe(s: Session)
    requires Safe(s)
    ensures Safe(FinishedQuery(s))
  {
    if Finishes(s) {
      var q := s.current.value;
      var ms := Zapped(s.msgs, q);
      forall p | p in Contexts(ms)
        ensures p in s.live && p != q
      {
        var k :| 0 <= k < |ms| && ms[k].qc.Some? && ms[k].qc.value == p;
        assert s.msgs[k].qc == Some(p);
        assert s.msgs[k].qc.value in Contexts(s.msgs);
      }
      assert q !in Pending(s.pending);
    }
  }

  // Exactly when the end of a command destroys the current context: at most one
  // message uses it, that one is unnamed, and nothing pending uses it.
  lemma {:induction false} FinishDestroysIff(s: Session, q: nat)
    requires Safe(s) && s.current == Some(q)
    ensures q !in FinishedQuery(s).live <==>
            && Uses(s.msgs, q) <= 1 && Some(q) !in s.pending
            && forall i | 0 <= i < |s.msgs| && s.msgs[i].qc == Some(q) :: s.msgs[i].name == ""
    ensures FinishedQuery(s).live + {q} == s.live && !FinishedQuery(s).inProgress
  {
  }

  lemma {:induction false} OpSafe(s: Session, op: Op)
    requires Safe(s) && Allowed(s, op)
    ensures Safe(Apply(s, op))
  {
    match op
    case Add(m) => AddSafeIff(s, m);
    case Remove(kind, name) =>
      var i := IndexOf(s.msgs, kind, name);
      if i < |s.msgs| {
        DropSubset(s.msgs, i);
        WithoutSafe(s, Drop(s.msgs, i));
      }
    case RemoveKind(kind) =>
      OthersSubset(s.msgs, kind);
      WithoutSafe(s, Others(s.msgs, kind));
    case Clear => WithoutSafe(s, []);
    case FinishQuery => FinishSafe(s);
    case _ => SimpleOpSafe(s, op);
  }

  ghost predicate IsRun(s: Session, ops: seq<Op>)
    decreases |ops|
  {
    ops == [] || (Allowed(s, ops[0]) && IsRun(Apply(s, ops[0]), ops[1..]))
  }

  ghost function Final(s: Session, ops: seq<Op>): Session
    requires IsRun(s, ops)
    decreases |ops|
  {
    if ops == [] then s else Final(Apply(s, ops[0]), ops[1..])
  }

  // Over any run no reference to a destroyed context remains anywhere.
  lemma {:induction false} RunSafe(s: Session, ops: seq<Op>)
    requires Safe(s) && IsRun(s, ops)
    ensures Safe(Final(s, ops))
    decreases |ops|
  {
    if ops != [] {
      OpSafe(s, ops[0]);
      RunSafe(Apply(s, ops[0]), ops[1..]);
    }
  }

  const Nothing: Session := Session([], [], None, false, {})

  // The excluded addition can come about: an unnamed Parse message is recorded,
  // and then a second one for the same query context.
  lemma {:induction false} AddLosesContext(q: nat) returns (ops: seq<Op>, m: SentMessage)
    ensures IsRun(Nothing, ops) && LosesContext(Final(Nothing, ops), m)
    ensures m.qc == Some(q) && q in Final(Nothing, ops).live && Safe(Final(Nothing, ops))
    ensures m in Added(Final(Nothing, ops), m).msgs && q !in Added(Final(Nothing, ops), m).live
  {
    var first := SentMessage(1, 'P', "", Created, Some(q));
    m := SentMessage(2, 'P', "", Created, Some(q));
    ops := [NewContext(q), Add(first)];
    var s1 := Apply(Nothing, NewContext(q));
    assert s1 == Session([], [], Some(q), true, {q});
    assert IndexIn(s1.msgs, 'P', "", Created) == 0;
    var s2 := Added(s1, first);
    assert s2 == Session([first], [], Some(q), true, {q});
    assert ops[1..] == [Add(first)] && ops[1..][1..] == [];
    assert IsRun(s1, ops[1..]) && Final(s1, ops[1..]) == s2;
    assert Matches(s2.msgs[0], 'P', "");
    assert IndexOf(s2.msgs, 'P', "") == 0 && IndexIn(s2.msgs, 'P', "", Created) == 0;
    assert Drop(s2.msgs, 0) == [];
    SingleContext(first);
  }
}
