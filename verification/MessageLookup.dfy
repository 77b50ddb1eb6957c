/** What looking up an open message finds after another one has been added. */
module MessageLookup {
  import opened Options
  import opened SentMessages

  // The open message of a kind and name, if any.
  function Open(ms: seq<SentMessage>, kind: char, name: string): Option<SentMessage> {
    var i := IndexIn(ms, kind, name, Created);
    if i < |ms| then Some(ms[i]) else None
  }

  lemma FirstOpenIs(ms: seq<SentMessage>, kind: char, name: string, i: nat)
    requires i < |ms| && Matches(ms[i], kind, name) && ms[i].state == Created
    requires forall k | 0 <= k < i :: !(Matches(ms[k], kind, name) && ms[k].state == Created)
    ensures IndexIn(ms, kind, name, Created) == i
  {
  }

  // A named message keeps its place: while it is open, another of that name is
  // not recorded; if none is, the new one is found, and it is the last.
  lemma {:induction false} NamedStays(s: Session, m: SentMessage)
    requires m.name != "" && m.state == Created
    ensures Open(Added(s, m).msgs, m.kind, m.name) == if Open(s.msgs, m.kind, m.name).Some? then Open(s.msgs, m.kind, m.name) else Some(m)
    ensures Open(s.msgs, m.kind, m.name).None? ==> Added(s, m).msgs == s.msgs + [m]
  {
    if Open(s.msgs, m.kind, m.name).None? {
      FirstOpenIs(s.msgs + [m], m.kind, m.name, |s.msgs|);
    }
  }

  ghost predicate OneOpen(ms: seq<SentMessage>, kind: char, name: string) {
    forall i, j | 0 <= i < j < |ms| && ms[i].state == Created && ms[j].state == Created && Matches(ms[i], kind, name) :: !Matches(ms[j], kind, name)
  }

  // An unnamed message replaces the open one of its kind, and is what is found
  // from then on, if and only if no closed one stands before that: the removal
  // goes by kind and name alone.
  lemma {:induction false} UnnamedReplacesIff(s: Session, m: SentMessage)
    requires m.name == "" && m.state == Created && m.kind != NoKind && OneOpen(s.msgs, m.kind, "")
    requires forall k | k in s.msgs :: k.id != m.id
    ensures Open(Added(s, m).msgs, m.kind, "") == Some(m)
            <==> Open(s.msgs, m.kind, "").None? || IndexOf(s.msgs, m.kind, "") == IndexIn(s.msgs, m.kind, "", Created)
  {
    var i, j := IndexIn(s.msgs, m.kind, "", Created), IndexOf(s.msgs, m.kind, "");
    if i == |s.msgs| {
      FirstOpenIs(s.msgs + [m], m.kind, "", |s.msgs|);
    } else {
      assert j <= i;
      assert s.msgs[i].id != m.id;
      assert Added(s, m).msgs == Drop(s.msgs, j) + [m];
      OpenAfterDrop(s.msgs, m, i, j);
    }
  }

  lemma {:induction false} OpenAfterDrop(ms: seq<SentMessage>, m: SentMessage, i: nat, j: nat)
    requires j <= i < |ms| && i == IndexIn(ms, m.kind, m.name, Created) && m.state == Created
    requires OneOpen(ms, m.kind, m.name)
    ensures Open(Drop(ms, j) + [m], m.kind, m.name) == Some(if i == j then m else ms[i])
  {
    var all := Drop(ms, j) + [m];
    assert forall k | 0 <= k < |ms| - 1 :: all[k] == if k < j then ms[k] else ms[k + 1];
    assert forall k | 0 <= k < |ms| && k != i :: !(Matches(ms[k], m.kind, m.name) && ms[k].state == Created);
    FirstOpenIs(all, m.kind, m.name, if i == j then |ms| - 1 else i - 1);
  }

  // So a look-up may go on finding the message that was to be replaced.
  lemma {:induction false} StaleUnnamed(a: SentMessage, b: SentMessage, m: SentMessage, s: Session)
    requires a.id != m.id && b.id != m.id && m.state == Created && b.state == Created && a.state == Closed
    requires a.kind == m.kind && b.kind == m.kind && m.kind != NoKind && a.name == "" && b.name == "" && m.name == ""
    requires s.msgs == [a, b]
    ensures Open(Added(s, m).msgs, m.kind, "") == Some(b)
  {
    assert Matches(s.msgs[0], m.kind, "") && Matches(s.msgs[1], m.kind, "");
    FirstOpenIs(s.msgs, m.kind, "", 1);
    assert IndexOf(s.msgs, m.kind, "") == 0;
    OpenAfterDrop(s.msgs, m, 1, 0);
    assert Added(s, m).msgs == Drop(s.msgs, 0) + [m];
  }
}
