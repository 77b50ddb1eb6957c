/** The sent-message list as the session keeps it: a growable array searched,
    shifted and extended in place, proved against SentMessages. */
module SentMessageList {
  import opened Options
  import opened SentMessages

  const INIT_LIST_SIZE: nat := 8

  function Blank(): SentMessage {
    SentMessage(0, '\0', "", Created, None)
  }

  class SessionContext {
    var sent: array<SentMessage>
    var size: nat
    var pending: seq<Option<nat>>
    var queryContext: Option<nat>
    var inProgress: bool
    ghost var live: set<nat>

    ghost predicate Valid()
      reads this, sent
    {
      && size <= sent.Length && 0 < sent.Length
      && forall i | 0 <= i < size :: sent[i].kind != '\0'
    }

    ghost function Value(): Session
      reads this, sent
      requires Valid()
    {
      Session(sent[..size], pending, queryContext, inProgress, live)
    }

    constructor ()
      ensures Valid() && fresh(sent) && Value() == Session([], [], None, false, {})
    {
      sent := new SentMessage[INIT_LIST_SIZE](_ => Blank());
      size, pending, queryContext, inProgress, live := 0, [], None, false, {};
    }

    method GetSentMessage(kind: char, name: string, state: MessageState) returns (i: nat)
      requires Valid()
      ensures i == if kind == '\0' then size else IndexIn(sent[..size], kind, name, state)
    {
      if kind == '\0' {
        return size;
      }
      i := 0;
      while i < size
        invariant 0 <= i <= size
        invariant IndexIn(sent[..size], kind, name, state) == i + IndexIn(sent[i..size], kind, name, state)
      {
        if sent[i].kind == kind && sent[i].name == name && sent[i].state == state {
          return;
        }
        assert sent[i..size][1..] == sent[i + 1..size];
        i := i + 1;
      }
    }

    method CanQueryContextDestroy(q: nat) returns (ok: bool)
      requires Valid()
      ensures ok <==> CanDestroy(Value(), q)
    {
      var count := 0;
      for i := 0 to size
        invariant count == Uses(sent[..i], q)
      {
        assert sent[..i + 1] == sent[..i] + [sent[i]];
        UsesConcat(sent[..i], [sent[i]], q);
        if sent[i].qc == Some(q) {
          count := count + 1;
        }
      }
      if count > 1 {
        return false;
      }
      count := 0;
      for i := 0 to |pending|
        invariant count == 0 <==> Some(q) !in pending[..i]
      {
        if pending[i] == Some(q) {
          count := count + 1;
        }
      }
      return count < 1;
    }

    // Destroys the context of message i if nothing else needs it; the message
    // itself stays in the array.
    method DestroySentMessage(i: nat)
      requires Valid() && i < size
      modifies this`queryContext, this`inProgress, this`live
      ensures Valid() && Value() == DestroyMessage(old(Value()), sent[i])
    {
      var wasInProgress := inProgress;
      var message := sent[i];
      if message.qc.Some? {
        var keep := if queryContext != message.qc then queryContext else None;
        var ok := CanQueryContextDestroy(message.qc.value);
        if ok {
          inProgress := false;
          queryContext := None;
          live := live - {message.qc.value};
          if wasInProgress {
            inProgress := true;
          }
          if keep.Some? {
            queryContext := keep;
          }
        }
      }
    }

    // Closes the gap at i.
    method Shift(i: nat)
      requires Valid() && i < size
      modifies this`size, sent
      ensures Valid() && sent[..size] == Drop(old(sent[..size]), i)
    {
      var k := i;
      while k < size - 1
        invariant size == old(size) && i <= k <= size - 1
        invariant forall j | 0 <= j < size :: sent[j] == if i <= j < k then old(sent[j + 1]) else old(sent[j])
      {
        sent[k] := sent[k + 1];
        k := k + 1;
      }
      size := size - 1;
    }

    method FindSentMessage(kind: char, name: string) returns (i: nat)
      requires Valid()
      ensures i == IndexOf(sent[..size], kind, name)
    {
      i := 0;
      while i < size && !(sent[i].kind == kind && sent[i].name == name)
        invariant 0 <= i <= size
        invariant IndexOf(sent[..size], kind, name) == i + IndexOf(sent[i..size], kind, name)
      {
        assert sent[i..size][1..] == sent[i + 1..size];
        i := i + 1;
      }
    }

    method RemoveSentMessage(kind: char, name: string) returns (found: bool)
      requires Valid()
      modifies this, sent
      ensures Valid() && sent == old(sent)
      ensures Value() == Removed(old(Value()), kind, name)
      ensures found <==> kind != '\0' && IndexOf(old(sent[..size]), kind, name) < old(size)
    {
      if kind == '\0' {
        return false;
      }
      var i := FindSentMessage(kind, name);
      if i == size {
        return false;
      }
      DestroyIsWithout(Value(), i);
      DestroySentMessage(i);
      Shift(i);
      return true;
    }

    // Walks the list; a removal leaves the index where it is.
    method RemoveSentMessages(kind: char)
      requires Valid()
      modifies this, sent
      ensures Valid() && sent == old(sent)
      ensures Value() == Without(old(Value()), Others(old(sent[..size]), kind))
    {
      ghost var s0 := Value();
      OthersSubset(s0.msgs, kind);
      WithoutAll(s0);
      var i := 0;
      while i < size
        invariant Valid() && sent == old(sent) && 0 <= i <= size
        invariant forall k | 0 <= k < i :: sent[k].kind != kind
        invariant Others(sent[..size], kind) == Others(s0.msgs, kind)
        invariant Contexts(Others(s0.msgs, kind)) <= Contexts(sent[..size]) <= Contexts(s0.msgs)
        invariant Value() == Without(s0, sent[..size])
      {
        ghost var ms := sent[..size];
        if sent[i].kind == kind {
          FirstOfKind(ms, i, sent[i].name);
          DropSubset(ms, i);
          OthersDrop(ms, i);
          OthersSubset(Drop(ms, i), kind);
          WithoutStages(s0, ms, Drop(ms, i));
          var removed := RemoveSentMessage(kind, sent[i].name);
          assert sent[..size] == Drop(ms, i);
          forall k | 0 <= k < i
            ensures sent[k].kind != kind
          {
            assert sent[k] == sent[..size][k] == Drop(ms, i)[k] == ms[k];
          }
        } else {
          i := i + 1;
        }
      }
      NoOthers(sent[..size], kind);
    }

    method ClearSentMessageList()
      requires Valid()
      modifies this, sent
      ensures Valid() && sent == old(sent)
      ensures Value() == Without(old(Value()), [])
    {
      ghost var s0 := Value();
      WithoutAll(s0);
      while size > 0
        invariant Valid() && sent == old(sent)
        invariant Contexts(sent[..size]) <= Contexts(s0.msgs)
        invariant Value() == Without(s0, sent[..size])
        decreases size
      {
        ghost var ms := sent[..size];
        OthersSubset(ms, sent[0].kind);
        OthersShorter(ms, sent[0].kind);
        WithoutStages(s0, ms, Others(ms, sent[0].kind));
        RemoveSentMessages(sent[0].kind);
      }
    }

    // Doubles the array when it is full.
    method Grow()
      requires Valid()
      modifies this`sent
      ensures Valid() && size < sent.Length && (sent == old(sent) || fresh(sent)) && Value() == old(Value())
    {
      if size == sent.Length {
        var bigger := new SentMessage[2 * sent.Length](_ => Blank());
        for i := 0 to size
          invariant sent == old(sent) && forall k | 0 <= k < i :: bigger[k] == sent[k]
        {
          bigger[i] := sent[i];
        }
        sent := bigger;
        assert sent[..size] == old(sent[..size]);
      }
    }

    method Append(message: SentMessage)
      requires Valid() && message.kind != '\0'
      modifies this, sent
      ensures Valid() && (sent == old(sent) || fresh(sent))
      ensures Value() == old(Value()).(msgs := old(Value()).msgs + [message])
    {
      Grow();
      sent[size] := message;
      size := size + 1;
      assert sent[..size] == old(sent[..size]) + [message];
    }

    method AddSentMessage(message: SentMessage)
      requires Valid() && message.kind != '\0'
      modifies this, sent
      ensures Valid() && (sent == old(sent) || fresh(sent))
      ensures Value() == Added(old(Value()), message)
    {
      var i := GetSentMessage(message.kind, message.name, Created);
      if i < size {
        if sent[i].id == message.id || message.name != "" {
          return;
        }
        var removed := RemoveSentMessage(message.kind, message.name);
      }
      Append(message);
    }
  }

  lemma WithoutAll(s: Session)
    ensures Without(s, s.msgs) == s
  {
  }

  lemma {:induction false} FirstOfKind(ms: seq<SentMessage>, i: nat, name: string)
    requires i < |ms| && ms[i].name == name && forall k | 0 <= k < i :: ms[k].kind != ms[i].kind
    ensures IndexOf(ms, ms[i].kind, name) == i
  {
  }

  lemma {:induction false} OthersDrop(ms: seq<SentMessage>, i: nat)
    requires i < |ms|
    ensures Others(Drop(ms, i), ms[i].kind) == Others(ms, ms[i].kind)
  {
    if i == 0 {
      assert Drop(ms, 0) == ms[1..];
    } else {
      assert Drop(ms, i)[1..] == Drop(ms[1..], i - 1) && Drop(ms, i)[0] == ms[0];
      OthersDrop(ms[1..], i - 1);
    }
  }

  lemma {:induction false} NoOthers(ms: seq<SentMessage>, kind: char)
    requires forall k | 0 <= k < |ms| :: ms[k].kind != kind
    ensures Others(ms, kind) == ms
  {
    if ms != [] {
      NoOthers(ms[1..], kind);
    }
  }

  lemma {:induction false} OthersShorter(ms: seq<SentMessage>, kind: char)
    ensures |Others(ms, kind)| <= |ms|
    ensures ms != [] && ms[0].kind == kind ==> |Others(ms, kind)| < |ms|
  {
    if ms != [] {
      OthersShorter(ms[1..], kind);
    }
  }
}
