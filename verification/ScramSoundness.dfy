/** What the server's success means, over every sequence of messages it is given. */
module ScramSoundness {
  import opened Options
  import opened Bytes
  import opened Strings
  import opened Base64
  import opened Scram
  import opened ScramExchange

  // The text of the channel-binding attribute for a flag.
  function BindingOf(flag: char): string {
    if flag == 'n' then "biws" else "eSws"
  }

  // `t` is what `s` ends with, and a comma stands before it unless it is all of `s`.
  ghost predicate EndsField(s: string, t: string) {
    |t| <= |s| && s[|s| - |t|..] == t && (|t| < |s| ==> s[|s| - |t| - 1] == ',')
  }

  lemma {:induction false} EndsTrans(s: string, t: string, u: string)
    requires EndsField(s, t) && EndsField(t, u)
    ensures EndsField(s, u)
  {
    assert forall i | |t| - |u| <= i < |t| :: t[i] == s[|s| - |t| + i];
    assert t[|t| - |u|..] == s[|s| - |u|..];
    if |u| < |t| {
      assert t[|t| - |u| - 1] == s[|s| - |u| - 1];
    }
  }

  // What follows an attribute that ended with a comma.
  lemma {:induction false} RestEnds(s: string, f: Field)
    requires |s| >= 2 && f == TakeField(s[2..]) && f.rest != ""
    ensures EndsField(s, f.rest) && s[2..2 + |f.value|] == f.value && |f.rest| + |f.value| + 3 == |s|
  {
    FieldLenIsFirstComma(s[2..]);
    var n := FieldLen(s[2..]);
    assert s[2..][n + 1..] == s[|s| - |f.rest|..];
    assert s[2..][n] == s[|s| - |f.rest| - 1];
  }

  // Walking over extensions: the proof attribute ends the input and follows a
  // comma, whatever was skipped.
  lemma {:induction false} ProofPosition(s: string)
    requires SkipToProof(s).Ok?
    ensures EndsField(s, SkipToProof(s).value.at)
    decreases |s|
  {
    var f := ReadAnyAttr(s).value;
    if s[0] != 'p' {
      ProofPosition(f.rest);
      RestEnds(s, f);
      EndsTrans(s, f.rest, SkipToProof(s).value.at);
    }
  }

  // `at` is the attribute name, the value, and possibly one comma.
  ghost predicate IsProofAttr(at: string, value: string) {
    && 2 + |value| <= |at| <= 3 + |value| && at[0] == 'p' && at[1] == '=' && at[2..2 + |value|] == value
    && (|at| == 3 + |value| ==> at[|at| - 1] == ',')
  }

  function TailOf(at: string, value: string): string {
    if |at| == 3 + |value| then "," else ""
  }

  lemma {:induction false} ProofAttr(s: string)
    requires SkipToProof(s).Ok? && SkipToProof(s).value.rest == ""
    ensures IsProofAttr(SkipToProof(s).value.at, SkipToProof(s).value.value)
    decreases |s|
  {
    var f := ReadAnyAttr(s).value;
    if s[0] == 'p' {
      FieldLenIsFirstComma(s[2..]);
    } else {
      ProofAttr(f.rest);
    }
  }

  lemma {:induction false} Assemble(m: string, at: string, value: string)
    requires EndsField(m, at) && |at| < |m| && IsProofAttr(at, value)
    ensures m == m[..|m| - |at| - 1] + ",p=" + value + TailOf(at, value)
  {
    var tail := TailOf(at, value);
    var k := |m| - |at| - 1;
    assert at == "p=" + value + tail;
    assert m == m[..k] + [m[k]] + m[k + 1..];
    assert m[k + 1..] == at;
    assert "," + at == ",p=" + value + tail;
  }

  lemma {:induction false} FinalInverted(flag: char, m: string) returns (b: Field, n: Field, p: ProofField)
    requires ReadClientFinal(flag, m).Ok?
    ensures ReadAttrValue(m, 'c') == Ok(b) && ReadAttrValue(b.rest, 'r') == Ok(n) && SkipToProof(n.rest) == Ok(p)
    ensures b.rest != "" && n.rest != "" && p.rest == "" && |p.at| <= |n.rest| < |b.rest| < |m|
    ensures ReadClientFinal(flag, m).value == ClientFinal(n.value, p.value, m[..|m| - |p.at| - 1])
    ensures b.value == BindingOf(flag) && (flag == 'n' || flag == 'y')
  {
    b := ReadAttrValue(m, 'c').value;
    n := ReadAttrValue(b.rest, 'r').value;
    p := SkipToProof(n.rest).value;
  }

  lemma {:induction false} AttrEnds(s: string, attr: char, f: Field)
    requires ReadAttrValue(s, attr) == Ok(f) && f.rest != ""
    ensures |s| == |f.rest| + |f.value| + 3 && s[0] == attr && s[1] == '=' && s[2..2 + |f.value|] == f.value && EndsField(s, f.rest)
  {
    RestEnds(s, f);
  }

  // The proof attribute ends the whole message.
  lemma {:induction false} ProofEndsMessage(m: string, b: Field, n: Field, p: ProofField)
    requires ReadAttrValue(m, 'c') == Ok(b) && ReadAttrValue(b.rest, 'r') == Ok(n) && SkipToProof(n.rest) == Ok(p)
    requires b.rest != "" && n.rest != ""
    ensures EndsField(m, p.at)
  {
    AttrEnds(m, 'c', b);
    AttrEnds(b.rest, 'r', n);
    ProofPosition(n.rest);
    EndsTrans(m, b.rest, n.rest);
    EndsTrans(m, n.rest, p.at);
  }

  // The bytes before the extensions are the binding and the nonce.
  lemma {:induction false} HeadOf(m: string, v: string, rest: string, n: string, rest': string)
    requires |m| == |rest| + |v| + 3 && m[0] == 'c' && m[1] == '=' && m[2..2 + |v|] == v && EndsField(m, rest)
    requires |rest| == |rest'| + |n| + 3 && rest[0] == 'r' && rest[1] == '=' && rest[2..2 + |n|] == n
    ensures m[..|m| - |rest'| - 1] == "c=" + v + ",r=" + n
  {
    var x := |v|;
    assert m[2 + x] == ',';
    assert rest == m[3 + x..];
    assert rest[..2 + |n|] == rest[..2] + rest[2..2 + |n|];
    assert m[3 + x..5 + x + |n|] == rest[..2 + |n|];
    assert m[..5 + x + |n|] == m[..2] + m[2..2 + x] + [m[2 + x]] + m[3 + x..5 + x + |n|];
  }

  lemma {:induction false} HeadExact(m: string, b: Field, n: Field)
    requires ReadAttrValue(m, 'c') == Ok(b) && ReadAttrValue(b.rest, 'r') == Ok(n)
    requires b.rest != "" && n.rest != "" && |n.rest| < |m|
    ensures m[..|m| - |n.rest| - 1] == "c=" + b.value + ",r=" + n.value
  {
    AttrEnds(m, 'c', b);
    AttrEnds(b.rest, 'r', n);
    HeadOf(m, b.value, b.rest, n.value, n.rest);
  }

  lemma {:induction false} TailExact(m: string, rest: string, p: ProofField)
    requires EndsField(m, p.at) && |p.at| < |m| && SkipToProof(rest) == Ok(p) && p.rest == ""
    ensures m == m[..|m| - |p.at| - 1] + ",p=" + p.value + TailOf(p.at, p.value)
  {
    assert IsProofAttr(p.at, p.value) by { ProofAttr(rest); }
    Assemble(m, p.at, p.value);
  }

  lemma {:induction false} PrefixOfPrefix(m: string, head: string, h: nat, k: nat)
    requires h <= k <= |m| && m[..h] == head
    ensures head <= m[..k]
  {
    assert m[..k][..h] == m[..h];
  }

  // An accepted client-final-message is exactly the signed text, ",p=", the
  // proof, and possibly one comma; the signed text starts with the binding and
  // the nonce.
  lemma {:induction false} ClientFinalExact(flag: char, m: string, f: ClientFinal) returns (tail: string)
    requires ReadClientFinal(flag, m) == Ok(f)
    ensures m == f.withoutProof + ",p=" + f.proof + tail && (tail == "" || tail == ",")
    ensures "c=" + BindingOf(flag) + ",r=" + f.nonce <= f.withoutProof && (flag == 'n' || flag == 'y')
  {
    var b, n, p := FinalInverted(flag, m);
    tail := TailOf(p.at, p.value);
    assert m == m[..|m| - |p.at| - 1] + ",p=" + p.value + tail by {
      ProofEndsMessage(m, b, n, p);
      TailExact(m, n.rest, p);
    }
    assert "c=" + b.value + ",r=" + n.value <= m[..|m| - |p.at| - 1] by {
      HeadExact(m, b, n);
      PrefixOfPrefix(m, "c=" + b.value + ",r=" + n.value, |m| - |n.rest| - 1, |m| - |p.at| - 1);
    }
  }

  // Success means the whole list of conditions, for this very message.
  lemma {:induction false} SuccessMeans(c: Crypto, s: Server, m: string, nonce: string)
      returns (f: ClientFinal, proof: Key, tail: string)
    requires Sound(c) && ServerStep(c, s, Some(m), nonce).1.Success?
    ensures s.phase.SaltSent? && !s.doomed && ServerStep(c, s, Some(m), nonce).0 == s.(phase := AuthFinished)
    ensures s.first.flag == 'n' || s.first.flag == 'y'
    ensures m == f.withoutProof + ",p=" + f.proof + tail && (tail == "" || tail == ",")
    ensures "c=" + BindingOf(s.first.flag) + ",r=" + f.nonce <= f.withoutProof
    ensures f.nonce == s.first.nonce + s.serverNonce
    ensures Decode(f.proof) == Some(proof) && |proof| == SCRAM_KEY_LEN
    ensures var signature := c.hmac(s.storedKey, s.first.bare + "," + s.serverFirst + "," + f.withoutProof);
            |signature| == SCRAM_KEY_LEN && c.h(XorSeq(proof, signature)) == s.storedKey
    ensures ServerStep(c, s, Some(m), nonce).1
         == Success("v=" + Encode(c.hmac(s.serverKey, s.first.bare + "," + s.serverFirst + "," + f.withoutProof)))
  {
    f := ReadClientFinal(s.first.flag, m).value;
    proof := DecodeKey(f.proof).value;
    tail := ClientFinalExact(s.first.flag, m, f);
  }

  // An accepted first message is its flag, an empty authorization identity and
  // the signed part, which starts with a name and the nonce.
  lemma {:induction false} ClientFirstExact(m: string, f: ClientFirst) returns (user: string)
    requires ReadClientFirst(m) == Ok(f)
    ensures m == [f.flag] + ",," + f.bare && (f.flag == 'n' || f.flag == 'y')
    ensures "n=" + user + "," + ("r=" + f.nonce) <= f.bare && Printable(f.nonce)
  {
    assert m == [m[0]] + ",," + m[3..];
    var name := ReadAttrValue(f.bare, 'n').value;
    user := name.value;
    NameThenNonce(f.bare, name, ReadAttrValue(name.rest, 'r').value);
  }

  lemma {:induction false} NameThenNonce(bare: string, name: Field, nonce: Field)
    requires ReadAttrValue(bare, 'n') == Ok(name) && ReadAttrValue(name.rest, 'r') == Ok(nonce)
    ensures "n=" + name.value + "," + ("r=" + nonce.value) <= bare
  {
    AttrStarts(bare, 'n', name);
    AttrStarts(name.rest, 'r', nonce);
    PrefixAfter(['n', '='] + name.value + ",", ['r', '='] + nonce.value, name.rest);
  }

  lemma PrefixAfter(a: string, b: string, c: string)
    requires b <= c
    ensures a + b <= a + c
  {
  }

  // What follows the nonce must be attributes; anything else is refused.
  lemma {:induction false} GarbageRefused(nonce: string, rest: string)
    requires (forall i | 0 <= i < |nonce| :: nonce[i] != ',') && rest != ""
    requires |rest| < 2 || rest[1] != '=' || !('A' <= rest[0] <= 'Z' || 'a' <= rest[0] <= 'z')
    ensures ReadClientFirst("n,," + ("n=" + "" + "," + ("r=" + nonce + "," + rest))) == Error
  {
    var bare := "n=" + "" + "," + ("r=" + nonce + "," + rest);
    var m := "n,," + bare;
    assert m[3..] == bare;
    AttrRoundTrip('n', "", "r=" + nonce + "," + rest);
    AttrRoundTrip('r', nonce, rest);
  }

  // An attribute read stands at the front, and what follows comes after a comma.
  lemma {:induction false} AttrStarts(s: string, attr: char, f: Field)
    requires ReadAttrValue(s, attr) == Ok(f)
    ensures [attr, '='] + f.value <= s
    ensures f.rest != "" ==> s == [attr, '='] + f.value + "," + f.rest
  {
    var v := s[2..];
    FieldLenIsFirstComma(v);
    assert s == [attr, '='] + v;
    var n := FieldLen(v);
    if n < |v| {
      assert v == v[..n] + "," + v[n + 1..];
    }
  }

  // ----- the client -----

  // A challenge is accepted only if its nonce continues the client's, and it
  // reads nonce, salt and a positive count in this order.
  lemma {:induction false} ServerFirstExact(cnonce: string, m: string, f: ServerFirst) returns (count: string)
    requires ReadServerFirst(cnonce, m) == Ok(f)
    ensures cnonce <= f.nonce && 1 <= f.iterations < 0x8000_0000 && ReadIterations(count) == Ok(f.iterations)
    ensures "r=" + f.nonce + "," + ("s=" + f.salt + "," + ("i=" + count)) <= m
  {
    var nonce := ReadAttrValue(m, 'r').value;
    var salt := ReadAttrValue(nonce.rest, 's').value;
    var iter := ReadAttrValue(salt.rest, 'i').value;
    count := iter.value;
    AttrStarts(m, 'r', nonce);
    SaltThenCount(nonce.rest, salt, iter);
    PrefixAfter(['r', '='] + nonce.value + ",", ['s', '='] + salt.value + "," + (['i', '='] + count), nonce.rest);
  }

  lemma {:induction false} SaltThenCount(rest: string, salt: Field, iter: Field)
    requires ReadAttrValue(rest, 's') == Ok(salt) && ReadAttrValue(salt.rest, 'i') == Ok(iter)
    ensures ['s', '='] + salt.value + "," + (['i', '='] + iter.value) <= rest
  {
    AttrStarts(rest, 's', salt);
    AttrStarts(salt.rest, 'i', iter);
    PrefixAfter(['s', '='] + salt.value + ",", ['i', '='] + iter.value, salt.rest);
  }

  // The server's last message carries a signature or is refused; in particular
  // an error message is.
  lemma {:induction false} ServerFinalExact(m: string)
    ensures ReadServerFinal(m).Ok? ==> "v=" + ReadServerFinal(m).value <= m
    ensures m != "" && m[0] != 'v' ==> ReadServerFinal(m).Error?
  {
    if ReadServerFinal(m).Ok? {
      AttrStarts(m, 'v', ReadAttrValue(m, 'v').value);
    }
  }

  // The salted password, written out; see Crypto for a salt that does not decode.
  function Salted(c: Crypto, password: string, f: ServerFirst): Key {
    if Decode(f.salt).Some? then c.salted(password, Decode(f.salt).value, f.iterations)
    else c.undecoded(password, f.salt, f.iterations)
  }

  // The proof a client sends is its key, hidden by the signature of the whole
  // exchange: first message, challenge and final message without the proof.
  lemma {:induction false} ClientAnswerMeans(c: Crypto, s: Client, m: string, f: ServerFirst) returns (proof: Key)
    requires Sound(c)
    ensures var key := c.hmac(Salted(c, s.password, f), "Client Key");
            Hides(proof, key, c.hmac(c.h(key), s.firstBare + "," + m + "," + ("c=biws,r=" + f.nonce)))
    ensures ClientAnswer(c, s, m, f) ==
            (s.(phase := ProofSent, serverFirst := m, withoutProof := "c=biws,r=" + f.nonce, saltedPassword := Salted(c, s.password, f)),
             Send("c=biws,r=" + f.nonce + ",p=" + Encode(proof)))
  {
    var salted := SaltedPassword(c, s.password, f);
    var text := AuthMessage(s.firstBare, m, PrintFinalWithoutProof(f.nonce));
    proof := ClientProof(c, salted, text);
    ProofHides(c, salted, text);
  }

  lemma {:induction false} ClientProofMeans(c: Crypto, s: Client, m: string, nonce: string) returns (f: ServerFirst, proof: Key)
    requires Sound(c) && s.phase.NonceSent? && ClientStep(c, s, m, nonce).1.Send?
    ensures ReadServerFirst(s.nonce, m) == Ok(f)
    ensures var key := c.hmac(Salted(c, s.password, f), "Client Key");
            Hides(proof, key, c.hmac(c.h(key), s.firstBare + "," + m + "," + ("c=biws,r=" + f.nonce)))
    ensures ClientStep(c, s, m, nonce) ==
            (s.(phase := ProofSent, serverFirst := m, withoutProof := "c=biws,r=" + f.nonce, saltedPassword := Salted(c, s.password, f)),
             Send("c=biws,r=" + f.nonce + ",p=" + Encode(proof)))
  {
    f := ReadServerFirst(s.nonce, m).value;
    proof := ClientAnswerMeans(c, s, m, f);
  }

  // A client ends with success exactly on a message that carries the server's
  // signature of that same text.
  lemma {:induction false} ClientDoneIff(c: Crypto, s: Client, m: string, nonce: string)
    requires Sound(c) && s.phase.ProofSent? && m != "" && NoNul(m)
    ensures var signature := c.hmac(c.hmac(s.saltedPassword, "Server Key"), s.firstBare + "," + s.serverFirst + "," + s.withoutProof);
            ClientStep(c, s, m, nonce).1 == Done(true)
            <==> ReadServerFinal(m).Ok? && Decode(ReadServerFinal(m).value) == Some(signature)
  {
  }

  // ----- runs -----

  datatype Call = Call(input: Option<string>, nonce: string)

  function After(c: Crypto, s: Server, calls: seq<Call>): Server {
    if calls == [] then s
    else
      var k := |calls| - 1;
      ServerStep(c, After(c, s, calls[..k]), calls[k].input, calls[k].nonce).0
  }

  function OutcomeOf(c: Crypto, s: Server, calls: seq<Call>, k: nat): Outcome
    requires k < |calls|
  {
    ServerStep(c, After(c, s, calls[..k]), calls[k].input, calls[k].nonce).1
  }

  lemma {:induction false} FinishedStays(c: Crypto, s: Server, calls: seq<Call>, j: nat)
    requires j <= |calls| && After(c, s, calls[..j]).phase.AuthFinished?
    ensures After(c, s, calls).phase.AuthFinished?
    decreases |calls|
  {
    if j < |calls| {
      var before := calls[..|calls| - 1];
      assert before[..j] == calls[..j];
      FinishedStays(c, s, before, j);
    } else {
      assert calls[..j] == calls;
    }
  }

  // Success is returned at most once.
  lemma {:induction false} SuccessOnce(c: Crypto, s: Server, calls: seq<Call>, j: nat, k: nat)
    requires Sound(c) && j < k < |calls| && OutcomeOf(c, s, calls, j).Success?
    ensures !OutcomeOf(c, s, calls, k).Success?
  {
    var st := After(c, s, calls[..j]);
    assert calls[..j + 1][..j] == calls[..j];
    SuccessFinishes(c, st, calls[j].input, calls[j].nonce);
    assert calls[..k][..j + 1] == calls[..j + 1];
    FinishedStays(c, s, calls[..k], j + 1);
    SuccessFinishes(c, After(c, s, calls[..k]), calls[k].input, calls[k].nonce);
  }

  lemma {:induction false} SuccessFinishes(c: Crypto, st: Server, input: Option<string>, nonce: string)
    ensures ServerStep(c, st, input, nonce).1.Success? ==> ServerStep(c, st, input, nonce).0.phase.AuthFinished? && !st.phase.AuthFinished?
  {
  }

  // What the state remembers of the calls so far: nothing but one accepted
  // client-first-message and the nonce drawn to answer it.
  ghost predicate Answered(s: Server, st: Server, calls: seq<Call>, j: nat) {
    && j < |calls| && calls[j].input.Some?
    && ReadClientFirst(calls[j].input.value) == Ok(st.first)
    && st.serverNonce == calls[j].nonce
    && st.serverFirst == PrintServerFirst(st.first.nonce, st.serverNonce, s.salt, s.iterations)
  }

  ghost predicate Remembers(s: Server, st: Server, calls: seq<Call>) {
    && st.doomed == s.doomed && st.storedKey == s.storedKey && st.serverKey == s.serverKey
    && st.salt == s.salt && st.iterations == s.iterations
    && (st.phase.AuthInit? || exists j :: Answered(s, st, calls, j))
  }

  lemma {:induction false} RunRemembers(c: Crypto, s: Server, calls: seq<Call>)
    requires s.phase.AuthInit?
    ensures Remembers(s, After(c, s, calls), calls)
  {
    if calls != [] {
      var k := |calls| - 1;
      RunRemembers(c, s, calls[..k]);
      var st := After(c, s, calls[..k]);
      StepRemembers(c, st, calls[k].input, calls[k].nonce);
      var st' := After(c, s, calls);
      if st.phase.AuthInit? {
        if !st'.phase.AuthInit? {
          assert Answered(s, st', calls, k);
        }
      } else {
        var j :| Answered(s, st, calls[..k], j);
        assert Answered(s, st', calls, j);
      }
    }
  }

  // One step either changes nothing but the phase, or answers a first message.
  lemma {:induction false} StepRemembers(c: Crypto, st: Server, input: Option<string>, nonce: string)
    ensures var st' := ServerStep(c, st, input, nonce).0;
            || st' == st
            || (!st.phase.AuthInit? && st' == st.(phase := AuthFinished))
            || (&& st.phase.AuthInit? && input.Some? && ReadClientFirst(input.value).Ok?
                && var first := ReadClientFirst(input.value).value;
                   st' == st.(phase := SaltSent, first := first, serverNonce := nonce,
                              serverFirst := PrintServerFirst(first.nonce, nonce, st.salt, st.iterations)))
  {
  }

  // Over any run from a fresh exchange: a success at call k was preceded by one
  // accepted first message at some call j, and the proof signs exactly that
  // message, the challenge sent for it, and the signed part of message k.
  lemma {:induction false} SuccessHistory(c: Crypto, s: Server, calls: seq<Call>, k: nat)
      returns (j: nat, first: ClientFirst, f: ClientFinal, proof: Key, tail: string)
    requires Sound(c) && s.phase.AuthInit? && k < |calls| && OutcomeOf(c, s, calls, k).Success?
    ensures !s.doomed && j < k && calls[j].input.Some? && calls[k].input.Some?
    ensures ReadClientFirst(calls[j].input.value) == Ok(first)
    ensures calls[k].input.value == f.withoutProof + ",p=" + f.proof + tail && (tail == "" || tail == ",")
    ensures "c=" + BindingOf(first.flag) + ",r=" + first.nonce + calls[j].nonce <= f.withoutProof
    ensures Decode(f.proof) == Some(proof) && |proof| == SCRAM_KEY_LEN
    ensures calls[j].input.value == [first.flag] + ",," + first.bare
    ensures var challenge := "r=" + first.nonce + calls[j].nonce + ",s=" + s.salt + ",i=" + Digits(s.iterations % 0x1_0000_0000);
            var signature := c.hmac(s.storedKey, first.bare + "," + challenge + "," + f.withoutProof);
            |signature| == SCRAM_KEY_LEN && c.h(XorSeq(proof, signature)) == s.storedKey
  {
    var st := After(c, s, calls[..k]);
    RunRemembers(c, s, calls[..k]);
    assert calls[k].input.Some?;
    f, proof, tail := SuccessMeans(c, st, calls[k].input.value, calls[k].nonce);
    j :| Answered(s, st, calls[..k], j);
    first := st.first;
    var user := ClientFirstExact(calls[j].input.value, first);
    assert "c=" + BindingOf(first.flag) + ",r=" + f.nonce == "c=" + BindingOf(first.flag) + ",r=" + first.nonce + calls[j].nonce;
  }

  // A doomed exchange, run for a user without a usable verifier, never succeeds.
  lemma {:induction false} DoomedNeverSucceeds(c: Crypto, s: Server, calls: seq<Call>, k: nat)
    requires Sound(c) && s.phase.AuthInit? && s.doomed && k < |calls|
    ensures !OutcomeOf(c, s, calls, k).Success?
  {
    RunRemembers(c, s, calls[..k]);
  }
}
