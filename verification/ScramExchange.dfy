/** The two ends of a SCRAM exchange as state machines, what an honest run gives,
    and what the server's success means over every sequence of inputs. */
module ScramExchange {
  import opened Options
  import opened Bytes
  import opened Strings
  import opened Base64
  import opened Scram

  // ----- server -----

  datatype ServerPhase = AuthInit | SaltSent | AuthFinished

  datatype Server = Server(
    phase: ServerPhase, doomed: bool,
    iterations: int, salt: string, storedKey: Key, serverKey: Key,
    first: ClientFirst, serverNonce: string, serverFirst: string)

  datatype Outcome = Continue(output: string) | Success(output: string) | Failure | Malformed

  // A proof is accepted when hashing the client key recovered from it gives
  // the stored key.
  predicate ProofOk(c: Crypto, storedKey: Key, proof: Key, auth: string) {
    var signature := c.hmac(storedKey, auth);
    |proof| == |signature| && c.h(XorSeq(proof, signature)) == storedKey
  }

  function ServerAuth(s: Server, f: ClientFinal): string {
    AuthMessage(s.first.bare, s.serverFirst, f.withoutProof)
  }

  // One call with a message (absent on an empty initial response); `nonce` is
  // the random nonce drawn if the first message is answered.
  function ServerStep(c: Crypto, s: Server, input: Option<string>, nonce: string): (Server, Outcome) {
    match input
    case None => (s, Continue(""))
    case Some(m) =>
      if m == "" || !NoNul(m) then (s, Malformed)
      else
        match s.phase
        case AuthInit => (
          match ReadClientFirst(m)
          case Error => (s, Malformed)
          case Ok(first) =>
            var out := PrintServerFirst(first.nonce, nonce, s.salt, s.iterations);
            (s.(phase := SaltSent, first := first, serverNonce := nonce, serverFirst := out), Continue(out)))
        case SaltSent => (
          match ReadClientFinal(s.first.flag, m)
          case Error => (s, Malformed)
          case Ok(f) =>
            match DecodeKey(f.proof)
            case Error => (s, Malformed)
            case Ok(proof) =>
              if f.nonce != s.first.nonce + s.serverNonce then (s, Malformed)
              else if !ProofOk(c, s.storedKey, proof, ServerAuth(s, f)) || s.doomed then (s, Failure)
              else (s.(phase := AuthFinished),
                    Success(PrintServerFinal(Encode(c.hmac(s.serverKey, ServerAuth(s, f)))))))
        case AuthFinished => (s, Malformed)
  }

  function ServerInit(doomed: bool, iterations: int, salt: string, storedKey: Key, serverKey: Key): Server {
    Server(AuthInit, doomed, iterations, salt, storedKey, serverKey, ClientFirst('\0', "", ""), "", "")
  }

  // The state for a user whose verifier was built from a password.
  function ServerFor(c: Crypto, password: string, salt: seq<Byte>, iterations: int): Server {
    var salted := c.salted(password, salt, iterations);
    ServerInit(false, iterations, Encode(salt), c.h(ClientKey(c, salted)), ServerKey(c, salted))
  }

  // ----- client -----

  datatype ClientPhase = FeInit | NonceSent | ProofSent | FeFinished

  datatype Client = Client(
    phase: ClientPhase, password: string, nonce: string, firstBare: string,
    serverFirst: string, withoutProof: string, saltedPassword: Key)

  datatype ClientOutcome = Send(output: string) | Done(success: bool)

  function ClientInit(password: string): Client {
    Client(FeInit, password, "", "", "", "", [])
  }

  function ClientProof(c: Crypto, salted: Key, auth: string): (p: Key)
    requires Sound(c)
    ensures |p| == SCRAM_KEY_LEN
  {
    XorSeq(ClientKey(c, salted), c.hmac(c.h(ClientKey(c, salted)), auth))
  }

  function SaltedPassword(c: Crypto, password: string, f: ServerFirst): (k: Key)
    requires Sound(c)
    ensures |k| == SCRAM_KEY_LEN
  {
    match Decode(f.salt)
    case None => c.undecoded(password, f.salt, f.iterations)
    case Some(salt) => c.salted(password, salt, f.iterations)
  }

  // Answer to the server-first-message.
  function ClientAnswer(c: Crypto, s: Client, input: string, f: ServerFirst): (Client, ClientOutcome)
    requires Sound(c)
  {
    var without := PrintFinalWithoutProof(f.nonce);
    var salted := SaltedPassword(c, s.password, f);
    var proof := ClientProof(c, salted, AuthMessage(s.firstBare, input, without));
    (s.(phase := ProofSent, serverFirst := input, withoutProof := without, saltedPassword := salted),
     Send(PrintClientFinal(f.nonce, Encode(proof))))
  }

  // Check of the server's signature.
  function ClientVerify(c: Crypto, s: Client, signature: Key): (Client, ClientOutcome) {
    if signature == c.hmac(ServerKey(c, s.saltedPassword), AuthMessage(s.firstBare, s.serverFirst, s.withoutProof))
    then (s.(phase := FeFinished), Done(true)) else (s, Done(false))
  }

  // One call with the server's message; `nonce` is drawn for the first one.
  function ClientStep(c: Crypto, s: Client, input: string, nonce: string): (Client, ClientOutcome)
    requires Sound(c)
  {
    if s.phase.FeInit? then
      var m := PrintClientFirst(nonce);
      (s.(phase := NonceSent, nonce := nonce, firstBare := m[3..]), Send(m))
    else if input == "" || !NoNul(input) then (s, Done(false))
    else
      match s.phase
      case NonceSent => (
        match ReadServerFirst(s.nonce, input)
        case Error => (s, Done(false))
        case Ok(f) => ClientAnswer(c, s, input, f))
      case ProofSent => (
        match ReadServerFinal(input)
        case Error => (s, Done(false))
        case Ok(v) =>
          match DecodeKey(v)
          case Error => (s, Done(false))
          case Ok(signature) => ClientVerify(c, s, signature))
      case _ => (s, Done(false))
  }

  // ----- each parser recovers what the peer printed -----

  lemma {:induction false} FieldLenIs(v: string, rest: string)
    requires forall i | 0 <= i < |v| :: v[i] != ','
    ensures FieldLen(v + "," + rest) == |v| && FieldLen(v) == |v|
  {
    var s := v + "," + rest;
    FieldLenIsFirstComma(s);
    FieldLenIsFirstComma(v);
    assert s[|v|] == ',';
    assert forall i | 0 <= i < |v| :: s[i] == v[i];
  }

  // An attribute whose value has no comma is read back, alone or before others.
  lemma {:induction false} AttrRoundTrip(attr: char, v: string, rest: string)
    requires forall i | 0 <= i < |v| :: v[i] != ','
    ensures ReadAttrValue([attr, '='] + v + "," + rest, attr) == Ok(Field(v, rest))
    ensures ReadAttrValue([attr, '='] + v, attr) == Ok(Field(v, ""))
  {
    FieldLenIs(v, rest);
    var s := [attr, '='] + v + "," + rest;
    assert s[2..] == v + "," + rest;
    assert (v + "," + rest)[..|v|] == v && (v + "," + rest)[|v| + 1..] == rest;
    assert ([attr, '='] + v)[2..] == v;
  }

  lemma {:induction false} ClientFirstNoNul(nonce: string)
    requires Printable(nonce)
    ensures NoNul(PrintClientFirst(nonce)) && PrintClientFirst(nonce) != ""
  {
  }

  lemma {:induction false} ClientFirstRoundTrip(nonce: string)
    requires Printable(nonce)
    ensures ReadClientFirst(PrintClientFirst(nonce)) == Ok(ClientFirst('n', "n=,r=" + nonce, nonce))
    ensures NoNul(PrintClientFirst(nonce)) && PrintClientFirst(nonce) != ""
  {
    ClientFirstNoNul(nonce);
    var m := PrintClientFirst(nonce);
    var bare := "n=,r=" + nonce;
    assert m[3..] == bare;
    assert ReadAttrValue(bare, 'n') == Ok(Field("", "r=" + nonce)) by {
      assert bare == ['n', '='] + "" + "," + ("r=" + nonce);
      AttrRoundTrip('n', "", "r=" + nonce);
    }
    assert ReadAttrValue("r=" + nonce, 'r') == Ok(Field(nonce, "")) by {
      assert "r=" + nonce == ['r', '='] + nonce;
      AttrRoundTrip('r', nonce, "");
    }
  }

  lemma {:induction false} AllDigitsLen(s: string)
    requires forall i | 0 <= i < |s| :: IsDigit(s[i])
    ensures DigitsLen(s) == |s|
  {
    if s != "" {
      AllDigitsLen(s[1..]);
    }
  }

  lemma {:induction false} NumberRoundTrip(n: nat)
    requires 1 <= n < 0x8000_0000
    ensures ReadIterations(Digits(n)) == Ok(n)
  {
    var s := Digits(n);
    DigitsRoundTrip(n);
    assert IsDigit(s[0]);
    assert SkipSpace(s) == s;
    AllDigitsLen(s);
  }

  // An attribute printed in front of the rest of a message.
  function Attr(attr: char, v: string, rest: string): string {
    [attr, '='] + v + "," + rest
  }

  lemma {:induction false} ServerFirstShape(cnonce: string, snonce: string, salt: string, iterations: int)
    requires 1 <= iterations < 0x8000_0000
    ensures PrintServerFirst(cnonce, snonce, salt, iterations)
         == Attr('r', cnonce + snonce, Attr('s', salt, ['i', '='] + Digits(iterations)))
  {
    assert iterations % 0x1_0000_0000 == iterations;
  }

  lemma {:induction false} AttrNoNul(attr: char, v: string, rest: string)
    requires attr != '\0' && NoNul(v) && NoNul(rest)
    ensures NoNul(Attr(attr, v, rest)) && NoNul([attr, '='] + v)
  {
  }

  lemma {:induction false} ServerFirstFields(cnonce: string, m: string, nonce: string, m1: string, salt: string, m2: string, d: string, n: int)
    requires ReadAttrValue(m, 'r') == Ok(Field(nonce, m1)) && ReadAttrValue(m1, 's') == Ok(Field(salt, m2))
    requires ReadAttrValue(m2, 'i') == Ok(Field(d, "")) && ReadIterations(d) == Ok(n) && cnonce <= nonce
    ensures ReadServerFirst(cnonce, m) == Ok(ServerFirst(nonce, salt, n))
  {
  }

  lemma {:induction false} ServerFirstRoundTrip(cnonce: string, snonce: string, salt: string, iterations: int)
    requires Printable(cnonce) && Printable(snonce) && Printable(salt) && 1 <= iterations < 0x8000_0000
    ensures ReadServerFirst(cnonce, PrintServerFirst(cnonce, snonce, salt, iterations))
         == Ok(ServerFirst(cnonce + snonce, salt, iterations))
  {
    var d := Digits(iterations);
    ServerFirstShape(cnonce, snonce, salt, iterations);
    DigitsAreDigits(iterations);
    NumberRoundTrip(iterations);
    AttrRoundTrip('r', cnonce + snonce, Attr('s', salt, ['i', '='] + d));
    AttrRoundTrip('s', salt, ['i', '='] + d);
    AttrRoundTrip('i', d, "");
    ServerFirstFields(cnonce, Attr('r', cnonce + snonce, Attr('s', salt, ['i', '='] + d)), cnonce + snonce,
                      Attr('s', salt, ['i', '='] + d), salt, ['i', '='] + d, d, iterations);
  }

  lemma {:induction false} ServerFirstNoNul(cnonce: string, snonce: string, salt: string, iterations: int)
    requires Printable(cnonce) && Printable(snonce) && Printable(salt) && 1 <= iterations < 0x8000_0000
    ensures NoNul(PrintServerFirst(cnonce, snonce, salt, iterations)) && PrintServerFirst(cnonce, snonce, salt, iterations) != ""
  {
    var d := Digits(iterations);
    ServerFirstShape(cnonce, snonce, salt, iterations);
    DigitsAreDigits(iterations);
    AttrNoNul('i', d, "");
    AttrNoNul('s', salt, ['i', '='] + d);
    AttrNoNul('r', cnonce + snonce, Attr('s', salt, ['i', '='] + d));
  }

  lemma {:induction false} ClientFinalShape(nonce: string, proof: string)
    ensures PrintClientFinal(nonce, proof) == Attr('c', "biws", Attr('r', nonce, ['p', '='] + proof))
    ensures var m := PrintClientFinal(nonce, proof); m[..|m| - |['p', '='] + proof| - 1] == PrintFinalWithoutProof(nonce)
  {
  }

  lemma {:induction false} ClientFinalFields(m: string, m1: string, nonce: string, m2: string, proof: string)
    requires ReadAttrValue(m, 'c') == Ok(Field("biws", m1)) && ReadAttrValue(m1, 'r') == Ok(Field(nonce, m2))
    requires ReadAttrValue(m2, 'p') == Ok(Field(proof, "")) && |m2| < |m|
    ensures ReadClientFinal('n', m) == Ok(ClientFinal(nonce, proof, m[..|m| - |m2| - 1]))
  {
    assert ReadAnyAttr(m2) == ReadAttrValue(m2, 'p');
  }

  lemma {:induction false} ClientFinalRoundTrip(nonce: string, proof: string)
    requires Printable(nonce) && Printable(proof)
    ensures ReadClientFinal('n', PrintClientFinal(nonce, proof)) == Ok(ClientFinal(nonce, proof, PrintFinalWithoutProof(nonce)))
  {
    var p := ['p', '='] + proof;
    ClientFinalShape(nonce, proof);
    AttrRoundTrip('c', "biws", Attr('r', nonce, p));
    AttrRoundTrip('r', nonce, p);
    AttrRoundTrip('p', proof, "");
    ClientFinalFields(PrintClientFinal(nonce, proof), Attr('r', nonce, p), nonce, p, proof);
  }

  lemma {:induction false} ClientFinalNoNul(nonce: string, proof: string)
    requires Printable(nonce) && Printable(proof)
    ensures NoNul(PrintClientFinal(nonce, proof)) && PrintClientFinal(nonce, proof) != ""
  {
    ClientFinalShape(nonce, proof);
    AttrNoNul('p', proof, "");
    AttrNoNul('r', nonce, ['p', '='] + proof);
    AttrNoNul('c', "biws", Attr('r', nonce, ['p', '='] + proof));
  }

  lemma {:induction false} ServerFinalRoundTrip(signature: string)
    requires Printable(signature)
    ensures ReadServerFinal(PrintServerFinal(signature)) == Ok(signature)
    ensures NoNul(PrintServerFinal(signature)) && PrintServerFinal(signature) != ""
  {
    assert PrintServerFinal(signature) == ['v', '='] + signature;
    AttrRoundTrip('v', signature, "");
  }

  lemma {:induction false} KeyRoundTrip(k: Key)
    requires |k| == SCRAM_KEY_LEN
    ensures DecodeKey(Encode(k)) == Ok(k) && Printable(Encode(k))
  {
    RoundTrip(k);
    EncodedPrintable(k);
  }

  // ----- an honest run completes -----

  ghost predicate HonestInputs(c: Crypto, iterations: int, cnonce: string, snonce: string) {
    Sound(c) && 1 <= iterations < 0x8000_0000 && Printable(cnonce) && Printable(snonce)
  }

  // The exchange up to the server's challenge.
  lemma {:induction false} HonestChallenge(c: Crypto, password: string, salt: seq<Byte>, iterations: int, cnonce: string, snonce: string)
      returns (cl1: Client, m1: string, sv1: Server, m2: string)
    requires HonestInputs(c, iterations, cnonce, snonce)
    ensures ClientStep(c, ClientInit(password), "", cnonce) == (cl1, Send(m1))
    ensures ServerStep(c, ServerFor(c, password, salt, iterations), Some(m1), snonce) == (sv1, Continue(m2))
    ensures m1 == PrintClientFirst(cnonce) && m2 == PrintServerFirst(cnonce, snonce, Encode(salt), iterations)
    ensures cl1 == Client(NonceSent, password, cnonce, "n=,r=" + cnonce, "", "", [])
    ensures sv1 == ServerFor(c, password, salt, iterations).(phase := SaltSent,
                     first := ClientFirst('n', "n=,r=" + cnonce, cnonce), serverNonce := snonce, serverFirst := m2)
  {
    ClientFirstRoundTrip(cnonce);
    m1 := PrintClientFirst(cnonce);
    assert m1[3..] == "n=,r=" + cnonce;
    cl1 := ClientStep(c, ClientInit(password), "", cnonce).0;
    m2 := PrintServerFirst(cnonce, snonce, Encode(salt), iterations);
    sv1 := ServerStep(c, ServerFor(c, password, salt, iterations), Some(m1), snonce).0;
  }

  // The client's answer to that challenge.
  lemma {:induction false} HonestAnswer(c: Crypto, cl1: Client, salt: seq<Byte>, iterations: int, cnonce: string, snonce: string)
      returns (cl2: Client, proof: Key)
    requires HonestInputs(c, iterations, cnonce, snonce) && cl1.phase.NonceSent? && cl1.nonce == cnonce
    ensures var m2 := PrintServerFirst(cnonce, snonce, Encode(salt), iterations);
            var without := PrintFinalWithoutProof(cnonce + snonce);
            var salted := c.salted(cl1.password, salt, iterations);
            && ClientStep(c, cl1, m2, "") == (cl2, Send(PrintClientFinal(cnonce + snonce, Encode(proof))))
            && cl2 == cl1.(phase := ProofSent, serverFirst := m2, withoutProof := without, saltedPassword := salted)
            && proof == ClientProof(c, salted, AuthMessage(cl1.firstBare, m2, without))
  {
    EncodedPrintable(salt);
    RoundTrip(salt);
    ServerFirstRoundTrip(cnonce, snonce, Encode(salt), iterations);
    ServerFirstNoNul(cnonce, snonce, Encode(salt), iterations);
    var m2 := PrintServerFirst(cnonce, snonce, Encode(salt), iterations);
    var without := PrintFinalWithoutProof(cnonce + snonce);
    var salted := c.salted(cl1.password, salt, iterations);
    proof := ClientProof(c, salted, AuthMessage(cl1.firstBare, m2, without));
    cl2 := cl1.(phase := ProofSent, serverFirst := m2, withoutProof := without, saltedPassword := salted);
    assert ClientAnswer(c, cl1, m2, ServerFirst(cnonce + snonce, Encode(salt), iterations))
        == (cl2, Send(PrintClientFinal(cnonce + snonce, Encode(proof))));
  }

  // A proof made with the client key is accepted under the matching stored key.
  lemma {:induction false} HonestProofOk(c: Crypto, salted: Key, auth: string)
    requires Sound(c)
    ensures ProofOk(c, c.h(ClientKey(c, salted)), ClientProof(c, salted, auth), auth)
  {
    XorSeqCancel(ClientKey(c, salted), c.hmac(c.h(ClientKey(c, salted)), auth));
  }

  // The server's verdict on that answer.
  lemma {:induction false} HonestVerdict(c: Crypto, sv1: Server, salted: Key, nonce: string, proof: Key)
      returns (sv2: Server, signature: Key)
    requires Sound(c) && Printable(nonce) && sv1.phase.SaltSent? && !sv1.doomed && sv1.first.flag == 'n'
    requires nonce == sv1.first.nonce + sv1.serverNonce
    requires sv1.storedKey == c.h(ClientKey(c, salted)) && sv1.serverKey == ServerKey(c, salted)
    requires proof == ClientProof(c, salted, AuthMessage(sv1.first.bare, sv1.serverFirst, PrintFinalWithoutProof(nonce)))
    ensures ServerStep(c, sv1, Some(PrintClientFinal(nonce, Encode(proof))), "") == (sv2, Success(PrintServerFinal(Encode(signature))))
    ensures sv2 == sv1.(phase := AuthFinished)
    ensures signature == c.hmac(ServerKey(c, salted), AuthMessage(sv1.first.bare, sv1.serverFirst, PrintFinalWithoutProof(nonce)))
  {
    KeyRoundTrip(proof);
    ClientFinalRoundTrip(nonce, Encode(proof));
    ClientFinalNoNul(nonce, Encode(proof));
    HonestProofOk(c, salted, AuthMessage(sv1.first.bare, sv1.serverFirst, PrintFinalWithoutProof(nonce)));
    signature := c.hmac(ServerKey(c, salted), AuthMessage(sv1.first.bare, sv1.serverFirst, PrintFinalWithoutProof(nonce)));
    sv2 := sv1.(phase := AuthFinished);
  }

  lemma {:induction false} HonestEnd(c: Crypto, cl2: Client)
    requires Sound(c) && cl2.phase.ProofSent?
    ensures var signature := c.hmac(ServerKey(c, cl2.saltedPassword), AuthMessage(cl2.firstBare, cl2.serverFirst, cl2.withoutProof));
            ClientStep(c, cl2, PrintServerFinal(Encode(signature)), "") == (cl2.(phase := FeFinished), Done(true))
  {
    var signature := c.hmac(ServerKey(c, cl2.saltedPassword), AuthMessage(cl2.firstBare, cl2.serverFirst, cl2.withoutProof));
    KeyRoundTrip(signature);
    ServerFinalRoundTrip(Encode(signature));
  }

  // The four messages of a run written out, with the text both ends sign.
  ghost predicate OnTheWire(c: Crypto, salted: Key, salt: string, iterations: nat, cnonce: string, snonce: string,
                            m1: string, m2: string, m3: string, m4: string, proof: Key) {
    && m1 == "n,,n=,r=" + cnonce
    && m2 == "r=" + cnonce + snonce + ",s=" + salt + ",i=" + Digits(iterations)
    && m3 == "c=biws,r=" + (cnonce + snonce) + ",p=" + Encode(proof)
    && var text := "n=,r=" + cnonce + "," + m2 + "," + ("c=biws,r=" + (cnonce + snonce));
       && Hides(proof, c.hmac(salted, "Client Key"), c.hmac(c.h(c.hmac(salted, "Client Key")), text))
       && m4 == "v=" + Encode(c.hmac(c.hmac(salted, "Server Key"), text))
  }

  // The proof is the key hidden by the signature.
  ghost predicate Hides(proof: Key, key: Key, signature: Key) {
    |proof| == |signature| && XorSeq(proof, signature) == key
  }

  lemma {:induction false} ProofHides(c: Crypto, salted: Key, text: string)
    requires Sound(c)
    ensures var key := c.hmac(salted, "Client Key"); Hides(ClientProof(c, salted, text), key, c.hmac(c.h(key), text))
  {
    var key := c.hmac(salted, "Client Key");
    XorSeqCancel(key, c.hmac(c.h(key), text));
  }

  lemma ChallengeText(cnonce: string, snonce: string, salt: string, iterations: nat)
    requires iterations < 0x8000_0000
    ensures PrintServerFirst(cnonce, snonce, salt, iterations) == "r=" + cnonce + snonce + ",s=" + salt + ",i=" + Digits(iterations)
  {
    assert iterations % 0x1_0000_0000 == iterations;
  }

  lemma SignedText(cnonce: string, snonce: string, m2: string)
    ensures AuthMessage("n=,r=" + cnonce, m2, PrintFinalWithoutProof(cnonce + snonce))
         == "n=,r=" + cnonce + "," + m2 + "," + ("c=biws,r=" + (cnonce + snonce))
  {
  }

  lemma {:induction false} WrittenOut(c: Crypto, salted: Key, salt: string, iterations: nat, cnonce: string, snonce: string,
                                      m2: string, text: string, proof: Key)
    requires Sound(c) && iterations < 0x8000_0000
    requires m2 == PrintServerFirst(cnonce, snonce, salt, iterations)
    requires text == AuthMessage("n=,r=" + cnonce, m2, PrintFinalWithoutProof(cnonce + snonce))
    requires proof == ClientProof(c, salted, text)
    ensures OnTheWire(c, salted, salt, iterations, cnonce, snonce, PrintClientFirst(cnonce), m2,
                      PrintClientFinal(cnonce + snonce, Encode(proof)), PrintServerFinal(Encode(c.hmac(ServerKey(c, salted), text))), proof)
  {
    ProofHides(c, salted, text);
    ChallengeText(cnonce, snonce, salt, iterations);
    SignedText(cnonce, snonce, m2);
  }

  // For every password, salt, iteration count and pair of printable nonces the
  // four messages pass: the server succeeds, the client ends with success, and
  // both signed the same text.
  lemma {:induction false} HonestRun(c: Crypto, password: string, salt: seq<Byte>, iterations: int, cnonce: string, snonce: string)
      returns (cl1: Client, m1: string, sv1: Server, m2: string, cl2: Client, m3: string, sv2: Server, m4: string, cl3: Client, proof: Key)
    requires HonestInputs(c, iterations, cnonce, snonce)
    ensures ClientStep(c, ClientInit(password), "", cnonce) == (cl1, Send(m1))
    ensures ServerStep(c, ServerFor(c, password, salt, iterations), Some(m1), snonce) == (sv1, Continue(m2))
    ensures ClientStep(c, cl1, m2, "") == (cl2, Send(m3))
    ensures ServerStep(c, sv1, Some(m3), "") == (sv2, Success(m4))
    ensures ClientStep(c, cl2, m4, "") == (cl3, Done(true))
    ensures sv2.phase.AuthFinished? && cl3.phase.FeFinished?
    ensures cl2.firstBare == sv1.first.bare && cl2.serverFirst == sv1.serverFirst
    ensures ReadClientFinal('n', m3).Ok? && ReadClientFinal('n', m3).value.withoutProof == cl2.withoutProof
    ensures OnTheWire(c, c.salted(password, salt, iterations), Encode(salt), iterations, cnonce, snonce, m1, m2, m3, m4, proof)
  {
    cl1, m1, sv1, m2 := HonestChallenge(c, password, salt, iterations, cnonce, snonce);
    var signature;
    cl2, proof := HonestAnswer(c, cl1, salt, iterations, cnonce, snonce);
    m3 := PrintClientFinal(cnonce + snonce, Encode(proof));
    sv2, signature := HonestVerdict(c, sv1, c.salted(password, salt, iterations), cnonce + snonce, proof);
    m4 := PrintServerFinal(Encode(signature));
    cl3 := cl2.(phase := FeFinished);
    HonestEnd(c, cl2);
    KeyRoundTrip(proof);
    ClientFinalRoundTrip(cnonce + snonce, Encode(proof));
    WrittenOut(c, c.salted(password, salt, iterations), Encode(salt), iterations, cnonce, snonce, m2,
               AuthMessage("n=,r=" + cnonce, m2, PrintFinalWithoutProof(cnonce + snonce)), proof);
  }
}
