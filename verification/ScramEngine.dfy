/** The exchange routines as they run: cursors advanced over the message, fields
    of the exchange record filled step by step, proofs combined byte by byte.
    Each is proved against the parsers and state machines of Scram and
    ScramExchange. */
module ScramEngine {
  import opened Options
  import opened Bytes
  import opened Strings
  import opened Base64
  import opened Scram
  import opened ScramExchange

  // ----- cursors -----

  // The end of the field that starts at p: the next comma or the end.
  method ScanField(input: string, p: nat) returns (value: string, q: nat)
    requires p <= |input|
    ensures p <= q <= |input| && TakeField(input[p..]) == Field(value, input[q..])
  {
    var end := p;
    while end < |input| && input[end] != ','
      invariant p <= end <= |input|
      invariant FieldLen(input[p..]) == (end - p) + FieldLen(input[end..])
    {
      assert input[end..][1..] == input[end + 1..];
      end := end + 1;
    }
    value := input[p..end];
    assert input[p..][..end - p] == value;
    if end < |input| {
      q := end + 1;
      assert input[p..][end - p + 1..] == input[q..];
    } else {
      q := end;
      assert input[p..] == value;
    }
  }

  method ScanAttrValue(input: string, p: nat, attr: char) returns (r: Result<string>, q: nat)
    requires p <= |input|
    ensures p <= q <= |input|
    ensures match r
            case Ok(v) => ReadAttrValue(input[p..], attr) == Ok(Field(v, input[q..]))
            case Error => ReadAttrValue(input[p..], attr).Error?
  {
    q := p;
    if p >= |input| || input[p] != attr || p + 1 >= |input| || input[p + 1] != '=' {
      return Error, q;
    }
    var v;
    v, q := ScanField(input, p + 2);
    assert input[p..][2..] == input[p + 2..];
    r := Ok(v);
  }

  method ScanAnyAttr(input: string, p: nat) returns (r: Result<string>, q: nat)
    requires p <= |input|
    ensures p <= q <= |input|
    ensures match r
            case Ok(v) => p < q && ReadAnyAttr(input[p..]) == Ok(Field(v, input[q..]))
            case Error => ReadAnyAttr(input[p..]).Error?
  {
    q := p;
    if p >= |input| || !IsAlpha(input[p]) || p + 1 >= |input| || input[p + 1] != '=' {
      return Error, q;
    }
    var v;
    v, q := ScanField(input, p + 2);
    assert input[p..][2..] == input[p + 2..];
    r := Ok(v);
  }

  method IsScramPrintable(s: string) returns (ok: bool)
    ensures ok <==> Printable(s)
  {
    for i := 0 to |s|
      invariant forall k | 0 <= k < i :: '!' <= s[k] <= '~' && s[k] != ','
    {
      if s[i] < '!' || s[i] > '~' || s[i] == ',' {
        return false;
      }
    }
    return true;
  }

  // ----- messages -----

  method ParseClientFirst(input: string) returns (r: Result<ClientFirst>)
    ensures r == ReadClientFirst(input)
  {
    if |input| < 3 || (input[0] != 'n' && input[0] != 'y') || input[1] != ',' || input[2] != ',' {
      return Error;
    }
    var user, p := ScanAttrValue(input, 3, 'n');
    if user.Error? {
      return Error;
    }
    var nonce;
    nonce, p := ScanAttrValue(input, p, 'r');
    if nonce.Error? {
      return Error;
    }
    var ok := IsScramPrintable(nonce.value);
    if !ok {
      return Error;
    }
    ghost var start := p;
    while p < |input|
      invariant start <= p <= |input|
      invariant AllAttrs(input[start..]) == AllAttrs(input[p..])
    {
      var any, q := ScanAnyAttr(input, p);
      if any.Error? {
        return Error;
      }
      p := q;
    }
    r := Ok(ClientFirst(input[0], input[3..], nonce.value));
  }

  // Skips extensions; `at` is where the proof attribute starts.
  method ScanToProof(input: string, start: nat) returns (r: Result<string>, at: nat, q: nat)
    requires start <= |input|
    ensures start <= at <= q <= |input|
    ensures match r
            case Ok(v) => SkipToProof(input[start..]) == Ok(ProofField(input[at..], v, input[q..]))
            case Error => SkipToProof(input[start..]).Error?
  {
    at := start;
    r, q := ScanAnyAttr(input, at);
    while r.Ok? && input[at] != 'p'
      invariant start <= at <= q <= |input|
      invariant SkipToProof(input[start..]) == SkipToProof(input[at..])
      invariant match r
                case Ok(v) => at < q && ReadAnyAttr(input[at..]) == Ok(Field(v, input[q..]))
                case Error => ReadAnyAttr(input[at..]).Error?
      decreases |input| - at, if r.Ok? then 1 else 0
    {
      at := q;
      r, q := ScanAnyAttr(input, at);
    }
  }

  // The rest of the final message once binding and nonce have been read.
  method ParseProof(input: string, p: nat, nonce: string) returns (r: Result<ClientFinal>)
    requires 0 < p <= |input|
    ensures r == ReadProof(input, Field(nonce, input[p..]))
  {
    var value, at, q := ScanToProof(input, p);
    if value.Error? || q != |input| {
      return Error;
    }
    assert |input| - |input[at..]| - 1 == at - 1;
    r := Ok(ClientFinal(nonce, value.value, input[..at - 1]));
  }

  method ParseClientFinal(flag: char, input: string) returns (r: Result<ClientFinal>)
    ensures r == ReadClientFinal(flag, input)
  {
    assert input[0..] == input;
    var binding, p := ScanAttrValue(input, 0, 'c');
    if binding.Error? {
      return Error;
    }
    if !(flag == 'n' && binding.value == "biws") && !(flag == 'y' && binding.value == "eSws") {
      return Error;
    }
    var nonce;
    nonce, p := ScanAttrValue(input, p, 'r');
    if nonce.Error? {
      return Error;
    }
    r := ParseProof(input, p, nonce.value);
  }

  method ParseServerFirst(clientNonce: string, input: string) returns (r: Result<ServerFirst>)
    ensures r == ReadServerFirst(clientNonce, input)
  {
    assert input[0..] == input;
    var nonce, p := ScanAttrValue(input, 0, 'r');
    if nonce.Error? || |nonce.value| < |clientNonce| || nonce.value[..|clientNonce|] != clientNonce {
      return Error;
    }
    var salt;
    salt, p := ScanAttrValue(input, p, 's');
    if salt.Error? {
      return Error;
    }
    var iter;
    iter, p := ScanAttrValue(input, p, 'i');
    if iter.Error? {
      return Error;
    }
    var n := ReadIterations(iter.value);
    if n.Error? {
      return Error;
    }
    r := Ok(ServerFirst(nonce.value, salt.value, n.value));
  }

  method ParseServerFinal(input: string) returns (r: Result<string>)
    ensures r == ReadServerFinal(input)
  {
    assert input[0..] == input;
    if input != "" && input[0] == 'e' {
      return Error;
    }
    var v, p := ScanAttrValue(input, 0, 'v');
    r := v;
  }

  // ----- keys -----

  method XorLoop(a: Key, b: Key) returns (r: Key)
    requires |a| == |b| == SCRAM_KEY_LEN
    ensures r == XorSeq(a, b)
  {
    var buf := new Byte[SCRAM_KEY_LEN](_ => 0);
    for i := 0 to SCRAM_KEY_LEN
      invariant forall k | 0 <= k < i :: buf[k] == Xor(a[k], b[k])
    {
      buf[i] := Xor(a[i], b[i]);
    }
    r := buf[..];
  }

  method DecodeKeyLoop(s: string) returns (r: Result<Key>)
    ensures r == DecodeKey(s)
  {
    var d := DecodeLoop(s);
    r := if d.Some? && |d.value| == SCRAM_KEY_LEN then Ok(d.value) else Error;
  }

  method VerifyFinalNonce(client: string, server: string, final: string) returns (ok: bool)
    ensures ok <==> final == client + server
  {
    ok := |final| == |client| + |server| && final[..|client|] == client && final[|client|..] == server;
    assert ok ==> final == final[..|client|] + final[|client|..];
  }

  method VerifyClientProof(c: Crypto, storedKey: Key, proof: Key, auth: string) returns (ok: bool)
    requires Sound(c) && |proof| == SCRAM_KEY_LEN
    ensures ok <==> ProofOk(c, storedKey, proof, auth)
  {
    var clientKey := XorLoop(proof, c.hmac(storedKey, auth));
    ok := c.h(clientKey) == storedKey;
  }

  method CalculateClientProof(c: Crypto, salted: Key, auth: string) returns (proof: Key)
    requires Sound(c)
    ensures proof == ClientProof(c, salted, auth)
  {
    var clientKey := ClientKey(c, salted);
    var storedKey := c.h(clientKey);
    proof := XorLoop(clientKey, c.hmac(storedKey, auth));
  }

  method IsTerminated(s: string) returns (ok: bool)
    ensures ok <==> NoNul(s)
  {
    for i := 0 to |s|
      invariant forall k | 0 <= k < i :: s[k] != '\0'
    {
      if s[i] == '\0' {
        return false;
      }
    }
    return true;
  }

  // ----- the exchange records -----

  class BackendExchange {
    const crypto: Crypto
    var state: ServerPhase
    const doomed: bool
    const iterations: int
    const salt: string
    const storedKey: Key
    const serverKey: Key
    var cbindFlag: char
    var clientFirstMessageBare: string
    var clientNonce: string
    var serverNonce: string
    var serverFirstMessage: string

    function Value(): Server
      reads this
    {
      Server(state, doomed, iterations, salt, storedKey, serverKey,
             ClientFirst(cbindFlag, clientFirstMessageBare, clientNonce), serverNonce, serverFirstMessage)
    }

    constructor (crypto: Crypto, doomed: bool, iterations: int, salt: string, storedKey: Key, serverKey: Key)
      ensures Value() == ServerInit(doomed, iterations, salt, storedKey, serverKey) && this.crypto == crypto
    {
      this.crypto, this.doomed, this.iterations, this.salt := crypto, doomed, iterations, salt;
      this.storedKey, this.serverKey := storedKey, serverKey;
      state, cbindFlag := AuthInit, '\0';
      clientFirstMessageBare, clientNonce, serverNonce, serverFirstMessage := "", "", "", "";
    }

    method AnswerFirst(input: string, nonce: string) returns (o: Outcome)
      requires state.AuthInit? && input != "" && NoNul(input)
      modifies this
      ensures (Value(), o) == ServerStep(crypto, old(Value()), Some(input), nonce)
    {
      var first := ParseClientFirst(input);
      if first.Error? {
        return Malformed;
      }
      cbindFlag, clientFirstMessageBare, clientNonce := first.value.flag, first.value.bare, first.value.nonce;
      serverNonce := nonce;
      serverFirstMessage := PrintServerFirst(clientNonce, serverNonce, salt, iterations);
      state := SaltSent;
      o := Continue(serverFirstMessage);
    }

    method VerifyFinal(input: string, ghost nonce: string) returns (o: Outcome)
      requires Sound(crypto) && state.SaltSent? && input != "" && NoNul(input)
      modifies this
      ensures (Value(), o) == ServerStep(crypto, old(Value()), Some(input), nonce)
    {
      var final := ParseClientFinal(cbindFlag, input);
      if final.Error? {
        return Malformed;
      }
      var f := final.value;
      var proof := DecodeKeyLoop(f.proof);
      if proof.Error? {
        return Malformed;
      }
      var same := VerifyFinalNonce(clientNonce, serverNonce, f.nonce);
      if !same {
        return Malformed;
      }
      var auth := AuthMessage(clientFirstMessageBare, serverFirstMessage, f.withoutProof);
      var ok := VerifyClientProof(crypto, storedKey, proof.value, auth);
      if !ok || doomed {
        return Failure;
      }
      var signature := EncodeLoop(crypto.hmac(serverKey, auth));
      o := Success(PrintServerFinal(signature));
      state := AuthFinished;
    }

    method Exchange(input: Option<string>, nonce: string) returns (o: Outcome)
      requires Sound(crypto)
      modifies this
      ensures (Value(), o) == ServerStep(crypto, old(Value()), input, nonce)
    {
      if input.None? {
        return Continue("");
      }
      var m := input.value;
      var terminated := IsTerminated(m);
      if m == "" || !terminated {
        return Malformed;
      }
      match state
      case AuthInit => o := AnswerFirst(m, nonce);
      case SaltSent => o := VerifyFinal(m, nonce);
      case AuthFinished => o := Malformed;
    }
  }

  class FrontendExchange {
    const crypto: Crypto
    const password: string
    var state: ClientPhase
    var clientNonce: string
    var clientFirstMessageBare: string
    var serverFirstMessage: string
    var clientFinalMessageWithoutProof: string
    var saltedPassword: Key

    function Value(): Client
      reads this
    {
      Client(state, password, clientNonce, clientFirstMessageBare, serverFirstMessage,
             clientFinalMessageWithoutProof, saltedPassword)
    }

    constructor (crypto: Crypto, password: string)
      ensures Value() == ClientInit(password) && this.crypto == crypto
    {
      this.crypto, this.password, state := crypto, password, FeInit;
      clientNonce, clientFirstMessageBare, serverFirstMessage, clientFinalMessageWithoutProof := "", "", "", "";
      saltedPassword := [];
    }

    method BuildClientFinal(input: string, f: ServerFirst) returns (o: ClientOutcome)
      requires Sound(crypto)
      modifies this
      ensures (Value(), o) == ClientAnswer(crypto, old(Value()), input, f)
    {
      var salt := DecodeLoop(f.salt);
      serverFirstMessage := input;
      clientFinalMessageWithoutProof := PrintFinalWithoutProof(f.nonce);
      if salt.None? {
        saltedPassword := crypto.undecoded(password, f.salt, f.iterations);
      } else {
        saltedPassword := crypto.salted(password, salt.value, f.iterations);
      }
      var auth := AuthMessage(clientFirstMessageBare, serverFirstMessage, clientFinalMessageWithoutProof);
      var proof := CalculateClientProof(crypto, saltedPassword, auth);
      var encoded := EncodeLoop(proof);
      state := ProofSent;
      o := Send(PrintClientFinal(f.nonce, encoded));
    }

    method VerifyServerSignature(input: string, ghost nonce: string) returns (o: ClientOutcome)
      requires Sound(crypto) && state.ProofSent? && input != "" && NoNul(input)
      modifies this
      ensures (Value(), o) == ClientStep(crypto, old(Value()), input, nonce)
    {
      o := Done(false);
      var v := ParseServerFinal(input);
      if v.Ok? {
        var signature := DecodeKeyLoop(v.value);
        var auth := AuthMessage(clientFirstMessageBare, serverFirstMessage, clientFinalMessageWithoutProof);
        if signature.Ok? && signature.value == crypto.hmac(ServerKey(crypto, saltedPassword), auth) {
          state := FeFinished;
          o := Done(true);
        }
      }
    }

    // The buffer for the first message is sized in a signed char, so the nonce
    // must leave room in 127 bytes; the 24 characters really drawn do.
    method Exchange(input: string, nonce: string) returns (o: ClientOutcome)
      requires Sound(crypto) && (state.FeInit? ==> 8 + |nonce| + 1 <= 127)
      modifies this
      ensures (Value(), o) == ClientStep(crypto, old(Value()), input, nonce)
    {
      if state.FeInit? {
        var m := PrintClientFirst(nonce);
        clientNonce, clientFirstMessageBare := nonce, m[3..];
        state := NonceSent;
        return Send(m);
      }
      var terminated := IsTerminated(input);
      if input == "" || !terminated || state.FeFinished? {
        return Done(false);
      }
      if state.ProofSent? {
        o := VerifyServerSignature(input, nonce);
      } else {
        var f := ParseServerFirst(clientNonce, input);
        if f.Error? {
          return Done(false);
        }
        o := BuildClientFinal(input, f.value);
      }
    }
  }
}
