/** SCRAM-SHA-256 (RFC 5802, RFC 7677): the messages of both ends as printed and
    as parsed, and the two state machines that exchange them.  The hash, the keyed
    hash and the password salting are parameters; an error that the C code raises
    ends the exchange and is the outcome Error here. */
module Scram {
  import opened Options
  import opened Bytes
  import opened Strings
  import opened Base64

  const SCRAM_KEY_LEN: nat := 32

  type Key = seq<Byte>

  datatype Result<+T> = Ok(value: T) | Error

  // H, HMAC and SaltedPassword.
  // `undecoded` is what salting gives when the salt's text does not decode: the
  // code goes on with a length of -1, and what comes of that is not said here.
  datatype Crypto = Crypto(h: Key -> Key, hmac: (Key, string) -> Key, salted: (string, seq<Byte>, int) -> Key,
                           undecoded: (string, string, int) -> Key)

  ghost predicate Sound(c: Crypto) {
    && (forall k :: |c.h(k)| == SCRAM_KEY_LEN)
    && (forall k, m :: |c.hmac(k, m)| == SCRAM_KEY_LEN)
    && (forall p, s, i :: |c.salted(p, s, i)| == SCRAM_KEY_LEN)
    && (forall p, s, i :: |c.undecoded(p, s, i)| == SCRAM_KEY_LEN)
  }

  function ClientKey(c: Crypto, salted: Key): Key {
    c.hmac(salted, "Client Key")
  }

  function ServerKey(c: Crypto, salted: Key): Key {
    c.hmac(salted, "Server Key")
  }

  // ----- attributes -----

  predicate NoNul(s: string) {
    forall i | 0 <= i < |s| :: s[i] != '\0'
  }

  // Length of the leading part without a comma.
  function FieldLen(s: string): (n: nat)
    ensures n <= |s|
  {
    if s == "" || s[0] == ',' then 0 else 1 + FieldLen(s[1..])
  }

  lemma {:induction false} FieldLenIsFirstComma(s: string)
    ensures var n := FieldLen(s); (forall i | 0 <= i < n :: s[i] != ',') && (n < |s| ==> s[n] == ',')
  {
    if s != "" && s[0] != ',' {
      FieldLenIsFirstComma(s[1..]);
      assert forall i | 1 <= i < FieldLen(s) :: s[i] == s[1..][i - 1];
    }
  }

  datatype Field = Field(value: string, rest: string)

  // The value up to the next comma, and what follows that comma.
  function TakeField(s: string): (f: Field)
    ensures |f.rest| <= |s|
  {
    var n := FieldLen(s);
    if n < |s| then Field(s[..n], s[n + 1..]) else Field(s, "")
  }

  function ReadAttrValue(s: string, attr: char): (r: Result<Field>)
    ensures r.Ok? ==> |r.value.rest| < |s|
  {
    if |s| < 2 || s[0] != attr || s[1] != '=' then Error else Ok(TakeField(s[2..]))
  }

  predicate IsAlpha(c: char) {
    'A' <= c <= 'Z' || 'a' <= c <= 'z'
  }

  function ReadAnyAttr(s: string): (r: Result<Field>)
    ensures r.Ok? ==> |r.value.rest| < |s|
  {
    if |s| < 2 || !IsAlpha(s[0]) || s[1] != '=' then Error else Ok(TakeField(s[2..]))
  }

  predicate AllAttrs(s: string)
    decreases |s|
  {
    s == "" || (ReadAnyAttr(s).Ok? && AllAttrs(ReadAnyAttr(s).value.rest))
  }

  // ----- client-first-message -----

  datatype ClientFirst = ClientFirst(flag: char, bare: string, nonce: string)

  function ReadClientFirst(input: string): Result<ClientFirst> {
    if |input| < 3 || (input[0] != 'n' && input[0] != 'y') || input[1] != ',' || input[2] != ',' then Error
    else
      var bare := input[3..];
      match ReadAttrValue(bare, 'n')
      case Error => Error
      case Ok(user) =>
        match ReadAttrValue(user.rest, 'r')
        case Error => Error
        case Ok(nonce) =>
          if Printable(nonce.value) && AllAttrs(nonce.rest) then Ok(ClientFirst(input[0], bare, nonce.value)) else Error
  }

  function PrintClientFirst(nonce: string): string {
    "n,,n=,r=" + nonce
  }

  // ----- server-first-message -----

  function DigitsLen(s: string): (n: nat)
    ensures n <= |s| && (forall i | 0 <= i < n :: IsDigit(s[i]))
  {
    if s == "" || !IsDigit(s[0]) then 0 else 1 + DigitsLen(s[1..])
  }

  predicate IsSpace(c: char) {
    c == ' ' || '\t' <= c <= '\r'
  }

  function SkipSpace(s: string): string {
    if s == "" || !IsSpace(s[0]) then s else SkipSpace(s[1..])
  }

  const LONG_MAX: int := 0x7fff_ffff_ffff_ffff

  // A 64-bit number cut to 32 bits, as stored in an int.
  function ToInt32(v: int): (r: int)
    ensures -0x8000_0000 <= r < 0x8000_0000
  {
    var m := v % 0x1_0000_0000;
    if m < 0x8000_0000 then m else m - 0x1_0000_0000
  }

  // The whole string read as a decimal number (blanks and a sign may lead,
  // values saturate); anything left over is an error.
  function ParseLong(s: string): Result<int> {
    var t := SkipSpace(s);
    var negative := t != "" && t[0] == '-';
    var d := if t != "" && (t[0] == '-' || t[0] == '+') then t[1..] else t;
    var n := DigitsLen(d);
    if n == 0 then (if s == "" then Ok(0) else Error)
    else if n < |d| then Error
    else
      var v: int := DigitsValue(d);
      Ok(if negative then (if v > LONG_MAX then -LONG_MAX - 1 else -v) else if v > LONG_MAX then LONG_MAX else v)
  }

  // The iteration count, stored in an int; it must be positive.
  function ReadIterations(s: string): Result<int> {
    match ParseLong(s)
    case Error => Error
    case Ok(v) => if ToInt32(v) < 1 then Error else Ok(ToInt32(v))
  }

  function PrintServerFirst(clientNonce: string, serverNonce: string, salt: string, iterations: int): string {
    "r=" + clientNonce + serverNonce + ",s=" + salt + ",i=" + Digits(iterations % 0x1_0000_0000)
  }

  datatype ServerFirst = ServerFirst(nonce: string, salt: string, iterations: int)

  // The salt stays encoded here; garbage after the last attribute is only
  // warned about.
  function ReadServerFirst(clientNonce: string, input: string): Result<ServerFirst> {
    match ReadAttrValue(input, 'r')
    case Error => Error
    case Ok(nonce) =>
      if !(clientNonce <= nonce.value) then Error
      else
        match ReadAttrValue(nonce.rest, 's')
        case Error => Error
        case Ok(salt) =>
          match ReadAttrValue(salt.rest, 'i')
          case Error => Error
          case Ok(iter) =>
            match ReadIterations(iter.value)
            case Error => Error
            case Ok(n) => Ok(ServerFirst(nonce.value, salt.value, n))
  }

  // ----- client-final-message -----

  function PrintFinalWithoutProof(nonce: string): string {
    "c=biws,r=" + nonce
  }

  function PrintClientFinal(nonce: string, proof: string): string {
    PrintFinalWithoutProof(nonce) + ",p=" + proof
  }

  // The remaining input at the proof attribute, its value, and what follows.
  datatype ProofField = ProofField(at: string, value: string, rest: string)

  function SkipToProof(s: string): (r: Result<ProofField>)
    ensures r.Ok? ==> |r.value.at| <= |s|
    decreases |s|
  {
    match ReadAnyAttr(s)
    case Error => Error
    case Ok(f) => if s[0] == 'p' then Ok(ProofField(s, f.value, f.rest)) else SkipToProof(f.rest)
  }

  // The proof stays encoded here.
  datatype ClientFinal = ClientFinal(nonce: string, proof: string, withoutProof: string)

  // What follows the nonce: extensions, the proof, and nothing more.  The
  // signed part is everything before the comma in front of the proof.
  function ReadProof(input: string, nonce: Field): Result<ClientFinal>
    requires |nonce.rest| < |input|
  {
    match SkipToProof(nonce.rest)
    case Error => Error
    case Ok(p) =>
      if p.rest != "" then Error else Ok(ClientFinal(nonce.value, p.value, input[..|input| - |p.at| - 1]))
  }

  function ReadClientFinal(flag: char, input: string): Result<ClientFinal> {
    match ReadAttrValue(input, 'c')
    case Error => Error
    case Ok(binding) =>
      if !(flag == 'n' && binding.value == "biws") && !(flag == 'y' && binding.value == "eSws") then Error
      else
        match ReadAttrValue(binding.rest, 'r')
        case Error => Error
        case Ok(nonce) => ReadProof(input, nonce)
  }

  // A key sent in base64; any other length is malformed.
  function DecodeKey(s: string): Result<Key> {
    match Decode(s)
    case None => Error
    case Some(k) => if |k| == SCRAM_KEY_LEN then Ok(k) else Error
  }

  // ----- server-final-message -----

  function PrintServerFinal(signature: string): string {
    "v=" + signature
  }

  // An error attribute makes the exchange fail; garbage at the end is tolerated.
  function ReadServerFinal(input: string): Result<string> {
    match ReadAttrValue(input, 'v')
    case Error => Error
    case Ok(f) => Ok(f.value)
  }

  function AuthMessage(clientFirstBare: string, serverFirst: string, withoutProof: string): string {
    clientFirstBare + "," + serverFirst + "," + withoutProof
  }
}
