/** Base64 without white space, as used for SCRAM salts, nonces and proofs:
    the encoding and decoding loops, and the fact that decoding undoes encoding. */
module Base64 {
  import opened Options
  import opened Bytes

  function Symbol(i: int): (c: char)
    requires 0 <= i < 64
  {
    if i < 26 then ('A' as int + i) as char
    else if i < 52 then ('a' as int + (i - 26)) as char
    else if i < 62 then ('0' as int + (i - 52)) as char
    else if i == 62 then '+'
    else '/'
  }

  // The decoding table; -1 marks a character outside the alphabet.
  function Lookup(c: char): (i: int)
    ensures -1 <= i < 64
  {
    if 'A' <= c <= 'Z' then c as int - 'A' as int
    else if 'a' <= c <= 'z' then c as int - 'a' as int + 26
    else if '0' <= c <= '9' then c as int - '0' as int + 52
    else if c == '+' then 62
    else if c == '/' then 63
    else -1
  }

  lemma LookupSymbol(i: int)
    requires 0 <= i < 64
    ensures Lookup(Symbol(i)) == i && Symbol(i) != '='
  {
  }

  // The four symbols of a 24-bit group.
  function Symbols(buf: int): (s: string)
    requires 0 <= buf < 0x1000000
    ensures |s| == 4
  {
    [Symbol(buf / 0x40000 % 64), Symbol(buf / 0x1000 % 64), Symbol(buf / 0x40 % 64), Symbol(buf % 64)]
  }

  function Group(b0: Byte, b1: Byte, b2: Byte): (buf: int)
    ensures 0 <= buf < 0x1000000
  {
    b0 * 0x10000 + b1 * 0x100 + b2
  }

  function Encode(b: seq<Byte>): string {
    if |b| == 0 then ""
    else if |b| == 1 then Symbols(Group(b[0], 0, 0))[..2] + "=="
    else if |b| == 2 then Symbols(Group(b[0], b[1], 0))[..3] + "="
    else Symbols(Group(b[0], b[1], b[2])) + Encode(b[3..])
  }

  // The decoder between two characters: bits gathered, how many characters
  // they came from, where the padding began, and the bytes written.
  datatype Decoder = Decoder(buf: int, pos: nat, end: nat, out: seq<Byte>)

  const START: Decoder := Decoder(0, 0, 0, [])

  function Feed(d: Decoder, c: char): Option<Decoder> {
    if c == '=' && d.end == 0 && d.pos != 2 && d.pos != 3 then None
    else if c != '=' && Lookup(c) < 0 then None
    else
      var end := if c == '=' && d.end == 0 then d.pos - 1 else d.end;
      var buf := d.buf * 64 + if c == '=' then 0 else Lookup(c);
      if d.pos + 1 != 4 then Some(Decoder(buf, d.pos + 1, end, d.out))
      else
        var o1 := d.out + [buf / 0x10000 % 256];
        var o2 := if end == 0 || end > 1 then o1 + [buf / 0x100 % 256] else o1;
        var o3 := if end == 0 || end > 2 then o2 + [buf % 256] else o2;
        Some(Decoder(0, 0, end, o3))
  }

  function FeedAll(d: Decoder, s: string): (r: Option<Decoder>)
    decreases |s|
  {
    if s == "" then Some(d)
    else match Feed(d, s[0])
         case None => None
         case Some(d') => FeedAll(d', s[1..])
  }

  function Decode(s: string): Option<seq<Byte>> {
    match FeedAll(START, s)
    case None => None
    case Some(d) => if d.pos != 0 then None else Some(d.out)
  }

  // ----- the loops -----

  // What is written for one or two left-over bytes.
  method WriteTail(buf: int, pos: int, ghost rest: seq<Byte>) returns (s: string)
    requires |rest| == 2 - pos && 0 <= pos <= 1
    requires pos == 1 ==> buf == Group(rest[0], 0, 0)
    requires pos == 0 ==> buf == Group(rest[0], rest[1], 0)
    ensures s == Encode(rest)
  {
    s := [Symbol(buf / 0x40000 % 64), Symbol(buf / 0x1000 % 64)];
    s := s + [if pos == 0 then Symbol(buf / 0x40 % 64) else '='];
    s := s + ['='];
    assert pos == 0 ==> s == Symbols(buf)[..3] + "=";
    assert pos == 1 ==> s == Symbols(buf)[..2] + "==";
  }

  lemma EncodeGroup(b: seq<Byte>, i: nat)
    requires i + 3 <= |b|
    ensures Encode(b[i..]) == Symbols(Group(b[i], b[i + 1], b[i + 2])) + Encode(b[i + 3..])
  {
    assert b[i..][3..] == b[i + 3..];
  }

  lemma GroupWritten(dst: string, b: seq<Byte>, i: nat)
    requires i + 3 <= |b|
    ensures dst + Encode(b[i..]) == dst + Symbols(Group(b[i], b[i + 1], b[i + 2])) + Encode(b[i + 3..])
  {
    EncodeGroup(b, i);
    Regrouped(dst, Symbols(Group(b[i], b[i + 1], b[i + 2])), Encode(b[i + 3..]));
  }

  lemma Regrouped(a: string, b: string, c: string)
    ensures a + (b + c) == a + b + c
  {
  }

  // Bytes are gathered most significant first; a full group is written out.
  method EncodeLoop(src: seq<Byte>) returns (dst: string)
    ensures dst == Encode(src)
  {
    dst := "";
    var buf: int := 0;
    var pos, i := 2, 0;
    ghost var k := 0;
    assert src[0..] == src;
    while i < |src|
      invariant 0 <= pos <= 2 && 0 <= k && i == k + (2 - pos) && i <= |src|
      invariant pos == 2 ==> buf == 0
      invariant pos == 1 ==> buf == Group(src[k], 0, 0)
      invariant pos == 0 ==> buf == Group(src[k], src[k + 1], 0)
      invariant dst + Encode(src[k..]) == Encode(src)
    {
      var b: int := src[i];
      if pos == 2 {
        buf := buf + b * 0x10000;
      } else if pos == 1 {
        buf := buf + b * 0x100;
      } else {
        buf := buf + b;
      }
      pos := pos - 1;
      i := i + 1;
      if pos < 0 {
        GroupWritten(dst, src, k);
        dst := dst + Symbols(buf);
        pos, buf := 2, 0;
        k := i;
      }
    }
    if pos != 2 {
      var tail := WriteTail(buf, pos, src[k..]);
      dst := dst + tail;
    }
  }

  method DecodeLoop(src: string) returns (r: Option<seq<Byte>>)
    ensures r == Decode(src)
  {
    var out: seq<Byte> := [];
    var buf, pos, end, i := 0, 0, 0, 0;
    while i < |src|
      invariant 0 <= i <= |src| && 0 <= pos < 4 && 0 <= end <= 2
      invariant FeedAll(START, src) == FeedAll(Decoder(buf, pos, end, out), src[i..])
    {
      var c := src[i];
      i := i + 1;
      assert src[i - 1..][1..] == src[i..];
      var b := 0;
      if c == ' ' || c == '\t' || c == '\n' || c == '\r' {
        return None;
      }
      if c == '=' {
        if end == 0 {
          if pos == 2 {
            end := 1;
          } else if pos == 3 {
            end := 2;
          } else {
            return None;
          }
        }
      } else {
        b := Lookup(c);
        if b < 0 {
          return None;
        }
      }
      buf := buf * 64 + b;
      pos := pos + 1;
      if pos == 4 {
        out := out + [buf / 0x10000 % 256];
        if end == 0 || end > 1 {
          out := out + [buf / 0x100 % 256];
        }
        if end == 0 || end > 2 {
          out := out + [buf % 256];
        }
        buf, pos := 0, 0;
      }
    }
    r := if pos != 0 then None else Some(out);
  }

  // ----- decoding undoes encoding -----

  // The four sextets of a group, and the group put back together.
  lemma {:induction false} Sextets(b0: Byte, b1: Byte, b2: Byte)
    ensures var buf := Group(b0, b1, b2);
            && buf / 0x40000 % 64 == b0 / 4
            && buf / 0x1000 % 64 == b0 % 4 * 16 + b1 / 16
            && buf / 0x40 % 64 == b1 % 16 * 4 + b2 / 64
            && buf % 64 == b2 % 64
  {
    var buf := Group(b0, b1, b2);
    var q0, r0, q1, r1, q2, r2 := b0 / 4, b0 % 4, b1 / 16, b1 % 16, b2 / 64, b2 % 64;
    assert b0 == 4 * q0 + r0 && b1 == 16 * q1 + r1 && b2 == 64 * q2 + r2;
    DivMod(buf, 0x40000, q0, r0 * 0x10000 + b1 * 0x100 + b2);
    DivMod(buf, 0x1000, b0 * 16 + q1, r1 * 0x100 + b2);
    DivMod(b0 * 16 + q1, 64, q0, r0 * 16 + q1);
    DivMod(buf, 0x40, b0 * 0x400 + b1 * 4 + q2, r2);
    DivMod(b0 * 0x400 + b1 * 4 + q2, 64, b0 * 16 + q1, r1 * 4 + q2);
    DivMod(buf, 64, b0 * 0x400 + b1 * 4 + q2, r2);
  }

  lemma {:induction false} Regroup(b0: Byte, b1: Byte, b2: Byte)
    ensures (((b0 / 4) * 64 + (b0 % 4 * 16 + b1 / 16)) * 64 + (b1 % 16 * 4 + b2 / 64)) * 64 + b2 % 64 == Group(b0, b1, b2)
    ensures Group(b0, b1, b2) / 0x10000 % 256 == b0
    ensures Group(b0, b1, b2) / 0x100 % 256 == b1
    ensures Group(b0, b1, b2) % 256 == b2
  {
    var buf := Group(b0, b1, b2);
    DivMod(buf, 0x10000, b0, b1 * 0x100 + b2);
    DivMod(buf, 0x100, b0 * 256 + b1, b2);
    DivMod(b0 * 256 + b1, 256, b0, b1);
  }

  // Four characters of one group take the decoder back to a group boundary.
  lemma {:induction false} FeedFour(d: Decoder, s: string)
    requires |s| >= 4 && Feed(d, s[0]).Some? && Feed(Feed(d, s[0]).value, s[1]).Some?
    requires Feed(Feed(Feed(d, s[0]).value, s[1]).value, s[2]).Some?
    requires Feed(Feed(Feed(Feed(d, s[0]).value, s[1]).value, s[2]).value, s[3]).Some?
    ensures FeedAll(d, s) == FeedAll(Feed(Feed(Feed(Feed(d, s[0]).value, s[1]).value, s[2]).value, s[3]).value, s[4..])
  {
    assert s[1..][1..] == s[2..] && s[2..][1..] == s[3..] && s[3..][1..] == s[4..];
    var d1 := Feed(d, s[0]).value;
    var d2 := Feed(d1, s[1]).value;
    var d3 := Feed(d2, s[2]).value;
    assert FeedAll(d, s) == FeedAll(d1, s[1..]);
    assert FeedAll(d1, s[1..]) == FeedAll(d2, s[2..]);
    assert FeedAll(d2, s[2..]) == FeedAll(d3, s[3..]);
  }

  // The decoder after the first three symbols of a group, and after the fourth.
  lemma {:induction false} FeedSymbols(out: seq<Byte>, v0: int, v1: int, v2: int, v3: int)
    requires 0 <= v0 < 64 && 0 <= v1 < 64 && 0 <= v2 < 64 && 0 <= v3 < 64
    ensures Feed(Decoder(0, 0, 0, out), Symbol(v0)) == Some(Decoder(v0, 1, 0, out))
    ensures Feed(Decoder(v0, 1, 0, out), Symbol(v1)) == Some(Decoder(v0 * 64 + v1, 2, 0, out))
    ensures Feed(Decoder(v0 * 64 + v1, 2, 0, out), Symbol(v2)) == Some(Decoder((v0 * 64 + v1) * 64 + v2, 3, 0, out))
    ensures var buf := ((v0 * 64 + v1) * 64 + v2) * 64 + v3;
            Feed(Decoder((v0 * 64 + v1) * 64 + v2, 3, 0, out), Symbol(v3))
            == Some(Decoder(0, 0, 0, out + [buf / 0x10000 % 256] + [buf / 0x100 % 256] + [buf % 256]))
  {
    LookupSymbol(v0);
    LookupSymbol(v1);
    LookupSymbol(v2);
    LookupSymbol(v3);
  }

  lemma {:induction false} FeedGroup(out: seq<Byte>, b0: Byte, b1: Byte, b2: Byte, rest: string)
    ensures FeedAll(Decoder(0, 0, 0, out), Symbols(Group(b0, b1, b2)) + rest) ==
            FeedAll(Decoder(0, 0, 0, out + [b0] + [b1] + [b2]), rest)
  {
    Sextets(b0, b1, b2);
    Regroup(b0, b1, b2);
    var s := Symbols(Group(b0, b1, b2)) + rest;
    FeedSymbols(out, b0 / 4, b0 % 4 * 16 + b1 / 16, b1 % 16 * 4 + b2 / 64, b2 % 64);
    FeedFour(Decoder(0, 0, 0, out), s);
    assert s[4..] == rest;
  }

  lemma {:induction false} FeedOne(out: seq<Byte>, b0: Byte)
    ensures FeedAll(Decoder(0, 0, 0, out), Encode([b0])) == Some(Decoder(0, 0, 1, out + [b0]))
  {
    Sextets(b0, 0, 0);
    Regroup(b0, 0, 0);
    LookupSymbol(b0 / 4);
    LookupSymbol(b0 % 4 * 16);
    var s := Encode([b0]);
    assert s == [Symbol(b0 / 4), Symbol(b0 % 4 * 16), '=', '='];
    assert s[4..] == "";
    FeedFour(Decoder(0, 0, 0, out), s);
  }

  lemma {:induction false} FeedTwo(out: seq<Byte>, b0: Byte, b1: Byte)
    ensures FeedAll(Decoder(0, 0, 0, out), Encode([b0, b1])) == Some(Decoder(0, 0, 2, out + [b0] + [b1]))
  {
    Sextets(b0, b1, 0);
    Regroup(b0, b1, 0);
    LookupSymbol(b0 / 4);
    LookupSymbol(b0 % 4 * 16 + b1 / 16);
    LookupSymbol(b1 % 16 * 4);
    var s := Encode([b0, b1]);
    assert s == [Symbol(b0 / 4), Symbol(b0 % 4 * 16 + b1 / 16), Symbol(b1 % 16 * 4), '='];
    assert s[4..] == "";
    FeedFour(Decoder(0, 0, 0, out), s);
  }

  lemma {:induction false} FeedEncoded(out: seq<Byte>, b: seq<Byte>)
    ensures FeedAll(Decoder(0, 0, 0, out), Encode(b)).Some?
    ensures var d := FeedAll(Decoder(0, 0, 0, out), Encode(b)).value; d.pos == 0 && d.out == out + b
    decreases |b|
  {
    if |b| == 0 {
    } else if |b| == 1 {
      assert b == [b[0]];
      FeedOne(out, b[0]);
    } else if |b| == 2 {
      assert b == [b[0], b[1]];
      FeedTwo(out, b[0], b[1]);
      assert out + [b[0]] + [b[1]] == out + b;
    } else {
      FeedGroup(out, b[0], b[1], b[2], Encode(b[3..]));
      FeedEncoded(out + [b[0]] + [b[1]] + [b[2]], b[3..]);
      assert out + [b[0]] + [b[1]] + [b[2]] + b[3..] == out + b;
    }
  }

  lemma {:induction false} RoundTrip(b: seq<Byte>)
    ensures Decode(Encode(b)) == Some(b)
  {
    FeedEncoded([], b);
    assert [] + b == b;
  }

  // Printable characters other than the comma (section 7 of RFC 5802).
  predicate Printable(s: string) {
    forall i | 0 <= i < |s| :: '!' <= s[i] <= '~' && s[i] != ','
  }

  lemma {:induction false} EncodedPrintable(b: seq<Byte>)
    ensures Printable(Encode(b))
    decreases |b|
  {
    if |b| >= 3 {
      EncodedPrintable(b[3..]);
    }
  }

  lemma SymbolsOf(buf: int, v0: int, v1: int, v2: int, v3: int)
    requires 0 <= v0 < 64 && 0 <= v1 < 64 && 0 <= v2 < 64 && 0 <= v3 < 64
    requires buf == 0x40000 * v0 + 0x1000 * v1 + 0x40 * v2 + v3
    ensures 0 <= buf < 0x1000000 && Symbols(buf) == [Symbol(v0), Symbol(v1), Symbol(v2), Symbol(v3)]
  {
    DivMod(buf, 0x40000, v0, 0x1000 * v1 + 0x40 * v2 + v3);
    DivMod(buf, 0x1000, 64 * v0 + v1, 0x40 * v2 + v3);
    DivMod(64 * v0 + v1, 64, v0, v1);
    DivMod(buf, 0x40, 0x1000 * v0 + 64 * v1 + v2, v3);
    DivMod(0x1000 * v0 + 64 * v1 + v2, 64, 64 * v0 + v1, v2);
    DivMod(buf, 64, 0x1000 * v0 + 64 * v1 + v2, v3);
  }

  // Letters from every part of the alphabet.
  lemma KnownLetters()
    ensures [Symbol(25), Symbol(38), Symbol(61), Symbol(47)] == "Zm9v"
    ensures [Symbol(25), Symbol(38), Symbol(60)] == "Zm8" && [Symbol(25), Symbol(32)] == "Zg"
    ensures [Symbol(0), Symbol(26), Symbol(52), Symbol(62), Symbol(63)] == "Aa0+/"
  {
  }

  // Examples of section 10 of RFC 4648.
  lemma {:induction false} KnownAnswers(f: Byte, o: Byte, rest: seq<Byte>)
    requires f == 0x66 && o == 0x6f
    ensures Encode([f]) == "Zg==" && Encode([f, o]) == "Zm8=" && Encode([f, o, o] + rest) == "Zm9v" + Encode(rest)
  {
    KnownLetters();
    SymbolsOf(Group(f, 0, 0), 25, 32, 0, 0);
    SymbolsOf(Group(f, o, 0), 25, 38, 60, 0);
    SymbolsOf(Group(f, o, o), 25, 38, 61, 47);
    assert ([f, o, o] + rest)[3..] == rest;
  }

  // Characters outside the alphabet are refused.
  lemma {:induction false} RefusesForeign(s: string, i: nat)
    requires i < |s| && s[i] != '=' && s[i] != '+' && s[i] != '/'
    requires !('A' <= s[i] <= 'Z') && !('a' <= s[i] <= 'z') && !('0' <= s[i] <= '9')
    ensures Decode(s) == None
  {
    ForeignStops(START, s, i);
  }

  lemma {:induction false} ForeignStops(d: Decoder, s: string, i: nat)
    requires i < |s| && s[i] != '=' && Lookup(s[i]) < 0
    ensures FeedAll(d, s) == None
    decreases i
  {
    if i > 0 && Feed(d, s[0]).Some? {
      ForeignStops(Feed(d, s[0]).value, s[1..], i - 1);
    }
  }

  // Padding may begin only at the third or fourth character of a group.
  lemma {:induction false} EarlyPaddingRefused(s: string, i: nat)
    requires i < |s| && i % 4 < 2 && s[i] == '='
    requires forall k | 0 <= k < i :: Lookup(s[k]) >= 0
    ensures Decode(s) == None
  {
    EarlyPaddingStops(START, s, i);
  }

  lemma {:induction false} EarlyPaddingStops(d: Decoder, s: string, i: nat)
    requires i < |s| && d.end == 0 && d.pos < 4 && (d.pos + i) % 4 < 2 && s[i] == '='
    requires forall k | 0 <= k < i :: Lookup(s[k]) >= 0
    ensures FeedAll(d, s) == None
    decreases i
  {
    if i > 0 {
      assert s[0] != '=' by {
        assert Lookup(s[0]) >= 0;
      }
      EarlyPaddingStops(Feed(d, s[0]).value, s[1..], i - 1);
    }
  }
}
