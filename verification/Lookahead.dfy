/** The filter between the grammar and the core lexer: one token of lookahead
    replaces NOT, NULLS and WITH where the grammar needs it.  The core lexer cuts
    the text short after the token it returned and undoes that on its next call;
    the filter has to put the cut of the current token back after looking ahead. */
module Lookahead {

  datatype Token =
    | NOT | NULLS | WITH
    | BETWEEN | IN | LIKE | ILIKE | SIMILAR
    | FIRST | LAST
    | TIME | ORDINALITY
    | NOT_LA | NULLS_LA | WITH_LA
    | Eof
    | OtherToken(code: int)

  datatype Lexeme = Lexeme(token: Token, val: string, loc: nat, len: nat) {
    function End(): nat {
      loc + len
    }
  }

  predicate Looks(t: Token) {
    t.NOT? || t.NULLS? || t.WITH?
  }

  // The hard-wired lengths of the tokens that need lookahead.
  function LengthOf(t: Token): nat
    requires Looks(t)
  {
    match t
    case NOT => 3
    case NULLS => 5
    case WITH => 4
  }

  function Replace(t: Token, next: Token): Token {
    match t
    case NOT => if next.BETWEEN? || next.IN? || next.LIKE? || next.ILIKE? || next.SIMILAR? then NOT_LA else t
    case NULLS => if next.FIRST? || next.LAST? then NULLS_LA else t
    case WITH => if next.TIME? || next.ORDINALITY? then WITH_LA else t
    case _ => t
  }

  // What the core lexer guarantees of its tokens on a text: in order, inside the
  // text, empty only at the end, keywords of the right length.
  ghost predicate LexedAt(stream: nat -> Lexeme, text: string, n: nat) {
    && stream(n).End() < |text|
    && stream(n).End() <= stream(n + 1).loc
    && (stream(n).len == 0 ==> text[stream(n).loc] == '\0')
    && (Looks(stream(n).token) ==> stream(n).len == LengthOf(stream(n).token))
  }

  ghost predicate LexesText(stream: nat -> Lexeme, text: string) {
    forall n: nat :: LexedAt(stream, text, n)
  }

  // The text cut at one place.
  function Cut(text: string, at: nat): (r: string)
    requires at < |text|
    ensures |r| == |text|
  {
    text[at := '\0']
  }

  lemma CutTwice(text: string, at: nat, later: nat)
    requires at < |text| && later < |text| && (at == later ==> text[at] == '\0')
    ensures Cut(Cut(text, later), at)[at := text[at]] == Cut(text, later)
    ensures Cut(Cut(text, at), later) == Cut(Cut(text, later), at)
    ensures Cut(text, later)[at] == text[at]
  {
  }

  lemma CutPrefix(text: string, at: nat, later: nat)
    requires at <= later < |text|
    ensures Cut(Cut(text, later), at)[..at] == text[..at] && Cut(Cut(text, later), at)[at] == '\0'
  {
  }

  // The core lexer: the lexemes come from outside, the cutting is its own.
  class CoreScanner {
    ghost const text: string
    const stream: nat -> Lexeme
    const scanbuf: array<char>
    var taken: nat                  // tokens returned so far
    var holdChar: char              // what the cut replaced

    constructor (s: string, stream: nat -> Lexeme)
      requires LexesText(stream, s)
      ensures text == s && this.stream == stream && fresh(scanbuf) && taken == 0 && Valid() && AsLeft() == text
    {
      text := s;
      this.stream := stream;
      var b := new char[|s|](i requires 0 <= i < |s| => s[i]);
      scanbuf := b;
      taken, holdChar := 0, '\0';
      new;
      assert scanbuf[..] == s;
    }

    ghost predicate Valid()
      reads this
    {
      && LexesText(stream, text) && scanbuf.Length == |text|
      && (taken > 0 ==> LexedAt(stream, text, taken - 1) && holdChar == text[stream(taken - 1).End()])
    }

    // The buffer as the lexer leaves it: cut after the last token.
    ghost function AsLeft(): string
      reads this
      requires Valid()
    {
      if taken == 0 then text else Cut(text, stream(taken - 1).End())
    }

    // core_yylex
    method CoreYylex() returns (x: Lexeme)
      requires Valid() && scanbuf[..] == AsLeft()
      modifies this`taken, this`holdChar, scanbuf
      ensures Valid() && taken == old(taken) + 1
      ensures x == stream(old(taken)) && scanbuf[..] == Cut(text, x.End())
    {
      if taken > 0 {
        scanbuf[stream(taken - 1).End()] := holdChar;
      }
      assert scanbuf[..] == text;
      x := stream(taken);
      assert LexedAt(stream, text, taken);
      holdChar := scanbuf[x.End()];
      scanbuf[x.End()] := '\0';
      taken := taken + 1;
    }
  }

  class Filter {
    const core: CoreScanner
    var haveLookahead: bool
    var lookahead: Lexeme
    var lookaheadEnd: nat
    var lookaheadHoldChar: char
    ghost var calls: nat            // calls of the filter so far

    constructor (core: CoreScanner)
      requires core.Valid() && core.taken == 0 && core.scanbuf[..] == core.text
      ensures this.core == core && calls == 0 && Valid()
    {
      this.core := core;
      haveLookahead, lookahead, lookaheadEnd, lookaheadHoldChar := false, Lexeme(Eof, "", 0, 0), 0, '\0';
      calls := 0;
    }

    // With a token in hand the lexer is one ahead and the buffer is cut twice:
    // after the token last returned and after the one in hand.
    ghost predicate Valid()
      reads this, core, core.scanbuf
    {
      && core.Valid()
      && (!haveLookahead ==> core.taken == calls && core.scanbuf[..] == core.AsLeft())
      && (haveLookahead ==>
            && core.taken == calls + 1 && calls > 0 && LexedAt(core.stream, core.text, calls - 1)
            && lookahead == core.stream(calls)
            && lookaheadEnd == core.stream(calls - 1).End()
            && lookaheadHoldChar == core.text[lookaheadEnd]
            && core.scanbuf[..] == Cut(Cut(core.text, lookahead.End()), lookaheadEnd))
    }

    // The current token, from hand or from the lexer; the buffer is then cut
    // after it and nowhere else.
    method Take() returns (x: Lexeme)
      requires Valid()
      modifies this, core`taken, core`holdChar, core.scanbuf
      ensures core.Valid() && !haveLookahead && calls == old(calls) + 1 && core.taken == calls
      ensures x == core.stream(old(calls)) && core.scanbuf[..] == Cut(core.text, x.End())
    {
      if haveLookahead {
        x := lookahead;
        InOrder(core.stream, core.text, calls - 1);
        CutTwice(core.text, lookaheadEnd, x.End());
        core.scanbuf[lookaheadEnd] := lookaheadHoldChar;
        haveLookahead := false;
      } else {
        x := core.CoreYylex();
      }
      calls := calls + 1;
    }

    // base_yylex: the n-th call returns the n-th token of the lexer with its
    // value and place, replaced as its successor asks; afterwards the buffer is
    // cut after that token, and no token has been lost or repeated.
    method BaseYylex() returns (token: Token, val: string, loc: nat)
      requires Valid()
      modifies this, core`taken, core`holdChar, core.scanbuf
      ensures Valid() && calls == old(calls) + 1
      ensures token == Filtered(core.stream, old(calls))
      ensures val == core.stream(old(calls)).val && loc == core.stream(old(calls)).loc
      ensures core.stream(old(calls)).End() < |core.text|
              && core.scanbuf[core.stream(old(calls)).End()] == '\0'
      ensures core.scanbuf[..core.stream(old(calls)).End()] == core.text[..core.stream(old(calls)).End()]
    {
      var cur := Take();
      assert LexedAt(core.stream, core.text, calls - 1);
      token, val, loc := cur.token, cur.val, cur.loc;
      assert core.scanbuf[..][cur.End()] == '\0';
      assert core.scanbuf[..][..cur.End()] == core.text[..cur.End()];
      if !Looks(cur.token) {
        return;
      }
      var next := LookAhead(cur);
      token := Replace(cur.token, next.token);
      CutPrefix(core.text, cur.End(), next.End());
      assert core.scanbuf[..cur.End()] == core.scanbuf[..][..cur.End()];
      assert core.scanbuf[cur.End()] == core.scanbuf[..][cur.End()];
    }

    // Fetches the token after the current one and puts the current cut back.
    method LookAhead(cur: Lexeme) returns (next: Lexeme)
      requires core.Valid() && !haveLookahead && calls > 0 && core.taken == calls
      requires cur == core.stream(calls - 1) && Looks(cur.token) && core.scanbuf[..] == Cut(core.text, cur.End())
      modifies this, core`taken, core`holdChar, core.scanbuf
      ensures Valid() && haveLookahead && calls == old(calls) && next == core.stream(calls)
      ensures cur.End() <= next.End() < |core.text| && core.scanbuf[..] == Cut(Cut(core.text, next.End()), cur.End())
    {
      lookaheadEnd := cur.loc + LengthOf(cur.token);
      assert LexedAt(core.stream, core.text, calls - 1);
      assert core.scanbuf[..][lookaheadEnd] == '\0';
      InOrder(core.stream, core.text, calls - 1);
      next := core.CoreYylex();
      lookahead := next;
      CutTwice(core.text, lookaheadEnd, next.End());
      assert core.scanbuf[..][lookaheadEnd] == core.text[lookaheadEnd];
      lookaheadHoldChar := core.scanbuf[lookaheadEnd];
      core.scanbuf[lookaheadEnd] := '\0';
      haveLookahead := true;
      assert core.scanbuf[..] == Cut(Cut(core.text, next.End()), lookaheadEnd);
    }
  }

  lemma InOrder(stream: nat -> Lexeme, text: string, n: nat)
    requires LexesText(stream, text)
    ensures stream(n).End() <= stream(n + 1).End() < |text|
    ensures stream(n).End() == stream(n + 1).End() ==> text[stream(n).End()] == '\0'
  {
    assert LexedAt(stream, text, n) && LexedAt(stream, text, n + 1);
  }

  function Filtered(stream: nat -> Lexeme, n: nat): Token {
    Replace(stream(n).token, stream(n + 1).token)
  }

  // ----- the filter on whole token sequences -----

  predicate IsLA(t: Token) {
    t.NOT_LA? || t.NULLS_LA? || t.WITH_LA?
  }

  // The pairs of tokens the grammar treats specially.
  predicate Special(t: Token, next: Token) {
    || (t == NOT && next in {BETWEEN, IN, LIKE, ILIKE, SIMILAR})
    || (t == NULLS && next in {FIRST, LAST})
    || (t == WITH && next in {TIME, ORDINALITY})
  }

  function Plain(t: Token): Token {
    match t
    case NOT_LA => NOT
    case NULLS_LA => NULLS
    case WITH_LA => WITH
    case _ => t
  }

  function Prefix(stream: nat -> Lexeme, n: nat): (r: seq<Token>)
    ensures |r| == n
  {
    if n == 0 then [] else Prefix(stream, n - 1) + [Filtered(stream, n - 1)]
  }

  // The first n results are the first n core tokens, one for one and in order,
  // and differ from them exactly at the special pairs.
  lemma {:induction false} PrefixIsCoreTokens(stream: nat -> Lexeme, n: nat, k: nat)
    requires k < n && (forall i: nat :: !IsLA(stream(i).token))
    ensures Plain(Prefix(stream, n)[k]) == stream(k).token
    ensures IsLA(Prefix(stream, n)[k]) <==> Special(stream(k).token, stream(k + 1).token)
    ensures !IsLA(Prefix(stream, n)[k]) ==> Prefix(stream, n)[k] == stream(k).token
    decreases n
  {
    assert !IsLA(stream(k).token);
    if k < n - 1 {
      PrefixIsCoreTokens(stream, n - 1, k);
    }
  }
}
