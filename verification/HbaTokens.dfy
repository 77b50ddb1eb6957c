/** Tokens of the host-based authentication file: blanks, commas, comments and
    double quotes on one line.  A string stands for what is left of the line; its
    end is the terminating NUL. */
module HbaTokens {

  const MAX_TOKEN: nat := 256
  const MAX_LINE: nat := 8192

  predicate IsBlank(c: char) {
    c == ' ' || c == '\t' || c == '\r'
  }

  predicate IsGap(c: char) {
    IsBlank(c) || c == ','
  }

  // ----- one token -----

  datatype Quoting = Quoting(inQuote: bool, wasQuote: bool, saw: bool, initial: bool)

  datatype Scan = Scan(rest: string, text: string, quoting: Quoting, comma: bool, tooLong: bool) {
    predicate Found() {
      !tooLong && (quoting.saw || text != "")
    }
  }

  function SkipGap(s: string): (r: string)
    ensures |r| <= |s|
    ensures r != "" ==> !IsGap(r[0])
  {
    if s != "" && IsGap(s[0]) then SkipGap(s[1..]) else s
  }

  function Grown(buf: string, c: char, q: Quoting): string {
    if c != '"' || q.wasQuote then buf + [c] else buf
  }

  // The quote flags after a character, given whether the buffer is still empty.
  function Next(q: Quoting, c: char, blankBuffer: bool): Quoting {
    if c == '"' then Quoting(!q.inQuote, q.inQuote && !q.wasQuote, true, q.initial || blankBuffer)
    else q.(wasQuote := false)
  }

  // Collects a token into `buf`, which holds at most MAX_TOKEN - 1 characters.
  function Build(s: string, buf: string, q: Quoting): (r: Scan)
    ensures |r.rest| <= |s|
    decreases |s|
  {
    if s == "" || (IsBlank(s[0]) && !q.inQuote) then Scan(s, buf, q, false, false)
    else if s[0] == '#' && !q.inQuote then Scan("", buf, q, false, false)
    else if |buf| >= MAX_TOKEN - 1 then Scan("", buf, q, false, true)
    else if s[0] == ',' && !q.inQuote then Scan(s, buf, q, true, false)
    else
      var buf' := Grown(buf, s[0], q);
      Build(s[1..], buf', Next(q, s[0], buf' == ""))
  }

  const Fresh: Quoting := Quoting(false, false, false, false)

  function NextToken(s: string): (r: Scan)
    ensures |r.rest| <= |s|
  {
    Build(SkipGap(s), "", Fresh)
  }

  // What a call leaves is a tail of what it was given: it never passes the end.
  lemma {:induction false} SkipGapSuffix(s: string)
    ensures SkipGap(s) == s[|s| - |SkipGap(s)|..]
  {
    if s != "" && IsGap(s[0]) {
      SkipGapSuffix(s[1..]);
    }
  }

  lemma {:induction false} BuildSuffix(s: string, buf: string, q: Quoting)
    ensures var rest := Build(s, buf, q).rest; rest == s[|s| - |rest|..]
    decreases |s|
  {
    if s != "" {
      var buf' := Grown(buf, s[0], q);
      BuildSuffix(s[1..], buf', Next(q, s[0], buf' == ""));
    }
  }

  lemma {:induction false} NextTokenSuffix(s: string)
    ensures var rest := NextToken(s).rest; rest == s[|s| - |rest|..]
  {
    SkipGapSuffix(s);
    BuildSuffix(SkipGap(s), "", Fresh);
  }

  // Every call moves on; the caller's loops end.
  lemma {:induction false} NextTokenAdvances(s: string)
    requires s != ""
    ensures |NextToken(s).rest| < |s|
  {
    SkipGapSuffix(s);
    var g := SkipGap(s);
    if |g| == |s| {
      assert g == s;
      assert Build(s, "", Fresh) == NextToken(s);
    }
  }

  // A character that is neither the end of a token nor a comment.
  lemma BuildStep(c: char, rest: string, buf: string, q: Quoting)
    requires |buf| < MAX_TOKEN - 1 && (q.inQuote || (!IsGap(c) && c != '#'))
    ensures Build([c] + rest, buf, q) == Build(rest, Grown(buf, c, q), Next(q, c, Grown(buf, c, q) == ""))
  {
    assert ([c] + rest)[0] == c && ([c] + rest)[1..] == rest;
  }

  // A token that ends in a comma leaves the comma in front.
  lemma {:induction false} CommaIsLeft(s: string, buf: string, q: Quoting)
    ensures Build(s, buf, q).comma ==> Build(s, buf, q).rest != "" && Build(s, buf, q).rest[0] == ','
    decreases |s|
  {
    if !(s == "" || (IsBlank(s[0]) && !q.inQuote) || (s[0] == '#' && !q.inQuote) || |buf| >= MAX_TOKEN - 1
         || (s[0] == ',' && !q.inQuote)) {
      var buf' := Grown(buf, s[0], q);
      CommaIsLeft(s[1..], buf', Next(q, s[0], buf' == ""));
    }
  }

  method MoveOverGap(line: string, start: nat) returns (pos: nat)
    requires start <= |line|
    ensures start <= pos <= |line| && line[pos..] == SkipGap(line[start..])
  {
    pos := start;
    while pos < |line| && IsGap(line[pos])
      invariant start <= pos <= |line| && SkipGap(line[pos..]) == SkipGap(line[start..])
    {
      assert line[pos..][1..] == line[pos + 1..];
      pos := pos + 1;
    }
  }

  // One character of a token: the buffer and the flags afterwards.
  method Consume(c: char, buf: string, inQuote: bool, wasQuote: bool, saw: bool, initialQuote: bool)
    returns (buf': string, inQuote': bool, wasQuote': bool, saw': bool, initialQuote': bool)
    ensures var q := Quoting(inQuote, wasQuote, saw, initialQuote);
            buf' == Grown(buf, c, q) && Quoting(inQuote', wasQuote', saw', initialQuote') == Next(q, c, buf' == "")
  {
    buf', inQuote', wasQuote', saw', initialQuote' := buf, inQuote, wasQuote, saw, initialQuote;
    if c != '"' || wasQuote {
      buf' := buf + [c];
    }
    if inQuote && c == '"' {
      wasQuote' := !wasQuote;
    } else {
      wasQuote' := false;
    }
    if c == '"' {
      inQuote', saw' := !inQuote, true;
      if buf' == "" {
        initialQuote' := true;
      }
    }
  }

  // The scanner's second loop: a position in the line, a bounded buffer, flags.
  method BuildToken(line: string, start: nat)
    returns (pos: nat, buf: string, initialQuote: bool, comma: bool, found: bool, tooLong: bool)
    requires start <= |line|
    ensures pos <= |line| && |buf| <= MAX_TOKEN - 1
    ensures var r := Build(line[start..], "", Fresh);
            line[pos..] == r.rest && buf == r.text && initialQuote == r.quoting.initial
            && comma == r.comma && found == r.Found() && tooLong == r.tooLong
  {
    ghost var goal := Build(line[start..], "", Fresh);
    pos, buf, initialQuote, comma, tooLong := start, "", false, false, false;
    var inQuote, wasQuote, saw := false, false, false;
    while pos < |line| && (!IsBlank(line[pos]) || inQuote)
      invariant start <= pos <= |line| && |buf| <= MAX_TOKEN - 1
      invariant Build(line[pos..], buf, Quoting(inQuote, wasQuote, saw, initialQuote)) == goal
      invariant !comma && !tooLong
      decreases |line| - pos
    {
      var c := line[pos];
      ghost var q := Quoting(inQuote, wasQuote, saw, initialQuote);
      assert line[pos..] == [c] + line[pos + 1..];
      if c == '#' && !inQuote {
        pos := |line|;
        break;
      }
      if |buf| >= MAX_TOKEN - 1 {
        pos, tooLong := |line|, true;
        break;
      }
      if c == ',' && !inQuote {
        comma := true;
        break;
      }
      BuildStep(c, line[pos + 1..], buf, q);
      buf, inQuote, wasQuote, saw, initialQuote := Consume(c, buf, inQuote, wasQuote, saw, initialQuote);
      pos := pos + 1;
    }
    found := !tooLong && (saw || |buf| > 0);
  }

  // next_token
  method ScanToken(line: string, start: nat)
    returns (pos: nat, buf: string, initialQuote: bool, comma: bool, found: bool, tooLong: bool)
    requires start <= |line|
    ensures pos <= |line| && (start < |line| ==> start < pos)
    ensures |buf| <= MAX_TOKEN - 1
    ensures var r := NextToken(line[start..]);
            line[pos..] == r.rest && buf == r.text && initialQuote == r.quoting.initial
            && comma == r.comma && found == r.Found() && tooLong == r.tooLong
  {
    var first := MoveOverGap(line, start);
    pos, buf, initialQuote, comma, found, tooLong := BuildToken(line, first);
    if start < |line| {
      NextTokenAdvances(line[start..]);
    }
  }

  // ----- quoting -----

  const Mark: char := '"'

  function Doubled(s: string): string {
    if s == "" then "" else (if s[0] == Mark then [Mark, Mark] else [s[0]]) + Doubled(s[1..])
  }

  function Quoted(s: string): string {
    [Mark] + Doubled(s) + [Mark]
  }

  // What may stand right after a token.
  predicate Ends(tail: string) {
    tail == "" || IsGap(tail[0]) || tail[0] == '#'
  }

  function AfterToken(tail: string): string {
    if tail != "" && tail[0] == '#' then "" else tail
  }

  // Inside quotes, opened at the very beginning of the token or later.
  function Inside(initial: bool): Quoting {
    Quoting(true, false, true, initial)
  }

  // The token read inside quotes up to the closing one.
  ghost predicate Reads(r: Scan, text: string, initial: bool, tail: string) {
    && (r.Found() <==> |text| < MAX_TOKEN - 1) && (r.tooLong <==> |text| >= MAX_TOKEN - 1)
    && (r.Found() ==> r.text == text && r.quoting.initial == initial && r.rest == AfterToken(tail)
                      && (r.comma <==> tail != "" && tail[0] == ','))
  }

  lemma ClosingQuote(tail: string, buf: string, initial: bool)
    requires Ends(tail) && (buf == "" ==> initial)
    ensures Reads(Build([Mark] + tail, buf, Inside(initial)), buf, initial, tail)
  {
    if |buf| < MAX_TOKEN - 1 {
      BuildStep(Mark, tail, buf, Inside(initial));
    }
  }

  lemma {:induction false} BuildQuoted(s: string, tail: string, buf: string, initial: bool)
    requires Ends(tail) && |buf| <= MAX_TOKEN - 1 && (buf == "" ==> initial)
    ensures Reads(Build(Doubled(s) + ([Mark] + tail), buf, Inside(initial)), buf + s, initial, tail)
    decreases |s|
  {
    var closing := [Mark] + tail;
    if s == "" {
      assert Doubled(s) + closing == closing && buf + s == buf;
      ClosingQuote(tail, buf, initial);
    } else {
      var rest := Doubled(s[1..]) + closing;
      var buf' := buf + [s[0]];
      assert buf' + s[1..] == buf + s;
      var line := Doubled(s) + closing;
      assert line[0] == s[0];
      if |buf| == MAX_TOKEN - 1 {
        assert Build(line, buf, Inside(initial)).tooLong;
      } else {
        DoubledStep(s, closing, buf, initial);
        BuildQuoted(s[1..], tail, buf', initial);
      }
    }
  }

  lemma {:induction false} DoubledStep(s: string, closing: string, buf: string, initial: bool)
    requires s != "" && |buf| < MAX_TOKEN - 1 && (buf == "" ==> initial)
    ensures Build(Doubled(s) + closing, buf, Inside(initial)) == Build(Doubled(s[1..]) + closing, buf + [s[0]], Inside(initial))
  {
    var rest := Doubled(s[1..]) + closing;
    if s[0] == Mark {
      assert Doubled(s) + closing == [Mark] + ([Mark] + rest);
      BuildStep(Mark, [Mark] + rest, buf, Inside(initial));
      BuildStep(Mark, rest, buf, Next(Inside(initial), Mark, buf == ""));
    } else {
      assert Doubled(s) + closing == [s[0]] + rest;
      BuildStep(s[0], rest, buf, Inside(initial));
    }
  }

  // Quoting a string and scanning it gives the string back, marked as quoted,
  // exactly when it has at most 254 characters; a longer one is refused.
  lemma {:induction false} QuoteRoundTripIff(s: string, gap: string, tail: string)
    requires (forall i | 0 <= i < |gap| :: IsGap(gap[i])) && Ends(tail)
    ensures var r := NextToken(gap + Quoted(s) + tail);
            && (r.Found() <==> |s| <= 254) && (r.tooLong <==> |s| > 254)
            && (|s| <= 254 ==> r.text == s && r.quoting.initial && r.rest == AfterToken(tail)
                               && (r.comma <==> tail != "" && tail[0] == ','))
  {
    var body := Doubled(s) + ([Mark] + tail);
    assert gap + Quoted(s) + tail == gap + ([Mark] + body);
    SkipGapOver(gap, [Mark] + body);
    BuildStep(Mark, body, [], Fresh);
    BuildQuoted(s, tail, [], true);
    assert [] + s == s;
  }

  // ----- plain words -----

  // A word needs no quotes: no gap, no quote and no comment sign in it.
  predicate IsWord(w: string) {
    w != "" && forall i | 0 <= i < |w| :: !IsGap(w[i]) && w[i] != Mark && w[i] != '#'
  }

  predicate BeforeComma(tail: string) {
    tail != "" && tail[0] == Comma
  }

  // A token that fills the buffer still ends at a blank, a comment or the end of
  // the line, but not at a comma, which is looked at later.
  function Limit(tail: string): nat {
    if BeforeComma(tail) then 254 else 255
  }

  lemma {:induction false} BuildWord(w: string, tail: string, buf: string)
    requires (w == "" || IsWord(w)) && Ends(tail) && |buf| <= MAX_TOKEN - 1
    ensures var r := Build(w + tail, buf, Fresh);
            if |buf| + |w| <= Limit(tail) then r == Scan(AfterToken(tail), buf + w, Fresh, BeforeComma(tail), false)
            else r.tooLong
    decreases |w|
  {
    if w == "" {
      assert w + tail == tail && buf + w == buf;
    } else if |buf| < MAX_TOKEN - 1 {
      assert w + tail == [w[0]] + (w[1..] + tail);
      BuildStep(w[0], w[1..] + tail, buf, Fresh);
      BuildWord(w[1..], tail, buf + [w[0]]);
      assert buf + [w[0]] + w[1..] == buf + w;
    } else {
      assert (w + tail)[0] == w[0];
    }
  }

  // A plain word is read as it stands, not marked as quoted, exactly up to that
  // limit; a longer one is refused.
  lemma {:induction false} WordRoundTripIff(w: string, gap: string, tail: string)
    requires (forall i | 0 <= i < |gap| :: IsGap(gap[i])) && IsWord(w) && Ends(tail)
    ensures var r := NextToken(gap + w + tail);
            && (r.Found() <==> |w| <= Limit(tail)) && (r.tooLong <==> |w| > Limit(tail))
            && (r.Found() ==> r.text == w && !r.quoting.initial && r.rest == AfterToken(tail) && (r.comma <==> BeforeComma(tail)))
  {
    assert gap + w + tail == gap + (w + tail) && (w + tail)[0] == w[0];
    SkipGapOver(gap, w + tail);
    BuildWord(w, tail, []);
    assert [] + w == w;
  }

  // Word characters outside quotes are collected one by one.
  lemma {:induction false} BuildWordThen(w: string, rest: string, buf: string)
    requires (w == "" || IsWord(w)) && |buf| + |w| <= MAX_TOKEN - 1
    ensures Build(w + rest, buf, Fresh) == Build(rest, buf + w, Fresh)
    decreases |w|
  {
    if w == "" {
      assert w + rest == rest && buf + w == buf;
    } else {
      assert w + rest == [w[0]] + (w[1..] + rest);
      BuildStep(w[0], w[1..] + rest, buf, Fresh);
      BuildWordThen(w[1..], rest, buf + [w[0]]);
      assert buf + [w[0]] + w[1..] == buf + w;
    }
  }

  // Quotes may begin inside a token; they join on without marking it as quoted.
  lemma {:induction false} JoinedRoundTripIff(w: string, s: string, gap: string, tail: string)
    requires (forall i | 0 <= i < |gap| :: IsGap(gap[i])) && IsWord(w) && |w| <= 254 && Ends(tail)
    ensures var r := NextToken(gap + w + Quoted(s) + tail);
            && (r.Found() <==> |w| + |s| <= 254) && (r.tooLong <==> |w| + |s| > 254)
            && (r.Found() ==> r.text == w + s && !r.quoting.initial && r.rest == AfterToken(tail) && (r.comma <==> BeforeComma(tail)))
  {
    var body := Doubled(s) + ([Mark] + tail);
    var line := w + ([Mark] + body);
    assert gap + w + Quoted(s) + tail == gap + line && line[0] == w[0];
    SkipGapOver(gap, line);
    BuildWordThen(w, [Mark] + body, []);
    assert [] + w == w;
    BuildStep(Mark, body, w, Fresh);
    BuildQuoted(s, tail, w, false);
  }

  // Space, tab, carriage return and comma end a word.
  lemma {:induction false} Separators(c: char, rest: string)
    requires c == ' ' || c == '\t' || c == '\r' || c == ','
    ensures var r := NextToken("all" + ([c] + rest)); r.Found() && r.text == "all" && r.rest == [c] + rest && (r.comma <==> c == ',')
  {
    assert [] + "all" + ([c] + rest) == "all" + ([c] + rest);
    WordRoundTripIff("all", [], [c] + rest);
  }

  // A comment ends the line, and alone gives no token.
  lemma {:induction false} CommentIsSkipped(gap: string, comment: string)
    requires forall i | 0 <= i < |gap| :: IsGap(gap[i])
    ensures var r := NextToken(gap + (['#'] + comment)); !r.Found() && !r.tooLong && r.rest == ""
  {
    SkipGapOver(gap, ['#'] + comment);
  }

  const Comma: char := ','
  const Space: char := ' '

  lemma {:induction false} SkipGapOver(gap: string, s: string)
    requires forall i | 0 <= i < |gap| :: IsGap(gap[i])
    requires s == "" || !IsGap(s[0])
    ensures SkipGap(gap + s) == s
  {
    if gap == "" {
      assert gap + s == s;
    } else {
      assert (gap + s)[1..] == gap[1..] + s;
      SkipGapOver(gap[1..], s);
    }
  }

  // ----- fields and lines -----

  // An unquoted @name asks for the tokens of another file.
  datatype Token = Token(text: string, quoted: bool) {
    predicate IsInclude() {
      !quoted && |text| > 1 && text[0] == '@'
    }
  }

  // What reading another file contributes: its tokens, and whether it failed.
  datatype Included = Included(tokens: seq<Token>, failed: bool)

  type Files = string -> Included

  function Expanded(files: Files, t: Token): Included {
    if t.IsInclude() then files(t.text[1..]) else Included([t], false)
  }

  datatype Field = Field(tokens: seq<Token>, rest: string, failed: bool)

  // The tokens of one comma list.
  function NextField(files: Files, s: string): (f: Field)
    ensures |f.rest| <= |s|
    ensures s != "" ==> |f.rest| < |s|
    decreases |s|
  {
    if s == "" then Field([], "", false)
    else
      var r := NextToken(s);
      NextTokenAdvances(s);
      if !r.Found() then Field([], r.rest, r.tooLong)
      else
        var got := Expanded(files, Token(r.text, r.quoting.initial));
        if !r.comma || got.failed then Field(got.tokens, r.rest, got.failed)
        else
          var f := NextField(files, r.rest);
          Field(got.tokens + f.tokens, f.rest, f.failed)
  }

  datatype Line = Line(fields: seq<seq<Token>>, failed: bool)

  function Fields(files: Files, s: string): Line
    decreases |s|
  {
    if s == "" then Line([], false)
    else
      var f := NextField(files, s);
      var here := if f.tokens == [] then [] else [f.tokens];
      if f.failed then Line(here, true)
      else
        var l := Fields(files, f.rest);
        Line(here + l.fields, l.failed)
  }

  function Joined(before: seq<Token>, f: Field): Field {
    Field(before + f.tokens, f.rest, f.failed)
  }

  lemma JoinedNone(f: Field)
    ensures Joined([], f) == f
  {
    assert [] + f.tokens == f.tokens;
  }

  // What one more token contributes to a field read so far.
  lemma {:induction false} FieldStep(files: Files, s: string, before: seq<Token>)
    ensures var r := NextToken(s);
            var got := Expanded(files, Token(r.text, r.quoting.initial));
            var now := before + got.tokens;
            Joined(before, NextField(files, s)) ==
            if !r.Found() then Field(before, r.rest, r.tooLong)
            else if !r.comma || got.failed then Field(now, r.rest, got.failed)
            else Joined(now, NextField(files, r.rest))
  {
    assert before + [] == before;
    var r := NextToken(s);
    if s != "" && r.Found() && r.comma {
      var got := Expanded(files, Token(r.text, r.quoting.initial)).tokens;
      var f := NextField(files, r.rest);
      assert before + (got + f.tokens) == before + got + f.tokens;
    }
  }

  method ScanField(files: Files, line: string, start: nat) returns (tokens: seq<Token>, pos: nat, failed: bool)
    requires start <= |line|
    ensures pos <= |line| && (start < |line| ==> start < pos)
    ensures Field(tokens, line[pos..], failed) == NextField(files, line[start..])
  {
    ghost var goal := NextField(files, line[start..]);
    tokens, pos, failed := [], start, false;
    var more := true;
    while more
      invariant start <= pos <= |line|
      invariant more ==> !failed && Joined(tokens, NextField(files, line[pos..])) == goal
      invariant !more ==> Field(tokens, line[pos..], failed) == goal
      decreases more, |line| - pos
    {
      FieldStep(files, line[pos..], tokens);
      EmptyToken();
      var next, buf, initialQuote, comma, found, tooLong := ScanToken(line, pos);
      if !found {
        failed, more := tooLong, false;
      } else {
        var token := Token(buf, initialQuote);
        if !initialQuote && |buf| > 1 && buf[0] == '@' {
          var other := files(buf[1..]);
          tokens, failed := tokens + other.tokens, other.failed;
        } else {
          tokens := tokens + [token];
        }
        more := comma && !failed;
      }
      pos := next;
    }
    if start < |line| {
      assert |goal.rest| < |line[start..]|;
    }
  }

  lemma EmptyToken()
    ensures NextToken("") == Scan("", "", Fresh, false, false) && !NextToken("").Found()
  {
  }

  // The line break and carriage returns at the end go.
  function Stripped(s: string): (r: string)
    ensures r <= s
    ensures r != "" ==> r[|r| - 1] != '\n' && r[|r| - 1] != '\r'
  {
    if s != "" && (s[|s| - 1] == '\n' || s[|s| - 1] == '\r') then Stripped(s[..|s| - 1]) else s
  }

  // What goes is line breaks and carriage returns, and all of them.
  lemma {:induction false} StrippedExact(s: string)
    ensures forall i | |Stripped(s)| <= i < |s| :: s[i] == '\n' || s[i] == '\r'
  {
    if s != "" && (s[|s| - 1] == '\n' || s[|s| - 1] == '\r') {
      StrippedExact(s[..|s| - 1]);
    }
  }

  method StripLine(raw: string) returns (line: string)
    ensures line == Stripped(raw)
  {
    var len := |raw|;
    assert raw[..len] == raw;
    while len > 0 && (raw[len - 1] == '\n' || raw[len - 1] == '\r')
      invariant 0 <= len <= |raw| && Stripped(raw) == Stripped(raw[..len])
    {
      assert raw[..len][..len - 1] == raw[..len - 1];
      len := len - 1;
    }
    line := raw[..len];
  }

  function LineJoined(before: seq<seq<Token>>, l: Line): Line {
    Line(before + l.fields, l.failed)
  }

  lemma {:induction false} LineStep(files: Files, s: string, before: seq<seq<Token>>)
    requires s != ""
    ensures var f := NextField(files, s);
            var now := before + if f.tokens == [] then [] else [f.tokens];
            LineJoined(before, Fields(files, s)) == if f.failed then Line(now, true) else LineJoined(now, Fields(files, f.rest))
  {
    var f := NextField(files, s);
    var here := if f.tokens == [] then [] else [f.tokens];
    assert before + (here + Fields(files, f.rest).fields) == before + here + Fields(files, f.rest).fields;
  }

  // One turn of the field loop.
  method ScanNextField(files: Files, line: string, start: nat, before: seq<seq<Token>>)
    returns (fields: seq<seq<Token>>, pos: nat, failed: bool)
    requires start < |line|
    ensures start < pos <= |line|
    ensures LineJoined(before, Fields(files, line[start..]))
         == if failed then Line(fields, true) else LineJoined(fields, Fields(files, line[pos..]))
  {
    LineStep(files, line[start..], before);
    var tokens;
    tokens, pos, failed := ScanField(files, line, start);
    fields := before;
    if tokens != [] {
      fields := fields + [tokens];
    }
  }

  method ScanFields(files: Files, line: string) returns (fields: seq<seq<Token>>, failed: bool)
    ensures Line(fields, failed) == Fields(files, line)
  {
    fields, failed := [], false;
    var pos := 0;
    ghost var goal := Fields(files, line);
    assert line[0..] == line && [] + goal.fields == goal.fields;
    while pos < |line| && !failed
      invariant pos <= |line|
      invariant goal == if failed then Line(fields, true) else LineJoined(fields, Fields(files, line[pos..]))
      decreases !failed, |line| - pos
    {
      fields, pos, failed := ScanNextField(files, line, pos, fields);
    }
    if !failed {
      EndOfLine(files, line[pos..], fields);
    }
  }

  lemma EndOfLine(files: Files, s: string, fields: seq<seq<Token>>)
    requires s == ""
    ensures LineJoined(fields, Fields(files, s)) == Line(fields, false)
  {
    assert fields + [] == fields;
  }

  // What one read line gives; a line that fills the read buffer is refused unread.
  function Tokenized(files: Files, raw: string): Line {
    if |raw| == MAX_LINE - 1 then Line([], true) else Fields(files, Stripped(raw))
  }

  method TokenizeLine(files: Files, raw: string) returns (fields: seq<seq<Token>>, failed: bool)
    ensures Line(fields, failed) == Tokenized(files, raw)
  {
    if |raw| == MAX_LINE - 1 {
      return [], true;
    }
    var line := StripLine(raw);
    fields, failed := ScanFields(files, line);
  }

  // ----- a whole line round trip -----

  // A token as it may be written: quoted, or as a plain word.
  function Shown(t: Token): string {
    if t.quoted then Quoted(t.text) else t.text
  }

  ghost predicate Writable(t: Token) {
    |t.text| <= 254 && (t.quoted || (IsWord(t.text) && !t.IsInclude()))
  }

  function Written(tokens: seq<Token>): string {
    if tokens == [] then ""
    else if |tokens| == 1 then Shown(tokens[0])
    else Shown(tokens[0]) + [Comma] + Written(tokens[1..])
  }

  function WrittenLine(fields: seq<seq<Token>>): string {
    if fields == [] then "" else Written(fields[0]) + [Space] + WrittenLine(fields[1..])
  }

  ghost predicate AllWritable(tokens: seq<Token>) {
    tokens != [] && forall i | 0 <= i < |tokens| :: Writable(tokens[i])
  }

  lemma {:induction false} TokenRoundTrip(t: Token, gap: string, tail: string)
    requires (forall i | 0 <= i < |gap| :: IsGap(gap[i])) && Writable(t) && Ends(tail)
    ensures var r := NextToken(gap + Shown(t) + tail);
            r.Found() && Token(r.text, r.quoting.initial) == t && r.rest == AfterToken(tail) && (r.comma <==> BeforeComma(tail))
  {
    if t.quoted {
      QuoteRoundTripIff(t.text, gap, tail);
    } else {
      WordRoundTripIff(t.text, gap, tail);
    }
  }

  lemma Reassociate(a: string, b: string, c: string, d: string, e: string)
    ensures a + (b + c + d) + e == a + b + (c + d + e)
  {
  }

  lemma WrittenCons(tokens: seq<Token>, gap: string, tail: string)
    requires |tokens| > 1
    ensures gap + Written(tokens) + tail == gap + Shown(tokens[0]) + ([Comma] + Written(tokens[1..]) + tail)
  {
    Reassociate(gap, Shown(tokens[0]), [Comma], Written(tokens[1..]), tail);
  }

  lemma FirstOfField(files: Files, s: string, t: Token, rest: string)
    requires NextToken(s).Found() && Token(NextToken(s).text, NextToken(s).quoting.initial) == t && NextToken(s).rest == rest
    ensures var got := Expanded(files, t);
            NextField(files, s) == if NextToken(s).comma && !got.failed then Joined(got.tokens, NextField(files, rest))
                                   else Field(got.tokens, rest, got.failed)
  {
    JoinedNone(NextField(files, s));
    FieldStep(files, s, []);
    assert [] + Expanded(files, t).tokens == Expanded(files, t).tokens;
  }

  // A plain @name stands for the tokens of the named file; quoted it stands for
  // itself.
  lemma {:induction false} IncludeExpands(files: Files, name: string, gap: string, tail: string)
    requires (forall i | 0 <= i < |gap| :: IsGap(gap[i])) && IsWord(name) && |name| < 254
    requires Ends(tail) && !BeforeComma(tail)
    ensures NextField(files, gap + (['@'] + name) + tail) == Field(files(name).tokens, AfterToken(tail), files(name).failed)
    ensures NextField(files, gap + Quoted(['@'] + name) + tail) == Field([Token(['@'] + name, true)], AfterToken(tail), false)
  {
    var w := ['@'] + name;
    assert w[1..] == name;
    WordRoundTripIff(w, gap, tail);
    FirstOfField(files, gap + w + tail, Token(w, false), AfterToken(tail));
    QuoteRoundTripIff(w, gap, tail);
    FirstOfField(files, gap + Quoted(w) + tail, Token(w, true), AfterToken(tail));
  }

  lemma {:induction false} LastOfField(files: Files, t: Token, gap: string, tail: string)
    requires (forall i | 0 <= i < |gap| :: IsGap(gap[i])) && Writable(t) && tail != "" && IsBlank(tail[0])
    ensures NextField(files, gap + Shown(t) + tail) == Field([t], tail, false)
  {
    TokenRoundTrip(t, gap, tail);
    FirstOfField(files, gap + Shown(t) + tail, t, tail);
  }

  lemma {:induction false} MoreOfField(files: Files, t: Token, gap: string, after: string)
    requires (forall i | 0 <= i < |gap| :: IsGap(gap[i])) && Writable(t) && BeforeComma(after)
    ensures NextField(files, gap + Shown(t) + after) == Joined([t], NextField(files, after))
  {
    TokenRoundTrip(t, gap, after);
    FirstOfField(files, gap + Shown(t) + after, t, after);
  }

  // A comma list, after a possible gap and before a blank.
  lemma {:induction false} FieldRoundTrip(files: Files, tokens: seq<Token>, gap: string, tail: string)
    requires AllWritable(tokens) && tail != "" && IsBlank(tail[0])
    requires forall i | 0 <= i < |gap| :: IsGap(gap[i])
    ensures NextField(files, gap + Written(tokens) + tail) == Field(tokens, tail, false)
    decreases |tokens|
  {
    if |tokens| == 1 {
      LastOfField(files, tokens[0], gap, tail);
      assert tokens == [tokens[0]];
    } else {
      var after := [Comma] + Written(tokens[1..]) + tail;
      WrittenCons(tokens, gap, tail);
      MoreOfField(files, tokens[0], gap, after);
      FieldRoundTrip(files, tokens[1..], [Comma], tail);
      assert tokens == [tokens[0]] + tokens[1..];
    }
  }

  lemma BlankTail(files: Files, gap: string)
    requires gap == [] || gap == [Space]
    ensures Fields(files, gap) == Line([], false)
  {
    if gap != [] {
      SkipGapOver(gap, []);
      assert gap + [] == gap;
      assert NextToken(gap) == Scan("", "", Fresh, false, false);
    }
  }

  lemma LineCons(fields: seq<seq<Token>>, gap: string)
    requires fields != []
    ensures gap + WrittenLine(fields) == gap + Written(fields[0]) + ([Space] + WrittenLine(fields[1..]))
  {
    var rest := WrittenLine(fields[1..]);
    Reassociate(gap, Written(fields[0]), [Space], rest, []);
    assert WrittenLine(fields) + [] == WrittenLine(fields) && [Space] + rest + [] == [Space] + rest;
  }

  lemma FirstOfLine(files: Files, s: string, tokens: seq<Token>, rest: string)
    requires s != "" && tokens != [] && NextField(files, s) == Field(tokens, rest, false)
    ensures Fields(files, s) == LineJoined([tokens], Fields(files, rest))
  {
    LineStep(files, s, []);
    assert [] + [tokens] == [tokens] && [] + Fields(files, s).fields == Fields(files, s).fields;
  }

  // Writing any fields, each token quoted or plain, and reading the line back
  // gives the fields, quoting included.
  lemma {:induction false} LineRoundTrip(files: Files, fields: seq<seq<Token>>, gap: string)
    requires forall i | 0 <= i < |fields| :: AllWritable(fields[i])
    requires gap == [] || gap == [Space]
    ensures Fields(files, gap + WrittenLine(fields)) == Line(fields, false)
    decreases |fields|
  {
    var s := gap + WrittenLine(fields);
    if fields == [] {
      assert s == gap;
      BlankTail(files, gap);
    } else {
      var tail := [Space] + WrittenLine(fields[1..]);
      LineCons(fields, gap);
      assert AllWritable(fields[0]);
      FieldRoundTrip(files, fields[0], gap, tail);
      LineRoundTrip(files, fields[1..], [Space]);
      FirstOfLine(files, s, fields[0], tail);
      assert fields == [fields[0]] + fields[1..];
    }
  }

  // What reading a line of the file puts into the buffer: the line, which has no
  // line break inside, and its line break, as far as the buffer goes.
  function Buffered(line: string): string {
    var whole := line + ['\n'];
    if |whole| < MAX_LINE - 1 then whole else whole[..MAX_LINE - 1]
  }

  lemma {:induction false} WrittenEnds(fields: seq<seq<Token>>)
    requires fields != []
    ensures WrittenLine(fields) != "" && WrittenLine(fields)[|WrittenLine(fields)| - 1] == Space
  {
    if |fields| > 1 {
      WrittenEnds(fields[1..]);
    }
  }

  lemma {:induction false} StripsBreak(fields: seq<seq<Token>>)
    ensures Stripped(WrittenLine(fields) + ['\n']) == WrittenLine(fields)
  {
    var line := WrittenLine(fields);
    var whole := line + ['\n'];
    assert whole[..|whole| - 1] == line && whole[|whole| - 1] == '\n';
    assert Stripped(whole) == Stripped(line);
    if fields != [] {
      WrittenEnds(fields);
    }
  }

  // Fields written to a line of the file are read back from it if and only if the line with its line break leaves room in the buffer.
  lemma {:induction false} FileLineRoundTripIff(files: Files, fields: seq<seq<Token>>)
    requires (forall i | 0 <= i < |fields| :: AllWritable(fields[i])) && '\n' !in WrittenLine(fields)
    ensures Tokenized(files, Buffered(WrittenLine(fields))) == Line(fields, false)
            <==> |WrittenLine(fields)| + 1 < 8191
  {
    var line := WrittenLine(fields);
    if |line| + 1 < MAX_LINE - 1 {
      StripsBreak(fields);
      assert [] + line == line;
      LineRoundTrip(files, fields, []);
    }
  }
}
