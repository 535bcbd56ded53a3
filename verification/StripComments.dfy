/**
 * Blanking C comments and literals before a header is searched, so that offsets and line
 * numbers found in the blanked text hold in the file.
 */
module StripComments {

  datatype Mode = Code | Line | Block | Literal(quote: char)

  function Blank(c: char): char {
    if c == '\n' then c else ' '
  }

  predicate Starts(s: string, a: char, b: char) {
    |s| >= 2 && s[0] == a && s[1] == b
  }

  predicate Quote(c: char) {
    c == '\'' || c == '"'
  }

  /** A backslash that takes the character after it along. */
  predicate Escapes(s: string) {
    |s| >= 2 && s[0] == '\\' && s[1] != '\n'
  }

  /** The blanked text.  An opening quote stays, as in the program. */
  function Strip(mode: Mode, s: string): (r: string)
    decreases |s|, if mode.Code? then 0 else 1
  {
    if s == "" then ""
    else match mode
      case Code =>
        if Starts(s, '/', '/') then "  " + Strip(Line, s[2..])
        else if Starts(s, '/', '*') then "  " + Strip(Block, s[2..])
        else if Quote(s[0]) then [s[0]] + Strip(Literal(s[0]), s[1..])
        else [s[0]] + Strip(Code, s[1..])
      case Line =>
        if s[0] == '\n' then Strip(Code, s) else " " + Strip(Line, s[1..])
      case Block =>
        if Starts(s, '*', '/') then "  " + Strip(Code, s[2..]) else [Blank(s[0])] + Strip(Block, s[1..])
      case Literal(quote) =>
        if s[0] == quote then [Blank(s[0])] + Strip(Code, s[1..])
        else if Escapes(s) then "  " + Strip(mode, s[2..])
        else [Blank(s[0])] + Strip(mode, s[1..])
  }

  // ---- positions ----

  predicate Overlays(r: string, s: string) {
    |r| == |s| && forall i | 0 <= i < |s| :: r[i] == s[i] || r[i] == Blank(s[i])
  }

  lemma {:induction false} StripOverlays(mode: Mode, s: string)
    ensures Overlays(Strip(mode, s), s)
    decreases |s|, if mode.Code? then 0 else 1
  {
    if s == "" {
    } else {
      if mode.Line? && s[0] == '\n' {
        StripOverlays(Code, s);
      } else {
        var k, next := Width(mode, s), Next(mode, s);
        StripSteps(mode, s);
        StripOverlays(next, s[k..]);
        HeadOverlays(mode, s);
        OverlaysAppend(Head(mode, s), s[..k], Strip(next, s[k..]), s[k..]);
        assert s[..k] + s[k..] == s;
      }
    }
  }

  lemma OverlaysAppend(r1: string, s1: string, r2: string, s2: string)
    requires Overlays(r1, s1) && Overlays(r2, s2)
    ensures Overlays(r1 + r2, s1 + s2)
  {
  }

  /** The characters that one step takes, what it makes of them, and the mode after it. */
  function Width(mode: Mode, s: string): (k: nat)
    requires s != ""
    ensures 1 <= k <= |s|
  {
    match mode
    case Code => if Starts(s, '/', '/') || Starts(s, '/', '*') then 2 else 1
    case Line => 1
    case Block => if Starts(s, '*', '/') then 2 else 1
    case Literal(quote) => if s[0] != quote && Escapes(s) then 2 else 1
  }

  function Head(mode: Mode, s: string): string
    requires s != ""
  {
    if Width(mode, s) == 2 then "  "
    else if mode.Code? then [s[0]]
    else [Blank(s[0])]
  }

  function Next(mode: Mode, s: string): Mode
    requires s != ""
  {
    match mode
    case Code =>
      if Starts(s, '/', '/') then Line else if Starts(s, '/', '*') then Block
      else if Quote(s[0]) then Literal(s[0]) else Code
    case Line => Line
    case Block => if Starts(s, '*', '/') then Code else Block
    case Literal(quote) => if s[0] == quote then Code else mode
  }

  lemma StripSteps(mode: Mode, s: string)
    requires s != "" && !(mode.Line? && s[0] == '\n')
    ensures Strip(mode, s) == Head(mode, s) + Strip(Next(mode, s), s[Width(mode, s)..])
  {
  }

  lemma HeadOverlays(mode: Mode, s: string)
    requires s != ""
    ensures Overlays(Head(mode, s), s[..Width(mode, s)])
  {
  }

  function Newlines(s: string): nat {
    if s == "" then 0 else (if s[0] == '\n' then 1 else 0) + Newlines(s[1..])
  }

  function LineOf(s: string, offset: nat): nat
    requires offset <= |s|
  {
    Newlines(s[..offset]) + 1
  }

  lemma {:induction false} OverlayNewlines(r: string, s: string)
    requires Overlays(r, s)
    ensures Newlines(r) == Newlines(s)
  {
    if s == "" {
    } else {
      assert r[0] == s[0] || r[0] == Blank(s[0]);
      OverlayNewlines(r[1..], s[1..]);
    }
  }

  /** Every offset of the blanked text is on the line it is on in the file. */
  lemma LinesAgree(s: string, offset: nat)
    requires offset <= |s|
    ensures |Strip(Code, s)| == |s|
    ensures LineOf(Strip(Code, s), offset) == LineOf(s, offset)
  {
    StripOverlays(Code, s);
    OverlayNewlines(Strip(Code, s)[..offset], s[..offset]);
  }

  // ---- the grammar of the text ----

  /** The pieces of a C text, given apart from how they are found. */
  datatype Token =
    | Plain(c: char)
    | LineComment(body: string)
    | BlockComment(body: string, closed: bool)
    | Quoted(quote: char, body: string, closed: bool)

  function Text(t: Token): (r: string)
    ensures r != ""
  {
    match t
    case Plain(c) => [c]
    case LineComment(body) => "//" + body
    case BlockComment(body, closed) => "/*" + body + CloseMark(closed)
    case Quoted(quote, body, closed) => [quote] + body + (if closed then [quote] else "")
  }

  function Blanks(s: string): string {
    seq(|s|, i requires 0 <= i < |s| => Blank(s[i]))
  }

  function Blanked(t: Token): string {
    match t
    case Plain(c) => [c]
    case Quoted(quote, body, closed) => [quote] + Blanks(body) + (if closed then " " else "")
    case _ => Blanks(Text(t))
  }

  function Texts(ts: seq<Token>): string {
    if ts == [] then "" else Text(ts[0]) + Texts(ts[1..])
  }

  function AllBlanked(ts: seq<Token>): string {
    if ts == [] then "" else Blanked(ts[0]) + AllBlanked(ts[1..])
  }

  /** The body of a literal: every quote in it follows a backslash that is not itself escaped. */
  predicate QuotedBody(quote: char, body: string, closed: bool) {
    if body == "" then true
    else if body == "\\" then !closed
    else if Escapes(body) then QuotedBody(quote, body[2..], closed)
    else body[0] != quote && QuotedBody(quote, body[1..], closed)
  }

  predicate NoClose(body: string) {
    forall i | 0 <= i < |body| - 1 :: !(body[i] == '*' && body[i + 1] == '/')
  }

  /** t is a token when followed by rest. */
  predicate Lexical(t: Token, rest: string) {
    match t
    case Plain(c) => !Quote(c) && !(c == '/' && rest != "" && (rest[0] == '/' || rest[0] == '*'))
    case LineComment(body) => '\n' !in body && (rest == "" || rest[0] == '\n')
    case BlockComment(body, closed) => NoClose(body) && (closed || rest == "")
    case Quoted(quote, body, closed) => Quote(quote) && QuotedBody(quote, body, closed) && (closed || rest == "")
  }

  predicate Tokens(ts: seq<Token>) {
    ts == [] || (Lexical(ts[0], Texts(ts[1..])) && Tokens(ts[1..]))
  }

  lemma BlanksAppend(a: string, b: string)
    ensures Blanks(a + b) == Blanks(a) + Blanks(b)
  {
  }

  lemma {:induction false} LineBlanked(body: string, rest: string)
    requires '\n' !in body && (rest == "" || rest[0] == '\n')
    ensures Strip(Line, body + rest) == Blanks(body) + Strip(Code, rest)
  {
    if body == "" {
      assert body + rest == rest;
    } else {
      LineBlanked(body[1..], rest);
      assert (body + rest)[1..] == body[1..] + rest;
      assert Blanks(body) == " " + Blanks(body[1..]);
    }
  }

  lemma {:induction false} BlockBlanked(body: string, end: string)
    requires NoClose(body) && (end == "" || Starts(end, '*', '/'))
    ensures Strip(Block, body + end) == Blanks(body) + Strip(Block, end)
  {
    if body == "" {
      assert body + end == end;
    } else {
      BlockBlanked(body[1..], end);
      NotClosedYet(body, end);
      StripSteps(Block, body + end);
      assert (body + end)[1..] == body[1..] + end;
      assert Blanks(body) == [Blank(body[0])] + Blanks(body[1..]);
    }
  }

  lemma NotClosedYet(body: string, end: string)
    requires body != "" && NoClose(body) && (end == "" || Starts(end, '*', '/'))
    ensures !Starts(body + end, '*', '/')
  {
    assert |body| > 1 ==> (body + end)[1] == body[1];
  }

  lemma {:induction false} LiteralBlanked(quote: char, body: string, closed: bool, end: string)
    requires Quote(quote) && QuotedBody(quote, body, closed) && Ends(quote, closed, end)
    ensures Strip(Literal(quote), body + end) == Blanks(body) + Strip(Literal(quote), end)
    decreases |body|
  {
    if body == "" {
      assert body + end == end;
    } else if Escapes(body) {
      LiteralBlanked(quote, body[2..], closed, end);
      LiteralPair(quote, body, end);
    } else if |body| == 1 {
      LiteralLast(quote, body, closed, end);
    } else {
      LiteralBlanked(quote, body[1..], closed, end);
      LiteralSingle(quote, body, end);
    }
  }

  predicate Ends(quote: char, closed: bool, end: string) {
    if closed then end != "" && end[0] == quote else end == ""
  }

  lemma BlanksPair(body: string)
    requires |body| >= 2 && body[0] != '\n' && body[1] != '\n'
    ensures Blanks(body) == "  " + Blanks(body[2..])
  {
  }

  lemma LiteralPair(quote: char, body: string, end: string)
    requires Escapes(body) && body[0] != quote
    requires Strip(Literal(quote), body[2..] + end) == Blanks(body[2..]) + Strip(Literal(quote), end)
    ensures Strip(Literal(quote), body + end) == Blanks(body) + Strip(Literal(quote), end)
  {
    assert (body + end)[2..] == body[2..] + end;
    BlanksPair(body);
    StripSteps(Literal(quote), body + end);
  }

  lemma LiteralSingle(quote: char, body: string, end: string)
    requires |body| >= 2 && !Escapes(body) && body[0] != quote
    requires Strip(Literal(quote), body[1..] + end) == Blanks(body[1..]) + Strip(Literal(quote), end)
    ensures Strip(Literal(quote), body + end) == Blanks(body) + Strip(Literal(quote), end)
  {
    assert (body + end)[1..] == body[1..] + end;
    assert Blanks(body) == [Blank(body[0])] + Blanks(body[1..]);
    StripSteps(Literal(quote), body + end);
  }

  lemma LiteralLast(quote: char, body: string, closed: bool, end: string)
    requires |body| == 1 && QuotedBody(quote, body, closed) && Ends(quote, closed, end) && !Escapes(body)
    requires Quote(quote)
    ensures Strip(Literal(quote), body + end) == Blanks(body) + Strip(Literal(quote), end)
  {
    assert (body + end)[1..] == end;
    assert body == [body[0]] && Blanks(body) == [Blank(body[0])];
    StripSteps(Literal(quote), body + end);
  }

  lemma LineTokenBlanked(body: string, rest: string)
    requires Lexical(LineComment(body), rest)
    ensures Strip(Code, Text(LineComment(body)) + rest) == Blanked(LineComment(body)) + Strip(Code, rest)
  {
    LineBlanked(body, rest);
    assert (Text(LineComment(body)) + rest)[2..] == body + rest;
    BlanksAppend("//", body);
    assert Blanks("//") == "  ";
  }

  lemma BlockTokenBlanked(body: string, closed: bool, rest: string)
    requires Lexical(BlockComment(body, closed), rest)
    ensures var t := BlockComment(body, closed); Strip(Code, Text(t) + rest) == Blanked(t) + Strip(Code, rest)
  {
    var mark := CloseMark(closed);
    BlockBlanked(body, mark + rest);
    BlockCloses(closed, rest);
    BlankedBlock(body, closed);
    CommentOpens(body + (mark + rest));
    Regroup("/*", body, mark, rest);
    Regroup("  ", Blanks(body), Blanks(mark), Strip(Code, rest));
  }

  function CloseMark(closed: bool): string {
    if closed then "*/" else ""
  }

  lemma Regroup(a: string, b: string, c: string, d: string)
    ensures a + b + c + d == a + (b + (c + d))
  {
  }

  lemma BlankedBlock(body: string, closed: bool)
    ensures Blanked(BlockComment(body, closed)) == "  " + Blanks(body) + Blanks(CloseMark(closed))
  {
    BlanksAppend("/*" + body, CloseMark(closed));
    BlanksAppend("/*", body);
    assert Blanks("/*") == "  ";
  }

  lemma BlockCloses(closed: bool, rest: string)
    requires closed || rest == ""
    ensures Strip(Block, CloseMark(closed) + rest) == Blanks(CloseMark(closed)) + Strip(Code, rest)
  {
    assert closed ==> ("*/" + rest)[2..] == rest && Blanks("*/") == "  ";
  }

  lemma CommentOpens(s: string)
    ensures Strip(Code, "/*" + s) == "  " + Strip(Block, s)
  {
    assert ("/*" + s)[2..] == s;
  }

  lemma QuotedTokenBlanked(quote: char, body: string, closed: bool, rest: string)
    requires Lexical(Quoted(quote, body, closed), rest)
    ensures var t := Quoted(quote, body, closed); Strip(Code, Text(t) + rest) == Blanked(t) + Strip(Code, rest)
  {
    var mark := if closed then [quote] else "";
    LiteralBlanked(quote, body, closed, mark + rest);
    LiteralOpens(quote, body + (mark + rest));
    LiteralCloses(quote, closed, rest);
    Regroup([quote], body, mark, rest);
    Regroup([quote], Blanks(body), if closed then " " else "", Strip(Code, rest));
  }

  lemma LiteralOpens(quote: char, s: string)
    requires Quote(quote)
    ensures Strip(Code, [quote] + s) == [quote] + Strip(Literal(quote), s)
  {
    assert ([quote] + s)[1..] == s;
  }

  lemma LiteralCloses(quote: char, closed: bool, rest: string)
    requires Quote(quote) && (closed || rest == "")
    ensures Strip(Literal(quote), (if closed then [quote] else "") + rest)
         == (if closed then " " else "") + Strip(Code, rest)
  {
    assert closed ==> ([quote] + rest)[1..] == rest;
  }

  lemma TokenBlanked(t: Token, rest: string)
    requires Lexical(t, rest)
    ensures Strip(Code, Text(t) + rest) == Blanked(t) + Strip(Code, rest)
  {
    match t
    case Plain(c) => assert ([c] + rest)[1..] == rest;
    case LineComment(body) => LineTokenBlanked(body, rest);
    case BlockComment(body, closed) => BlockTokenBlanked(body, closed, rest);
    case Quoted(quote, body, closed) => QuotedTokenBlanked(quote, body, closed, rest);
  }

  /** The text of any token list comes out blanked token by token. */
  lemma {:induction false} TokensBlanked(ts: seq<Token>)
    requires Tokens(ts)
    ensures Strip(Code, Texts(ts)) == AllBlanked(ts)
  {
    if ts == [] {
    } else {
      TokensBlanked(ts[1..]);
      TokenBlanked(ts[0], Texts(ts[1..]));
    }
  }

  // ---- every text has tokens ----

  function LineLength(s: string): (k: nat)
    ensures k <= |s| && '\n' !in s[..k] && (k < |s| ==> s[k] == '\n')
  {
    if s == "" || s[0] == '\n' then 0 else 1 + LineLength(s[1..])
  }

  function BlockLength(s: string): (k: nat)
    ensures k <= |s| && NoClose(s[..k]) && (k < |s| ==> Starts(s[k..], '*', '/'))
  {
    if s == "" || Starts(s, '*', '/') then 0 else 1 + BlockLength(s[1..])
  }

  function QuotedLength(quote: char, s: string): (k: nat)
    requires Quote(quote)
    ensures k <= |s| && (k < |s| ==> s[k] == quote)
  {
    if s == "" || s[0] == quote then 0
    else if Escapes(s) then 2 + QuotedLength(quote, s[2..])
    else 1 + QuotedLength(quote, s[1..])
  }

  lemma {:induction false} QuotedLengthBody(quote: char, s: string)
    requires Quote(quote)
    ensures var k := QuotedLength(quote, s); QuotedBody(quote, s[..k], k < |s|)
    decreases |s|
  {
    var k := QuotedLength(quote, s);
    if s == "" || s[0] == quote {
    } else if Escapes(s) {
      QuotedLengthBody(quote, s[2..]);
      assert s[..k][2..] == s[2..][..k - 2];
    } else {
      QuotedLengthBody(quote, s[1..]);
      assert s[..k][1..] == s[1..][..k - 1];
    }
  }

  function FirstToken(s: string): (t: Token)
    requires s != ""
    ensures |Text(t)| <= |s|
  {
    if Starts(s, '/', '/') then LineComment(s[2..][..LineLength(s[2..])])
    else if Starts(s, '/', '*') then
      var k := BlockLength(s[2..]);
      BlockComment(s[2..][..k], k < |s[2..]|)
    else if Quote(s[0]) then
      var k := QuotedLength(s[0], s[1..]);
      Quoted(s[0], s[1..][..k], k < |s[1..]|)
    else Plain(s[0])
  }

  function AfterFirst(s: string): string
    requires s != ""
  {
    s[|Text(FirstToken(s))|..]
  }

  /** What the first token must be: its text starts s, and the rest of s may follow it. */
  predicate OpensWithToken(s: string)
    requires s != ""
  {
    Text(FirstToken(s)) <= s && Lexical(FirstToken(s), AfterFirst(s))
  }

  lemma LineOpens(s: string)
    requires Starts(s, '/', '/')
    ensures OpensWithToken(s)
  {
    var tail, k := s[2..], LineLength(s[2..]);
    assert s == "//" + tail && tail == tail[..k] + tail[k..];
    assert AfterFirst(s) == tail[k..];
  }

  lemma BlockOpens(s: string)
    requires Starts(s, '/', '*')
    ensures OpensWithToken(s)
  {
    var tail, k := s[2..], BlockLength(s[2..]);
    assert s == "/*" + tail;
    if k < |tail| {
      BlockSplits(tail, k);
    } else {
      assert tail[..k] == tail && Text(FirstToken(s)) == s;
    }
  }

  lemma BlockSplits(tail: string, k: nat)
    requires k < |tail| && Starts(tail[k..], '*', '/')
    ensures tail[..k] + "*/" <= tail
  {
    assert tail[k..][0] == tail[k] && tail[k..][1] == tail[k + 1];
  }

  lemma QuoteOpens(s: string)
    requires s != "" && Quote(s[0])
    ensures OpensWithToken(s)
  {
    var tail, k := s[1..], QuotedLength(s[0], s[1..]);
    QuotedLengthBody(s[0], tail);
    assert s == [s[0]] + tail;
    if k < |tail| {
      assert tail[..k] + [s[0]] <= tail;
    } else {
      assert tail[..k] == tail && Text(FirstToken(s)) == s;
    }
  }

  lemma FirstTokenStarts(s: string)
    requires s != ""
    ensures OpensWithToken(s)
  {
    if Starts(s, '/', '/') {
      LineOpens(s);
    } else if Starts(s, '/', '*') {
      BlockOpens(s);
    } else if Quote(s[0]) {
      QuoteOpens(s);
    }
  }

  function Lex(s: string): seq<Token> {
    if s == "" then []
    else
      var t := FirstToken(s);
      [t] + Lex(s[|Text(t)|..])
  }

  lemma TokensCons(t: Token, ts: seq<Token>)
    ensures Texts([t] + ts) == Text(t) + Texts(ts)
    ensures Tokens([t] + ts) <==> Lexical(t, Texts(ts)) && Tokens(ts)
  {
    assert ([t] + ts)[1..] == ts;
  }

  lemma {:induction false} LexIsTokens(s: string)
    ensures Tokens(Lex(s)) && Texts(Lex(s)) == s
    decreases |s|
  {
    if s == "" {
    } else {
      var t := FirstToken(s);
      var rest := s[|Text(t)|..];
      LexIsTokens(rest);
      FirstTokenStarts(s);
      TokensCons(t, Lex(rest));
      assert s == Text(t) + rest;
    }
  }

  /** Every text is the text of a token list, and comes out as that list blanked. */
  lemma LexIsExact(s: string)
    ensures Tokens(Lex(s)) && Texts(Lex(s)) == s
    ensures Strip(Code, s) == AllBlanked(Lex(s))
  {
    LexIsTokens(s);
    TokensBlanked(Lex(s));
  }

  lemma {:induction false} LineLengthOf(body: string, rest: string)
    requires '\n' !in body && (rest == "" || rest[0] == '\n')
    ensures LineLength(body + rest) == |body|
  {
    if body == "" {
      assert body + rest == rest;
    } else {
      LineLengthOf(body[1..], rest);
      assert (body + rest)[1..] == body[1..] + rest;
    }
  }

  lemma {:induction false} BlockLengthOf(body: string, end: string)
    requires NoClose(body) && (end == "" || Starts(end, '*', '/'))
    ensures BlockLength(body + end) == |body|
  {
    if body == "" {
      assert body + end == end;
    } else {
      BlockLengthOf(body[1..], end);
      NotClosedYet(body, end);
      assert (body + end)[1..] == body[1..] + end;
    }
  }

  lemma {:induction false} QuotedLengthOf(quote: char, body: string, closed: bool, end: string)
    requires Quote(quote) && QuotedBody(quote, body, closed) && Ends(quote, closed, end)
    ensures QuotedLength(quote, body + end) == |body|
    decreases |body|
  {
    if body == "" {
      assert body + end == end;
    } else if Escapes(body) {
      QuotedLengthOf(quote, body[2..], closed, end);
      LengthPair(quote, body, end);
    } else {
      assert QuotedBody(quote, body[1..], closed);
      QuotedLengthOf(quote, body[1..], closed, end);
      LengthSingle(quote, body, closed, end);
    }
  }

  lemma LengthPair(quote: char, body: string, end: string)
    requires Quote(quote) && Escapes(body) && QuotedLength(quote, body[2..] + end) == |body| - 2
    ensures QuotedLength(quote, body + end) == |body|
  {
    assert (body + end)[2..] == body[2..] + end;
  }

  lemma LengthSingle(quote: char, body: string, closed: bool, end: string)
    requires Quote(quote) && body != "" && body[0] != quote && !Escapes(body) && Ends(quote, closed, end)
    requires |body| == 1 && body[0] == '\\' ==> !closed
    requires QuotedLength(quote, body[1..] + end) == |body| - 1
    ensures QuotedLength(quote, body + end) == |body|
  {
    assert (body + end)[1..] == body[1..] + end;
    NotEscaping(quote, body, closed, end);
  }

  lemma NotEscaping(quote: char, body: string, closed: bool, end: string)
    requires body != "" && body[0] != quote && !Escapes(body) && Ends(quote, closed, end)
    requires |body| == 1 && body[0] == '\\' ==> !closed
    ensures !Escapes(body + end) && (body + end)[0] != quote
  {
    assert |body| > 1 ==> (body + end)[1] == body[1];
  }

  lemma FirstTokenOf(t: Token, rest: string)
    requires Lexical(t, rest)
    ensures FirstToken(Text(t) + rest) == t
  {
    match t
    case Plain(c) =>
    case LineComment(body) =>
      LineLengthOf(body, rest);
      assert ("//" + body + rest)[2..] == body + rest;
    case BlockComment(body, closed) =>
      BlockTokenOf(body, closed, rest);
    case Quoted(quote, body, closed) =>
      QuotedTokenOf(quote, body, closed, rest);
  }

  lemma BlockTokenOf(body: string, closed: bool, rest: string)
    requires Lexical(BlockComment(body, closed), rest)
    ensures FirstToken(Text(BlockComment(body, closed)) + rest) == BlockComment(body, closed)
  {
    var end := CloseMark(closed) + rest;
    BlockLengthOf(body, end);
    Regroup("/*", body, CloseMark(closed), rest);
    FirstIsBlock(body, end);
  }

  lemma FirstIsBlock(body: string, end: string)
    requires BlockLength(body + end) == |body|
    ensures FirstToken("/*" + (body + end)) == BlockComment(body, end != "")
  {
    var s := "/*" + (body + end);
    assert s[2..] == body + end;
    assert s[2..][..|body|] == body;
  }

  lemma QuotedTokenOf(quote: char, body: string, closed: bool, rest: string)
    requires Lexical(Quoted(quote, body, closed), rest)
    ensures FirstToken(Text(Quoted(quote, body, closed)) + rest) == Quoted(quote, body, closed)
  {
    var mark := if closed then [quote] else "";
    var end := mark + rest;
    QuotedLengthOf(quote, body, closed, end);
    Regroup([quote], body, mark, rest);
    FirstIsLiteral(quote, body, end);
  }

  lemma FirstIsLiteral(quote: char, body: string, end: string)
    requires Quote(quote) && QuotedLength(quote, body + end) == |body|
    ensures FirstToken([quote] + (body + end)) == Quoted(quote, body, end != "")
  {
    var s := [quote] + (body + end);
    assert s[1..] == body + end;
    assert s[1..][..|body|] == body;
  }

  /** A text is the text of one token list only. */
  lemma {:induction false} LexIsUnique(ts: seq<Token>)
    requires Tokens(ts)
    ensures Lex(Texts(ts)) == ts
  {
    if ts == [] {
    } else {
      var t, rest := ts[0], Texts(ts[1..]);
      LexIsUnique(ts[1..]);
      FirstTokenOf(t, rest);
      assert (Text(t) + rest)[|Text(t)|..] == rest;
      assert ts == [t] + ts[1..];
    }
  }

  // ---- a second pass ----

  predicate IsBlank(c: char) {
    c == ' ' || c == '\n'
  }

  predicate AllBlank(s: string) {
    forall i | 0 <= i < |s| :: IsBlank(s[i])
  }

  /** A token that comes out blank. */
  predicate ComesOutBlank(t: Token) {
    t.LineComment? || t.BlockComment? || (t.Plain? && IsBlank(t.c))
  }

  /** Behind the first literal there is nothing but comments, spaces and newlines. */
  predicate Settled(ts: seq<Token>) {
    ts == [] || (if ts[0].Quoted? then forall t <- ts[1..] :: ComesOutBlank(t) else Settled(ts[1..]))
  }

  lemma {:induction false} BlankKept(a: string, s: string)
    requires AllBlank(a)
    ensures Strip(Code, a + s) == a + Strip(Code, s)
  {
    if a == "" {
      assert a + s == s;
    } else {
      BlankKept(a[1..], s);
      assert IsBlank(a[0]);
      assert (a + s)[1..] == a[1..] + s;
      assert a + Strip(Code, s) == [a[0]] + (a[1..] + Strip(Code, s));
    }
  }

  lemma BlanksBlank(s: string)
    ensures AllBlank(Blanks(s))
  {
  }

  /** Inside a literal a text is kept if and only if it is blank already. */
  lemma {:induction false} LiteralKeepsIff(quote: char, s: string)
    requires Quote(quote)
    ensures Strip(Literal(quote), s) == s <==> AllBlank(s)
  {
    if s == "" {
    } else {
      assert s == [s[0]] + s[1..];
      if IsBlank(s[0]) {
        LiteralKeepsIff(quote, s[1..]);
        assert Strip(Literal(quote), s) == [s[0]] + Strip(Literal(quote), s[1..]);
        AllBlankStep(s);
        SameTail([s[0]], Strip(Literal(quote), s[1..]), s[1..]);
      } else {
        assert Strip(Literal(quote), s)[0] == ' ';
      }
    }
  }

  lemma AllBlankStep(s: string)
    requires s != ""
    ensures AllBlank(s) <==> IsBlank(s[0]) && AllBlank(s[1..])
  {
    assert forall i | 1 <= i < |s| :: s[i] == s[1..][i - 1];
    assert forall i | 0 <= i < |s[1..]| :: s[1..][i] == s[i + 1];
  }

  lemma AllBlankAppend(a: string, b: string)
    ensures AllBlank(a + b) <==> AllBlank(a) && AllBlank(b)
  {
    assert forall i | 0 <= i < |a| :: (a + b)[i] == a[i];
    assert forall i | 0 <= i < |b| :: (a + b)[|a| + i] == b[i];
  }

  lemma SameTail(a: string, x: string, y: string)
    ensures a + x == a + y <==> x == y
  {
    assert (a + x)[|a|..] == x && (a + y)[|a|..] == y;
  }

  lemma BlankedBlankIff(t: Token)
    requires t.Quoted? ==> Quote(t.quote)
    ensures AllBlank(Blanked(t)) <==> ComesOutBlank(t)
  {
    assert t.Quoted? ==> Blanked(t)[0] == t.quote;
    assert t.Plain? ==> Blanked(t) == [t.c] && Blanked(t)[0] == t.c;
  }

  lemma {:induction false} AllBlankedIff(ts: seq<Token>)
    requires Tokens(ts)
    ensures AllBlank(AllBlanked(ts)) <==> forall t <- ts :: ComesOutBlank(t)
  {
    if ts == [] {
    } else {
      AllBlankedIff(ts[1..]);
      BlankedBlankIff(ts[0]);
      AllBlankAppend(Blanked(ts[0]), AllBlanked(ts[1..]));
      assert forall t <- ts :: t == ts[0] || t in ts[1..];
      assert forall t <- ts[1..] :: t in ts;
    }
  }

  /** In the blanked text, too, a character in code opens no comment. */
  lemma PlainKept(c: char, ts: seq<Token>)
    requires Lexical(Plain(c), Texts(ts)) && Tokens(ts)
    ensures Strip(Code, [c] + AllBlanked(ts)) == [c] + Strip(Code, AllBlanked(ts))
  {
    var s := AllBlanked(ts);
    TokensBlanked(ts);
    StripOverlays(Code, Texts(ts));
    assert s != "" ==> s[0] == Texts(ts)[0] || s[0] == Blank(Texts(ts)[0]);
    assert ([c] + s)[1..] == s;
  }

  lemma LiteralAgain(t: Token, ts: seq<Token>)
    requires t.Quoted? && Quote(t.quote) && Tokens(ts)
    ensures var s := AllBlanked([t] + ts);
            Strip(Code, s) == s <==> forall u <- ts :: ComesOutBlank(u)
  {
    BlankedQuoted(t, ts);
    QuoteAgain(t.quote, Inside(t), AllBlanked(ts));
    AllBlankedIff(ts);
  }

  /** What a literal comes out as, behind its opening quote. */
  function Inside(t: Token): string
    requires t.Quoted?
  {
    Blanks(t.body) + (if t.closed then " " else "")
  }

  lemma BlankedQuoted(t: Token, ts: seq<Token>)
    requires t.Quoted?
    ensures AllBlanked([t] + ts) == [t.quote] + (Inside(t) + AllBlanked(ts)) && AllBlank(Inside(t))
  {
    var mark := if t.closed then " " else "";
    assert ([t] + ts)[1..] == ts;
    assert AllBlanked([t] + ts) == [t.quote] + Blanks(t.body) + mark + AllBlanked(ts);
    RegroupHead([t.quote], Blanks(t.body), mark, AllBlanked(ts));
    AllBlankAppend(Blanks(t.body), mark);
  }

  lemma RegroupHead(a: string, b: string, c: string, d: string)
    ensures a + b + c + d == a + (b + c + d)
  {
  }

  lemma QuoteAgain(quote: char, inner: string, rest: string)
    requires Quote(quote) && AllBlank(inner)
    ensures var s := [quote] + (inner + rest); Strip(Code, s) == s <==> AllBlank(rest)
  {
    LiteralOpens(quote, inner + rest);
    SameTail([quote], Strip(Literal(quote), inner + rest), inner + rest);
    LiteralKeepsIff(quote, inner + rest);
    AllBlankAppend(inner, rest);
  }

  /** Stripping the stripped text changes nothing if and only if behind the first literal there is
      nothing but comments, spaces and newlines: its opening quote is left, and the second pass
      takes it for the start of a literal without end. */
  lemma {:induction false} SecondPassIff(ts: seq<Token>)
    requires Tokens(ts)
    ensures var s := Strip(Code, Texts(ts)); Strip(Code, s) == s <==> Settled(ts)
  {
    TokensBlanked(ts);
    if ts == [] {
    } else {
      var t, rest := ts[0], AllBlanked(ts[1..]);
      assert ts == [t] + ts[1..];
      if t.Quoted? {
        LiteralAgain(t, ts[1..]);
      } else {
        SecondPassIff(ts[1..]);
        TokensBlanked(ts[1..]);
        FirstKept(t, ts[1..]);
        SameTail(Blanked(t), Strip(Code, rest), rest);
      }
    }
  }

  lemma FirstKept(t: Token, ts: seq<Token>)
    requires !t.Quoted? && Lexical(t, Texts(ts)) && Tokens(ts)
    ensures Strip(Code, Blanked(t) + AllBlanked(ts)) == Blanked(t) + Strip(Code, AllBlanked(ts))
  {
    if t.Plain? {
      PlainKept(t.c, ts);
    } else {
      BlanksBlank(Text(t));
      BlankKept(Blanked(t), AllBlanked(ts));
    }
  }

  /** The same for any text, by its tokens. */
  lemma SecondPass(s: string)
    ensures Strip(Code, Strip(Code, s)) == Strip(Code, s) <==> Settled(Lex(s))
  {
    LexIsTokens(s);
    SecondPassIff(Lex(s));
  }

  /** A literal with code behind it is enough. */
  lemma SecondPassDiffers(c: char, body: string)
    requires !Quote(c) && !IsBlank(c) && QuotedBody('\'', body, true)
    ensures var s := Texts([Quoted('\'', body, true), Plain(c)]); Strip(Code, Strip(Code, s)) != Strip(Code, s)
  {
    var ts := [Quoted('\'', body, true), Plain(c)];
    assert ts[1..] == [Plain(c)] && [Plain(c)][1..] == [];
    assert Tokens(ts[1..]);
    assert Plain(c) in ts[1..] && !ComesOutBlank(Plain(c));
    SecondPassIff(ts);
  }

  // ---- the loop ----

  /** The output is done before i, and the scanner is in the given mode. */
  ghost predicate Progress(text: string, out: string, i: nat, mode: Mode) {
    && |out| == |text| && i <= |text|
    && out[..i] + Strip(mode, text[i..]) == Strip(Code, text)
    && out[i..] == text[i..]
  }

  lemma Advance(text: string, before: string, after: string, i: nat, mode: Mode)
    requires Progress(text, before, i, mode) && i < |text| && !(mode.Line? && text[i] == '\n')
    requires var k := Width(mode, text[i..]);
             |after| == |text| && after[..i] == before[..i]
             && after[i..i + k] == Head(mode, text[i..]) && after[i + k..] == before[i + k..]
    ensures Progress(text, after, i + Width(mode, text[i..]), Next(mode, text[i..]))
  {
    var s, k := text[i..], Width(mode, text[i..]);
    StripSteps(mode, s);
    assert s[k..] == text[i + k..];
    assert after[..i + k] == after[..i] + after[i..i + k];
    assert before[i + k..] == before[i..][k..];
  }

  lemma LineStarts(text: string, out: string, i: nat)
    requires Progress(text, out, i, Code) && Starts(text[i..], '/', '/')
    ensures Progress(text, out, i, Line)
  {
    var s := text[i..];
    StripSteps(Line, s);
    StripSteps(Line, s[1..]);
    assert s[1..][1..] == s[2..];
  }

  method BlankLine(text: string, out: array<char>, start: nat) returns (i: nat)
    requires Progress(text, out[..], start, Code) && Starts(text[start..], '/', '/')
    modifies out
    ensures start < i && Progress(text, out[..], i, Code)
  {
    i := start;
    LineStarts(text, out[..], start);
    while i < |text| && text[i] != '\n'
      invariant start <= i && Progress(text, out[..], i, Line)
      invariant i == start ==> text[i] == '/'
    {
      ghost var before := out[..];
      out[i] := ' ';
      Advance(text, before, out[..], i, Line);
      i := i + 1;
    }
    assert Strip(Line, text[i..]) == Strip(Code, text[i..]);
  }

  method BlankBlock(text: string, out: array<char>, start: nat) returns (i: nat)
    requires Progress(text, out[..], start, Code) && Starts(text[start..], '/', '*')
    modifies out
    ensures start < i && Progress(text, out[..], i, Code)
  {
    i := BlankPair(text, out, start, Code);
    while i < |text| && !(text[i] == '*' && i + 1 < |text| && text[i + 1] == '/')
      invariant start < i && Progress(text, out[..], i, Block)
    {
      ghost var before := out[..];
      if text[i] != '\n' { out[i] := ' '; }
      Advance(text, before, out[..], i, Block);
      i := i + 1;
    }
    if i < |text| {
      i := BlankPair(text, out, i, Block);
    }
  }

  /** Two characters that open or close a block comment. */
  method BlankPair(text: string, out: array<char>, start: nat, mode: Mode) returns (i: nat)
    requires Progress(text, out[..], start, mode) && start + 1 < |text|
    requires (mode == Code && Starts(text[start..], '/', '*')) || (mode == Block && Starts(text[start..], '*', '/'))
    modifies out
    ensures i == start + 2 && Progress(text, out[..], i, if mode == Code then Block else Code)
  {
    ghost var before := out[..];
    out[start], out[start + 1] := ' ', ' ';
    Advance(text, before, out[..], start, mode);
    i := start + 2;
  }

  method BlankLiteral(text: string, out: array<char>, start: nat) returns (i: nat)
    requires start < |text| && Progress(text, out[..], start, Code) && Quote(text[start])
    modifies out
    ensures start < i && Progress(text, out[..], i, Code)
  {
    var quote := text[start];
    Advance(text, out[..], out[..], start, Code);
    i := start + 1;
    while i < |text| && text[i] != quote
      invariant start < i && Progress(text, out[..], i, Literal(quote))
    {
      i := BlankInside(text, out, quote, i);
    }
    if i < |text| {
      ghost var before := out[..];
      out[i] := ' ';
      Advance(text, before, out[..], i, Literal(quote));
      i := i + 1;
    }
  }

  method BlankInside(text: string, out: array<char>, quote: char, start: nat) returns (i: nat)
    requires start < |text| && text[start] != quote && Progress(text, out[..], start, Literal(quote))
    modifies out
    ensures start < i && Progress(text, out[..], i, Literal(quote))
  {
    i := start;
    ghost var before := out[..];
    if text[i] == '\\' {
      out[i] := ' ';
      i := i + 1;
      if i < |text| && text[i] != '\n' {
        out[i] := ' ';
        i := i + 1;
      }
    } else {
      if text[i] != '\n' { out[i] := ' '; }
      i := i + 1;
    }
    Advance(text, before, out[..], start, Literal(quote));
  }

  method StripCommentsAndStrings(text: string) returns (r: string)
    ensures r == Strip(Code, text)
  {
    var out := new char[|text|](k requires 0 <= k < |text| => text[k]);
    assert out[..] == text;
    var i := 0;
    while i < |text|
      invariant Progress(text, out[..], i, Code)
    {
      if text[i] == '/' && i + 1 < |text| && text[i + 1] == '/' {
        i := BlankLine(text, out, i);
      } else if text[i] == '/' && i + 1 < |text| && text[i + 1] == '*' {
        i := BlankBlock(text, out, i);
      } else if Quote(text[i]) {
        i := BlankLiteral(text, out, i);
      } else {
        Advance(text, out[..], out[..], i, Code);
        i := i + 1;
      }
    }
    r := out[..];
  }
}
