/** The lossless tokenizer behind the JSON editor (`tokenizeJson` and `splitTokensByLine` in micro-ui/app/static/app.js). */
module JsonTokens {
  import opened Common

  /** A UTF-16 code unit, which is what JavaScript indexes. */
  type Unit = n: int | 0 <= n < 0x10000
  type Text = seq<Unit>

  const NEWLINE: Unit := 10
  const QUOTE: Unit := 34
  const SLASH: Unit := 47
  const COLON: Unit := 58
  const BACKSLASH: Unit := 92

  const TRUE: Text := [116, 114, 117, 101]
  const FALSE: Text := [102, 97, 108, 115, 101]
  const NULL: Text := [110, 117, 108, 108]

  /** The class `\s` of section 22.2 of ECMA-262. */
  predicate IsSpace(c: Unit) {
    || 9 <= c <= 13 || c == 32 || c == 0xA0 || c == 0x1680 || 0x2000 <= c <= 0x200A
    || c == 0x2028 || c == 0x2029 || c == 0x202F || c == 0x205F || c == 0x3000 || c == 0xFEFF
  }

  predicate IsDigit(c: Unit) {
    48 <= c <= 57
  }

  predicate IsNumeric(c: Unit) {
    IsDigit(c) || c in {43, 45, 46, 69, 101}
  }

  predicate IsLetter(c: Unit) {
    65 <= c <= 90 || 97 <= c <= 122
  }

  predicate IsNoNewline(c: Unit) {
    c != NEWLINE
  }

  datatype Kind = Space | Key | Str | Num | Bool | Null | Ident | Comment | Punct

  datatype Token = Token(kind: Kind, value: Text)

  function Join(tokens: seq<Token>): Text {
    if tokens == [] then [] else Join(tokens[..|tokens| - 1]) + tokens[|tokens| - 1].value
  }

  lemma JoinAppend(tokens: seq<Token>, t: Token)
    ensures Join(tokens + [t]) == Join(tokens) + t.value
  {
    assert (tokens + [t])[..|tokens|] == tokens;
  }

  // ----- what a token is

  /** [i, j) is a longest run of units of one class. */
  predicate IsRun(text: Text, i: nat, j: nat, p: Unit -> bool)
    requires i <= j <= |text|
  {
    (forall k | i <= k < j :: p(text[k])) && (j < |text| ==> !p(text[j]))
  }

  /** How many backslashes stand right before j, counted back to `from` at most. */
  function Backslashes(text: Text, from: nat, j: nat): nat
    requires from <= j <= |text|
    decreases j
  {
    if j == from || text[j - 1] != BACKSLASH then 0 else 1 + Backslashes(text, from, j - 1)
  }

  /** The quote at j is not escaped: it follows an even number of backslashes. */
  predicate Closes(text: Text, from: nat, j: nat)
    requires from <= j < |text|
  {
    text[j] == QUOTE && Backslashes(text, from, j) % 2 == 0
  }

  predicate NoneCloses(text: Text, from: nat, j: nat)
    requires j <= |text|
  {
    forall k | from <= k < j :: !Closes(text, from, k)
  }

  /** The string whose content starts at `from` goes to its first closing quote, or else to the end of the text. */
  predicate EndsString(text: Text, from: nat, j: nat) {
    && from <= j <= |text|
    && if j > from && Closes(text, from, j - 1) then NoneCloses(text, from, j - 1)
       else j == |text| && NoneCloses(text, from, j)
  }

  /** Only space lies between j and a colon. */
  predicate ColonFollows(text: Text, j: nat) {
    exists k | j <= k < |text| :: text[k] == COLON && forall n | j <= n < k :: IsSpace(text[n])
  }

  function WordKind(word: Text): Kind {
    if word == TRUE || word == FALSE then Bool else if word == NULL then Null else Ident
  }

  predicate StartsComment(text: Text, i: nat) {
    i + 1 < |text| && text[i] == SLASH && text[i + 1] == SLASH
  }

  /** The token that starts at i: its first unit decides its class, and it goes as far as the class allows. */
  predicate IsTokenAt(text: Text, i: nat, t: Token) {
    && t.value != [] && i + |t.value| <= |text| && t.value == text[i..i + |t.value|]
    && var j := i + |t.value|;
       if IsSpace(text[i]) then t.kind == Space && IsRun(text, i, j, IsSpace)
       else if text[i] == QUOTE then
         EndsString(text, i + 1, j) && t.kind == if ColonFollows(text, j) then Key else Str
       else if IsDigit(text[i]) || text[i] == 45 then t.kind == Num && IsRun(text, i, j, IsNumeric)
       else if IsLetter(text[i]) then t.kind == WordKind(t.value) && IsRun(text, i, j, IsLetter)
       else if StartsComment(text, i) then t.kind == Comment && IsRun(text, i, j, IsNoNewline)
       else t.kind == Punct && |t.value| == 1
  }

  /** Every token starts where the ones before it end. */
  ghost predicate AreTokens(text: Text, tokens: seq<Token>) {
    forall n | 0 <= n < |tokens| :: IsTokenAt(text, |Join(tokens[..n])|, tokens[n])
  }

  lemma AreTokensAppend(text: Text, tokens: seq<Token>, t: Token)
    requires AreTokens(text, tokens) && IsTokenAt(text, |Join(tokens)|, t)
    ensures AreTokens(text, tokens + [t])
  {
    var all := tokens + [t];
    forall n | 0 <= n < |all|
      ensures IsTokenAt(text, |Join(all[..n])|, all[n])
    {
      assert all[..n] == if n < |tokens| then tokens[..n] else tokens;
    }
  }

  // ----- the tokenizer

  /** A scan while the class holds. */
  method ScanWhile(text: Text, i: nat, p: Unit -> bool) returns (j: nat)
    requires i <= |text|
    ensures i <= j <= |text| && IsRun(text, i, j, p)
  {
    j := i;
    while j < |text| && p(text[j])
      invariant i <= j <= |text| && forall k | i <= k < j :: p(text[k])
    {
      j := j + 1;
    }
  }

  /** No quote before j closes the string, and what stands at j is not escaped. */
  predicate Unclosed(text: Text, from: nat, j: nat) {
    && from <= j && from <= |text| && NoneCloses(text, from, Min(j, |text|))
    && (j <= |text| ==> Backslashes(text, from, j) % 2 == 0)
  }

  lemma UnclosedPastEscape(text: Text, from: nat, j: nat)
    requires Unclosed(text, from, j) && j < |text| && text[j] == BACKSLASH
    ensures Unclosed(text, from, j + 2)
  {
    assert Backslashes(text, from, j + 1) == 1 + Backslashes(text, from, j);
  }

  lemma UnclosedPastPlain(text: Text, from: nat, j: nat)
    requires Unclosed(text, from, j) && j < |text| && text[j] != BACKSLASH && text[j] != QUOTE
    ensures Unclosed(text, from, j + 1)
  {
  }

  /** The scan of a string; an escape at the end of the text carries it one past the end. */
  method ScanString(text: Text, i: nat) returns (j: nat)
    requires i < |text|
    ensures i < j && EndsString(text, i + 1, Min(j, |text|))
  {
    j := i + 1;
    while j < |text|
      invariant Unclosed(text, i + 1, j)
      decreases |text| - j
    {
      if text[j] == BACKSLASH {
        UnclosedPastEscape(text, i + 1, j);
        j := j + 2;
        continue;
      }
      if text[j] == QUOTE {
        j := j + 1;
        return;
      }
      UnclosedPastPlain(text, i + 1, j);
      j := j + 1;
    }
  }

  /** `slice` stops at the end of the text. */
  function Slice(text: Text, i: nat, j: nat): Text
    requires i <= |text| && i <= j
  {
    text[i..Min(j, |text|)]
  }

  /** A string is a key if a colon comes next. */
  method StringToken(text: Text, i: nat) returns (t: Token, next: nat)
    requires i < |text| && text[i] == QUOTE
    ensures Min(next, |text|) == i + |t.value| && IsTokenAt(text, i, t)
  {
    next := ScanString(text, i);
    var k := ScanWhile(text, Min(next, |text|), IsSpace);
    return Token(if k < |text| && text[k] == COLON then Key else Str, Slice(text, i, next)), next;
  }

  /** One turn of the loop. */
  method NextToken(text: Text, i: nat) returns (t: Token, next: nat)
    requires i < |text|
    ensures Min(next, |text|) == i + |t.value| && IsTokenAt(text, i, t)
  {
    if IsSpace(text[i]) {
      next := ScanWhile(text, i, IsSpace);
      return Token(Space, Slice(text, i, next)), next;
    }
    if text[i] == QUOTE {
      t, next := StringToken(text, i);
      return;
    }
    if IsDigit(text[i]) || text[i] == 45 {
      next := ScanWhile(text, i, IsNumeric);
      return Token(Num, Slice(text, i, next)), next;
    }
    if IsLetter(text[i]) {
      next := ScanWhile(text, i, IsLetter);
      return Token(WordKind(Slice(text, i, next)), Slice(text, i, next)), next;
    }
    if text[i] == SLASH && i + 1 < |text| && text[i + 1] == SLASH {
      next := ScanWhile(text, i, IsNoNewline);
      return Token(Comment, Slice(text, i, next)), next;
    }
    return Token(Punct, [text[i]]), i + 1;
  }

  /** The tokens of the text up to i. */
  ghost predicate Tokenized(text: Text, i: nat, tokens: seq<Token>) {
    Join(tokens) == text[..Min(i, |text|)] && AreTokens(text, tokens)
  }

  lemma TextUpTo(text: Text, i: nat, part: Text)
    requires i + |part| <= |text| && part == text[i..i + |part|]
    ensures text[..i + |part|] == text[..i] + part
  {
  }

  lemma TokenizedMore(text: Text, i: nat, tokens: seq<Token>, t: Token, next: nat)
    requires i < |text| && Tokenized(text, i, tokens)
    requires Min(next, |text|) == i + |t.value| && IsTokenAt(text, i, t)
    ensures Tokenized(text, next, tokens + [t])
  {
    AreTokensAppend(text, tokens, t);
    JoinAppend(tokens, t);
    TextUpTo(text, i, t.value);
  }

  /** `tokenizeJson` drops and adds nothing, whatever the text, and every token is the one its start calls for. */
  method Tokenize(text: Text) returns (tokens: seq<Token>)
    ensures Join(tokens) == text && AreTokens(text, tokens)
  {
    tokens := [];
    var i := 0;
    while i < |text|
      invariant Tokenized(text, i, tokens)
      decreases |text| - i
    {
      var t, next := NextToken(text, i);
      TokenizedMore(text, i, tokens, t, next);
      tokens, i := tokens + [t], next;
    }
  }

  // ----- splitting into lines

  /** The text of the lines, put back together with newlines. */
  function Rejoin(lines: seq<seq<Token>>): Text
    requires lines != []
  {
    if |lines| == 1 then Join(lines[0])
    else Rejoin(lines[..|lines| - 1]) + [NEWLINE] + Join(lines[|lines| - 1])
  }

  /** One more unit: a newline starts a part, anything else lengthens the last one. */
  function Extend(parts: seq<Text>, c: Unit): seq<Text>
    requires |parts| > 0
  {
    if c == NEWLINE then parts + [[]] else parts[..|parts| - 1] + [parts[|parts| - 1] + [c]]
  }

  /** JavaScript's `split('\n')`. */
  function SplitNewlines(value: Text): (parts: seq<Text>)
    ensures |parts| > 0
  {
    if value == [] then [[]] else Extend(SplitNewlines(value[..|value| - 1]), value[|value| - 1])
  }

  /** Parts joined with newlines. */
  function Lines(parts: seq<Text>): Text
    requires parts != []
  {
    if |parts| == 1 then parts[0] else Lines(parts[..|parts| - 1]) + [NEWLINE] + parts[|parts| - 1]
  }

  lemma LinesAppend(front: seq<Text>, part: Text)
    requires |front| > 0
    ensures Lines(front + [part]) == Lines(front) + [NEWLINE] + part
  {
    assert (front + [part])[..|front|] == front;
  }

  lemma LinesOfLonger(parts: seq<Text>, c: Unit)
    requires |parts| > 0
    ensures Lines(Extend(parts, c)) == Lines(parts) + [c]
  {
    var front, last := parts[..|parts| - 1], parts[|parts| - 1];
    if c == NEWLINE {
      LinesAppend(parts, []);
    } else if |front| > 0 {
      LinesAppend(front, last + [c]);
      Associative(Lines(front) + [NEWLINE], last, [c]);
    }
  }

  lemma SplitMore(front: Text, c: Unit)
    ensures Lines(SplitNewlines(front + [c])) == Lines(SplitNewlines(front)) + [c]
  {
    assert (front + [c])[..|front|] == front;
    LinesOfLonger(SplitNewlines(front), c);
  }

  lemma SplitOfEmpty()
    ensures Lines(SplitNewlines([])) == []
  {
  }

  lemma {:induction false} SplitNewlinesLoses(value: Text)
    ensures Lines(SplitNewlines(value)) == value
    decreases |value|
  {
    if |value| == 0 {
      SplitOfEmpty();
    } else {
      var front, last := value[..|value| - 1], value[|value| - 1];
      assert front + [last] == value;
      SplitNewlinesLoses(front);
      SplitMore(front, last);
    }
  }

  lemma {:induction false} SplitParts(value: Text)
    ensures var parts := SplitNewlines(value);
            |parts[|parts| - 1]| == 0 <==> |value| == 0 || value[|value| - 1] == NEWLINE
    ensures |SplitNewlines(value)| == 1 <==> NEWLINE !in value
  {
    if value != [] {
      SplitParts(value[..|value| - 1]);
      assert value == value[..|value| - 1] + [value[|value| - 1]];
    }
  }

  lemma {:induction false} SplitPartsUnbroken(value: Text, i: nat)
    requires i < |SplitNewlines(value)|
    ensures NEWLINE !in SplitNewlines(value)[i]
  {
    if value != [] {
      var parts := SplitNewlines(value[..|value| - 1]);
      SplitPartsUnbroken(value[..|value| - 1], if i < |parts| then i else 0);
    }
  }

  /** A token is put at the end of the last line. */
  function Push(lines: seq<seq<Token>>, t: Token): seq<seq<Token>>
    requires lines != []
  {
    lines[..|lines| - 1] + [lines[|lines| - 1] + [t]]
  }

  lemma RejoinPush(lines: seq<seq<Token>>, t: Token)
    requires lines != []
    ensures Rejoin(Push(lines, t)) == Rejoin(lines) + t.value
  {
    JoinAppend(lines[|lines| - 1], t);
    assert Push(lines, t)[..|lines| - 1] == lines[..|lines| - 1];
  }

  // ----- what the lines hold

  /** The tokens that are not space. */
  function Solid(tokens: seq<Token>): seq<Token> {
    if tokens == [] then []
    else
      var last := tokens[|tokens| - 1];
      Solid(tokens[..|tokens| - 1]) + if last.kind == Space then [] else [last]
  }

  function SolidLines(lines: seq<seq<Token>>): seq<Token> {
    if lines == [] then [] else SolidLines(lines[..|lines| - 1]) + Solid(lines[|lines| - 1])
  }

  predicate IsUnbroken(t: Token) {
    t.kind == Space ==> NEWLINE !in t.value
  }

  predicate AllUnbroken(lines: seq<seq<Token>>) {
    forall n, k | 0 <= n < |lines| && 0 <= k < |lines[n]| :: IsUnbroken(lines[n][k])
  }

  /** The lines hold this text and these tokens other than space, and no space reaches over a line's end. */
  predicate Laid(lines: seq<seq<Token>>, text: Text, solid: seq<Token>) {
    lines != [] && Rejoin(lines) == text && SolidLines(lines) == solid && AllUnbroken(lines)
  }

  lemma SolidAppend(tokens: seq<Token>, t: Token)
    ensures Solid(tokens + [t]) == Solid(tokens) + if t.kind == Space then [] else [t]
  {
    assert (tokens + [t])[..|tokens|] == tokens;
  }

  lemma SolidPush(lines: seq<seq<Token>>, t: Token)
    requires lines != []
    ensures SolidLines(Push(lines, t)) == SolidLines(lines) + if t.kind == Space then [] else [t]
  {
    var front, last := lines[..|lines| - 1], lines[|lines| - 1];
    SolidAppend(last, t);
    assert Push(lines, t)[..|lines| - 1] == front;
    Associative(SolidLines(front), Solid(last), if t.kind == Space then [] else [t]);
  }

  lemma UnbrokenPush(lines: seq<seq<Token>>, t: Token)
    requires lines != [] && AllUnbroken(lines) && IsUnbroken(t)
    ensures AllUnbroken(Push(lines, t))
  {
  }

  /** A token put on the last line. */
  lemma LayPush(lines: seq<seq<Token>>, t: Token, text: Text, solid: seq<Token>)
    requires Laid(lines, text, solid) && IsUnbroken(t)
    ensures Laid(Push(lines, t), text + t.value, solid + if t.kind == Space then [] else [t])
  {
    RejoinPush(lines, t);
    SolidPush(lines, t);
    UnbrokenPush(lines, t);
  }

  /** An empty line. */
  lemma LayEmpty(lines: seq<seq<Token>>, text: Text, solid: seq<Token>)
    requires Laid(lines, text, solid)
    ensures Laid(lines + [[]], text + [NEWLINE], solid)
  {
    assert (lines + [[]])[..|lines|] == lines;
    assert solid + [] == solid && text + [NEWLINE] + [] == text + [NEWLINE];
  }

  /** A part of a space token on the last line; nothing is put there for an empty part. */
  method AddPart(before: seq<seq<Token>>, part: Text, ghost text: Text, ghost solid: seq<Token>)
    returns (lines: seq<seq<Token>>)
    requires Laid(before, text, solid) && NEWLINE !in part
    ensures Laid(lines, text + part, solid) && |lines| == |before|
    ensures |lines[|lines| - 1]| == 0 <==> |before[|before| - 1]| == 0 && |part| == 0
  {
    lines := before;
    if part != [] {
      LayPush(lines, Token(Space, part), text, solid);
      assert solid + [] == solid;
      lines := Push(lines, Token(Space, part));
    } else {
      assert text + part == text;
    }
  }

  /** A part of a space token on a line of its own. */
  method AddLine(before: seq<seq<Token>>, part: Text, ghost base: Text, ghost front: seq<Text>, ghost solid: seq<Token>)
    returns (lines: seq<seq<Token>>)
    requires |front| > 0 && Laid(before, base + Lines(front), solid) && NEWLINE !in part
    ensures Laid(lines, base + Lines(front + [part]), solid) && |lines| == |before| + 1
    ensures |lines[|before|]| == 0 <==> |part| == 0
  {
    LayEmpty(before, base + Lines(front), solid);
    lines := AddPart(before + [[]], part, base + Lines(front) + [NEWLINE], solid);
    LinesAppend(front, part);
    Associative(base, Lines(front), [NEWLINE]);
    Associative(base, Lines(front) + [NEWLINE], part);
  }

  lemma TakeNext<T>(s: seq<T>, i: nat)
    requires i < |s|
    ensures s[..i + 1] == s[..i] + [s[i]]
  {
  }

  predicate HasNewline(part: Text) {
    NEWLINE in part
  }

  /** The first part stays on the last line, each of the others starts a line. */
  method AddParts(before: seq<seq<Token>>, parts: seq<Text>, ghost text: Text, ghost solid: seq<Token>)
    returns (lines: seq<seq<Token>>)
    requires Laid(before, text, solid) && |parts| > 1 && forall i | 0 <= i < |parts| :: !HasNewline(parts[i])
    ensures Laid(lines, text + Lines(parts), solid) && |lines| > 1
    ensures |lines[|lines| - 1]| == 0 <==> |parts[|parts| - 1]| == 0
  {
    assert !HasNewline(parts[0]);
    lines := AddPart(before, parts[0], text, solid);
    assert parts[..1] == [parts[0]];
    for i := 1 to |parts|
      invariant |lines| >= i && Laid(lines, text + Lines(parts[..i]), solid)
      invariant i > 1 ==> (|lines[|lines| - 1]| == 0 <==> |parts[i - 1]| == 0)
    {
      TakeNext(parts, i);
      assert !HasNewline(parts[i]);
      lines := AddLine(lines, parts[i], text, parts[..i], solid);
    }
    assert parts[..|parts|] == parts;
  }

  /** The parts of a space token, spread over lines. */
  method SplitSpace(before: seq<seq<Token>>, t: Token, ghost text: Text, ghost solid: seq<Token>)
    returns (lines: seq<seq<Token>>)
    requires Laid(before, text, solid) && NEWLINE in t.value
    ensures Laid(lines, text + t.value, solid) && |lines| > 1
    ensures |lines[|lines| - 1]| == 0 <==> t.value[|t.value| - 1] == NEWLINE
  {
    var parts := SplitNewlines(t.value);
    SplitNewlinesLoses(t.value);
    SplitParts(t.value);
    forall i | 0 <= i < |parts| ensures !HasNewline(parts[i]) { SplitPartsUnbroken(t.value, i); }
    lines := AddParts(before, parts, text, solid);
  }

  /** The token is space that ends with a newline. */
  predicate EndsWithNewline(t: Token) {
    t.kind == Space && |t.value| > 0 && t.value[|t.value| - 1] == NEWLINE
  }

  predicate LastIsEmpty(lines: seq<seq<Token>>) {
    |lines| > 1 && |lines[|lines| - 1]| == 0
  }

  /** One turn of the loop over the tokens. */
  method PlaceToken(before: seq<seq<Token>>, t: Token, ghost text: Text, ghost solid: seq<Token>)
    returns (lines: seq<seq<Token>>)
    requires Laid(before, text, solid)
    ensures Laid(lines, text + t.value, solid + if t.kind == Space then [] else [t])
    ensures LastIsEmpty(lines) <==> EndsWithNewline(t)
  {
    if t.kind == Space && NEWLINE in t.value {
      lines := SplitSpace(before, t, text, solid);
      assert solid + [] == solid;
      return;
    }
    LayPush(before, t, text, solid);
    lines := Push(before, t);
  }

  lemma DropEmpty(lines: seq<seq<Token>>, text: Text, solid: seq<Token>)
    requires Laid(lines, text, solid) && LastIsEmpty(lines)
    ensures Laid(lines[..|lines| - 1], Rejoin(lines[..|lines| - 1]), solid)
    ensures text == Rejoin(lines[..|lines| - 1]) + [NEWLINE]
  {
    var front := lines[..|lines| - 1];
    assert SolidLines(front) + [] == SolidLines(front);
    assert Rejoin(front) + [NEWLINE] + [] == Rejoin(front) + [NEWLINE];
  }

  /**
   * The tokens on lines: no space reaches over the end of a line, the other tokens are all there in order,
   * and rejoining the lines gives back the text, less the newline it ends with if a space token ends it.
   */
  method SplitTokensByLine(tokens: seq<Token>) returns (lines: seq<seq<Token>>)
    ensures lines != [] && AllUnbroken(lines) && SolidLines(lines) == Solid(tokens)
    ensures Join(tokens) == Rejoin(lines)
              + if tokens != [] && EndsWithNewline(tokens[|tokens| - 1]) then [NEWLINE] else []
  {
    lines := [[]];
    for n := 0 to |tokens|
      invariant Laid(lines, Join(tokens[..n]), Solid(tokens[..n]))
      invariant LastIsEmpty(lines) <==> n > 0 && EndsWithNewline(tokens[n - 1])
    {
      TakeNext(tokens, n);
      JoinAppend(tokens[..n], tokens[n]);
      SolidAppend(tokens[..n], tokens[n]);
      lines := PlaceToken(lines, tokens[n], Join(tokens[..n]), Solid(tokens[..n]));
    }
    assert tokens[..|tokens|] == tokens;
    if |lines| > 1 && |lines[|lines| - 1]| == 0 {
      DropEmpty(lines, Join(tokens), Solid(tokens));
      lines := lines[..|lines| - 1];
    }
  }
}
