/** Reading the agent's output streams while they grow (`_read_process_stream` in buyer/app/runner.py). */
module StreamReader {
  import opened Common
  import opened Utf8

  function Flatten<T>(parts: seq<seq<T>>): seq<T> {
    if parts == [] then [] else parts[0] + Flatten(parts[1..])
  }

  lemma {:induction false} FlattenAppend<T>(a: seq<seq<T>>, b: seq<seq<T>>)
    ensures Flatten(a + b) == Flatten(a) + Flatten(b)
  {
    if a == [] {
      assert a + b == b;
    } else {
      assert (a + b)[1..] == a[1..] + b;
      FlattenAppend(a[1..], b);
    }
  }

  lemma FlattenSnoc<T>(a: seq<seq<T>>, x: seq<T>)
    ensures Flatten(a + [x]) == Flatten(a) + x
  {
    FlattenAppend(a, [x]);
    assert Flatten([x]) == x + Flatten<T>([]);
  }

  /** Where the first newline is, or the length of the text. */
  function Find(t: seq<nat>): (k: nat)
    ensures k <= |t| && (forall i | 0 <= i < k :: t[i] != NEWLINE)
    ensures k < |t| ==> t[k] == NEWLINE
  {
    if t == [] || t[0] == NEWLINE then 0 else 1 + Find(t[1..])
  }

  /** The text cut after every newline; text after the last one is a line of its own. */
  function Lines(t: Text): seq<Text>
    decreases |t|
  {
    if t == [] then []
    else
      var k := Find(t);
      if k == |t| then [t] else [t[..k + 1]] + Lines(t[k + 1..])
  }

  predicate Unbroken(t: Text) {
    forall i | 0 <= i < |t| :: t[i] != NEWLINE
  }

  /** A line holds a newline at its end and nowhere else. */
  predicate IsLine(t: Text) {
    EndsLine(t) && Unbroken(t[..|t| - 1])
  }

  /** The text in order, whole lines first, with at most one unfinished line at the end. */
  predicate IsSplit(lines: seq<Text>, t: Text) {
    && Flatten(lines) == t
    && (forall i | 0 <= i < |lines| - 1 :: IsLine(lines[i]))
    && (lines != [] ==> var last := lines[|lines| - 1]; IsLine(last) || (last != [] && Unbroken(last)))
  }

  lemma FindIs(t: Text, k: nat)
    requires k < |t| && t[k] == NEWLINE && Unbroken(t[..k])
    ensures Find(t) == k
  {
    assert forall i | 0 <= i < k :: t[i] == t[..k][i];
  }

  lemma LinesOfLine(line: Text, rest: Text)
    requires IsLine(line)
    ensures Lines(line + rest) == [line] + Lines(rest)
  {
    var k := |line| - 1;
    assert (line + rest)[..k] == line[..k];
    FindIs(line + rest, k);
    assert (line + rest)[..k + 1] == line && (line + rest)[k + 1..] == rest;
  }

  lemma LinesOfOne(line: Text)
    requires IsLine(line) || (line != [] && Unbroken(line))
    ensures Lines(line) == [line]
  {
    if IsLine(line) {
      LinesOfLine(line, []);
      assert line + [] == line;
    }
  }

  /** `Lines` is the only way to split a text into lines. */
  lemma {:induction false} SplitIsLines(lines: seq<Text>, t: Text)
    requires IsSplit(lines, t)
    ensures lines == Lines(t)
    decreases |lines|
  {
    if |lines| == 1 {
      assert Flatten(lines[1..]) == [] && lines[0] + [] == lines[0];
      LinesOfOne(t);
    } else if lines != [] {
      var rest := lines[1..];
      assert rest[|rest| - 1] == lines[|lines| - 1];
      SplitIsLines(rest, Flatten(rest));
      LinesOfLine(lines[0], Flatten(rest));
    }
  }

  lemma {:induction false} LinesFlatten(t: Text)
    ensures Flatten(Lines(t)) == t
    decreases |t|
  {
    if t != [] && Find(t) < |t| {
      var first, rest := t[..Find(t) + 1], t[Find(t) + 1..];
      LinesFlatten(rest);
      assert first + rest == t && Lines(t)[0] == first && Lines(t)[1..] == Lines(rest);
    } else if t != [] {
      FlattenSnoc([], t);
      assert [] + [t] == [t];
    }
  }

  lemma {:induction false} LinesAreASplit(t: Text)
    ensures IsSplit(Lines(t), t)
    decreases |t|
  {
    LinesFlatten(t);
    if t != [] && Find(t) < |t| {
      var first, rest := t[..Find(t) + 1], t[Find(t) + 1..];
      LinesAreASplit(rest);
      assert first[..|first| - 1] == t[..Find(t)];
      assert IsLine(first) && Lines(t) == [first] + Lines(rest);
    } else if t != [] {
      assert t[..Find(t)] == t;
    }
  }

  lemma CutLine(t: Text, k: nat)
    requires k < |t| && t[k] == NEWLINE && (forall i | 0 <= i < k :: t[i] != NEWLINE)
    ensures IsLine(t[..k + 1]) && t == t[..k + 1] + t[k + 1..]
  {
  }

  lemma LinesAppendStep(line: Text, rest: Text, b: Text)
    requires IsLine(line) && Lines(rest + b) == Lines(rest) + Lines(b)
    ensures Lines(line + rest + b) == Lines(line + rest) + Lines(b)
  {
    LinesOfLine(line, rest);
    LinesOfLine(line, rest + b);
    Associative(line, rest, b);
    Associative([line], Lines(rest), Lines(b));
  }

  /** Text that ends a line splits apart from what follows it. */
  lemma {:induction false} LinesAppend(a: Text, b: Text)
    requires |a| > 0 ==> EndsLine(a)
    ensures Lines(a + b) == Lines(a) + Lines(b)
    decreases |a|
  {
    if |a| == 0 {
      assert a + b == b && Lines(a) + Lines(b) == Lines(b);
    } else {
      var k := Find(a);
      CutLine(a, k);
      var line, rest := a[..k + 1], a[k + 1..];
      LinesAppend(rest, b);
      LinesAppendStep(line, rest, b);
    }
  }

  /** The texts a reader publishes for everything it reads: the lines of one decoding of it all. */
  function Published(all: seq<Byte>): seq<Text> {
    Lines(Decode(all).0)
  }

  /** The complete lines of `text`, joined, and what is left after the last newline. */
  ghost predicate Split(text: Text, complete: Text, lines: seq<Text>, pending: Text) {
    text == complete + pending && (|complete| > 0 ==> EndsLine(complete)) && lines == Lines(complete)
  }

  lemma LinesMore(complete: Text, line: Text)
    requires (|complete| > 0 ==> EndsLine(complete)) && IsLine(line)
    ensures Lines(complete + line) == Lines(complete) + [line]
    ensures EndsLine(complete + line)
  {
    LinesAppend(complete, line);
    LinesOfOne(line);
  }

  lemma SplitStep(text: Text, complete: Text, lines: seq<Text>, line: Text, rest: Text)
    requires Split(text, complete, lines, line + rest) && IsLine(line)
    ensures Split(text, complete + line, lines + [line], rest)
  {
    LinesMore(complete, line);
    assert complete + (line + rest) == complete + line + rest;
  }

  /** The loop that publishes every finished line of the pending text. */
  method PublishLines(pending: Text, ghost text: Text, ghost complete: Text, ghost before: seq<Text>)
    returns (lines: seq<Text>, left: Text, ghost completed: Text)
    requires Split(text, complete, before, pending)
    ensures Split(text, completed, before + lines, left) && Unbroken(left)
  {
    lines, left, completed := [], pending, complete;
    assert before + lines == before;
    while true
      invariant Split(text, completed, before + lines, left)
      decreases |left|
    {
      var k := Find(left);
      if k == |left| {
        break;
      }
      CutLine(left, k);
      SplitStep(text, completed, before + lines, left[..k + 1], left[k + 1..]);
      assert before + (lines + [left[..k + 1]]) == before + lines + [left[..k + 1]];
      completed := completed + left[..k + 1];
      lines, left := lines + [left[..k + 1]], left[k + 1..];
    }
  }

  /** What a reader knows after reading `all`: the decoded text is collected, its whole lines published. */
  ghost predicate HasRead(all: seq<Byte>, buffer: seq<Byte>, chunks: seq<Text>,
                          complete: Text, published: seq<Text>, pending: Text) {
    Decode(all) == (Flatten(chunks), buffer) && Split(Flatten(chunks), complete, published, pending)
  }

  lemma ReadMore(all: seq<Byte>, buffer: seq<Byte>, chunks: seq<Text>,
                 complete: Text, published: seq<Text>, pending: Text, raw: seq<Byte>)
    requires HasRead(all, buffer, chunks, complete, published, pending)
    ensures var more := Decode(buffer + raw);
            HasRead(all + raw, more.1, chunks + [more.0], complete, published, pending + more.0)
  {
    var more := Decode(buffer + raw);
    DecodeAppend(all, raw);
    FlattenSnoc(chunks, more.0);
    assert complete + pending + more.0 == complete + (pending + more.0);
  }

  lemma NothingMore(all: seq<Byte>, buffer: seq<Byte>, chunks: seq<Text>,
                    complete: Text, published: seq<Text>, pending: Text)
    requires HasRead(all, buffer, chunks + [[]], complete, published, pending + [])
    ensures HasRead(all, buffer, chunks, complete, published, pending)
  {
    FlattenSnoc(chunks, []);
    assert Flatten(chunks) + [] == Flatten(chunks) && pending + [] == pending;
  }

  /** The decoder has nothing to add when the stream ends: an unfinished character is ignored. */
  lemma NoTail(all: seq<Byte>)
    ensures Decode(Decode(all).1).0 == []
  {
    DecodeAppend(all, []);
    assert all + [] == all && Decode(all).1 + [] == Decode(all).1;
  }

  lemma LastLine(text: Text, complete: Text, lines: seq<Text>, pending: Text)
    requires Split(text, complete, lines, pending) && Unbroken(pending)
    ensures Lines(text) == if pending == [] then lines else lines + [pending]
  {
    LinesAppend(complete, pending);
    if pending != [] {
      LinesOfOne(pending);
    }
  }

  /**
   * `_read_process_stream` for a reader with `read`: `raws` is what the calls return before the
   * empty result that ends them. What it publishes and what it collects depend on the bytes alone,
   * however they were cut.
   */
  method ReadProcessStream(raws: seq<seq<Byte>>) returns (published: seq<Text>, chunks: seq<Text>)
    ensures published == Published(Flatten(raws))
    ensures Flatten(chunks) == Decode(Flatten(raws)).0
  {
    published, chunks := [], [];
    var pending: Text, buffer: seq<Byte> := [], [];
    ghost var complete: Text := [];
    for i := 0 to |raws|
      invariant HasRead(Flatten(raws[..i]), buffer, chunks, complete, published, pending)
      invariant Unbroken(pending)
    {
      var decoded := Decode(buffer + raws[i]);
      assert raws[..i + 1] == raws[..i] + [raws[i]];
      FlattenSnoc(raws[..i], raws[i]);
      ReadMore(Flatten(raws[..i]), buffer, chunks, complete, published, pending, raws[i]);
      buffer := decoded.1;
      if decoded.0 == [] {
        NothingMore(Flatten(raws[..i + 1]), buffer, chunks, complete, published, pending);
        continue;
      }
      chunks := chunks + [decoded.0];
      var lines, left;
      lines, left, complete := PublishLines(pending + decoded.0, Flatten(chunks), complete, published);
      published, pending := published + lines, left;
    }
    assert raws[..|raws|] == raws;
    var tail := Decode(buffer).0;
    NoTail(Flatten(raws));
    if tail != [] {
      chunks, pending := chunks + [tail], pending + tail;
    }
    LastLine(Flatten(chunks), complete, published, pending);
    if pending != [] {
      published := published + [pending];
    }
  }

  lemma {:induction false} CodeGrows(s: seq<Byte>, at: nat, size: nat, low: int, high: int, code: nat)
    requires at <= |s| && at <= size && 0x80 <= low
    requires 0x80 <= code || (2 <= code && at < size) || (1 <= code && at + 1 < size)
    ensures var r := Continue(s, at, size, low, high, code); r.Char? ==> 0x80 <= r.code
    decreases size - at
  {
    if at < size && at < |s| && low <= s[at] <= high {
      CodeGrows(s, at + 1, size, 0x80, 0xBF, code * 64 + s[at] - 0x80);
    }
  }

  /** Only the newline byte decodes to a newline: longer forms of it are not accepted. */
  lemma NewlineFront(s: seq<Byte>)
    requires s != [] && FrontOf(s).Char? && FrontOf(s).code == NEWLINE
    ensures s[0] == NEWLINE
  {
    var lead := LeadOf(s[0]);
    if lead.Multi? {
      if lead.bits > 0 {
        CodeGrows(s, 1, lead.size, lead.low, lead.high, lead.bits);
      } else {
        CodeGrows(s, 2, lead.size, 0x80, 0xBF, s[1] - 0x80);
      }
    }
  }

  lemma {:induction false} DecodeUnbroken(s: seq<Byte>)
    requires forall i | 0 <= i < |s| :: s[i] != NEWLINE
    ensures Unbroken(Decode(s).0)
    decreases |s|
  {
    if s != [] && !FrontOf(s).Short? {
      DecodeUnbroken(s[FrontOf(s).size..]);
      if FrontOf(s).Char? && FrontOf(s).code == NEWLINE {
        NewlineFront(s);
      }
    }
  }

  /** What `readline` returns: bytes up to and including a newline, or what is left at the end. */
  predicate IsRawLine(raw: seq<Byte>) {
    raw != [] && forall i | 0 <= i < |raw| - 1 :: raw[i] != NEWLINE
  }

  lemma RestIsRawLine(raw: seq<Byte>, k: nat)
    requires IsRawLine(raw) && EndsLine(raw) && k < |raw|
    ensures IsRawLine(raw[k..]) && EndsLine(raw[k..])
  {
  }

  lemma LineGrows(c: nat, line: Text)
    requires c != NEWLINE && IsLine(line)
    ensures IsLine([c] + line)
  {
    assert ([c] + line)[..|line|] == [c] + line[..|line| - 1];
  }

  lemma LoneNewline(raw: seq<Byte>)
    requires raw == [NEWLINE]
    ensures Decode(raw).1 == [] && IsLine(Decode(raw).0)
  {
    assert FrontOf(raw) == Char(1, NEWLINE) && Decode(raw[1..]) == ([], []);
    assert Decode(raw).0 == [NEWLINE];
  }

  lemma {:induction false} DecodeRawLine(raw: seq<Byte>)
    requires IsRawLine(raw) && EndsLine(raw)
    ensures Decode(raw).1 == [] && IsLine(Decode(raw).0)
    decreases |raw|
  {
    if |raw| == 1 {
      LoneNewline(raw);
    } else {
      var front := FrontOf(raw);
      FrontBeforeNewline(raw);
      RestIsRawLine(raw, front.size);
      DecodeRawLine(raw[front.size..]);
      if front.Char? {
        if front.code == NEWLINE {
          NewlineFront(raw);
        }
        LineGrows(front.code, Decode(raw[front.size..]).0);
      }
    }
  }

  function NonEmpty(texts: seq<Text>): seq<Text> {
    if texts == [] then []
    else
      var last := texts[|texts| - 1];
      NonEmpty(texts[..|texts| - 1]) + if last == [] then [] else [last]
  }

  /** What the reader of whole lines knows after reading `all`. */
  ghost predicate HasReadLines(all: seq<Byte>, chunks: seq<Text>) {
    Decode(all).0 == Flatten(chunks) && Published(all) == NonEmpty(chunks)
  }

  ghost predicate AtLineStart(all: seq<Byte>) {
    Decode(all).1 == [] && (|Decode(all).0| > 0 ==> EndsLine(Decode(all).0))
  }

  lemma TextOfRawLine(raw: seq<Byte>)
    requires IsRawLine(raw)
    ensures var text := Decode(raw).0; Lines(text) == if text == [] then [] else [text]
  {
    if EndsLine(raw) {
      DecodeRawLine(raw);
      LinesOfOne(Decode(raw).0);
    } else {
      DecodeUnbroken(raw);
      if Decode(raw).0 != [] {
        LinesOfOne(Decode(raw).0);
      }
    }
  }

  lemma NonEmptySnoc(texts: seq<Text>, text: Text)
    ensures NonEmpty(texts + [text]) == NonEmpty(texts) + if text == [] then [] else [text]
  {
    assert (texts + [text])[..|texts|] == texts;
  }

  /** At the start of a line nothing is left over, so the next bytes decode on their own. */
  lemma DecodeAtLineStart(all: seq<Byte>, raw: seq<Byte>)
    requires AtLineStart(all)
    ensures Decode(all + raw) == (Decode(all).0 + Decode(raw).0, Decode(raw).1)
  {
    DecodeAppend(all, raw);
    assert [] + raw == raw;
  }

  lemma LineStartAfter(all: seq<Byte>, raw: seq<Byte>)
    requires AtLineStart(all) && IsRawLine(raw) && EndsLine(raw)
    ensures AtLineStart(all + raw)
  {
    DecodeAtLineStart(all, raw);
    DecodeRawLine(raw);
  }

  lemma NextRawLine(all: seq<Byte>, chunks: seq<Text>, raw: seq<Byte>)
    requires HasReadLines(all, chunks) && AtLineStart(all) && IsRawLine(raw)
    ensures HasReadLines(all + raw, chunks + [Decode(raw).0])
  {
    var text := Decode(raw).0;
    DecodeAtLineStart(all, raw);
    FlattenSnoc(chunks, text);
    LinesAppend(Decode(all).0, text);
    TextOfRawLine(raw);
    NonEmptySnoc(chunks, text);
  }

  /**
   * `_read_process_stream` for a reader with `readline` only. Apart from empty texts, which the
   * publisher drops, it publishes what the other branch publishes.
   */
  method ReadByLine(raws: seq<seq<Byte>>) returns (published: seq<Text>, chunks: seq<Text>)
    requires forall i | 0 <= i < |raws| :: IsRawLine(raws[i])
    requires forall i | 0 <= i < |raws| - 1 :: EndsLine(raws[i])
    ensures NonEmpty(published) == Published(Flatten(raws))
    ensures Flatten(chunks) == Decode(Flatten(raws)).0
  {
    published, chunks := [], [];
    ghost var all: seq<Byte> := [];
    for i := 0 to |raws|
      invariant published == chunks && all == Flatten(raws[..i])
      invariant HasReadLines(all, chunks) && (i < |raws| ==> AtLineStart(all))
    {
      var text := Decode(raws[i]).0;
      NextRawLine(all, chunks, raws[i]);
      if i < |raws| - 1 {
        LineStartAfter(all, raws[i]);
      }
      assert raws[..i + 1] == raws[..i] + [raws[i]];
      FlattenSnoc(raws[..i], raws[i]);
      all := all + raws[i];
      published, chunks := published + [text], chunks + [text];
    }
    assert raws[..|raws|] == raws;
  }
}
