/** The incremental reader of the browser action log (`_read_new_jsonl_records` in buyer/app/runner.py). */
module JsonlTail {
  import opened Common
  import opened Sanitizer
  import opened Utf8

  datatype Parsed = NotJson | Value(value: Json)

  datatype Record = Fields(fields: Json) | ParseError(lineTail: Text) | NonObject(value: Json)

  /** `json.loads` and the cut of a bad line to its tail. */
  datatype LineParser = LineParser(parse: Text -> Parsed, tail: Text -> Text)

  /** Line boundaries of Python's `str.splitlines`; a carriage return and a newline are one boundary. */
  predicate IsBoundary(c: nat) {
    10 <= c <= 13 || 28 <= c <= 30 || c == 0x85 || c == 0x2028 || c == 0x2029
  }

  function BoundarySize(t: Text): (k: nat)
    requires t != []
    ensures k <= |t|
  {
    if |t| >= 2 && t[0] == 13 && t[1] == NEWLINE then 2
    else if IsBoundary(t[0]) then 1
    else 0
  }

  /** `splitlines`, where `line` is the part of the first line already passed. */
  function SplitLines(line: Text, t: Text): seq<Text>
    decreases |t|
  {
    if t == [] then if line == [] then [] else [line]
    else if BoundarySize(t) == 0 then SplitLines(line + [t[0]], t[1..])
    else [line] + SplitLines([], t[BoundarySize(t)..])
  }

  predicate IsSpace(c: nat) {
    || 9 <= c <= 13 || 28 <= c <= 32 || c == 0x85 || c == 0xA0 || c == 0x1680 || 0x2000 <= c <= 0x200A
    || c == 0x2028 || c == 0x2029 || c == 0x202F || c == 0x205F || c == 0x3000
  }

  predicate IsBlank(line: Text) {
    forall i | 0 <= i < |line| :: IsSpace(line[i])
  }

  function RecordOf(line: Text, parser: LineParser): Record {
    match parser.parse(line)
    case NotJson => ParseError(parser.tail(line))
    case Value(value) => if value.JObj? then Fields(value) else NonObject(value)
  }

  /** One record for every line that is not blank. */
  function Records(lines: seq<Text>, parser: LineParser): seq<Record> {
    if lines == [] then []
    else
      var last := lines[|lines| - 1];
      Records(lines[..|lines| - 1], parser) + if IsBlank(last) then [] else [RecordOf(last, parser)]
  }

  /** The length of the first `end` bytes up to and including their last newline. */
  function LastNewline(data: seq<Byte>, end: nat): (n: nat)
    requires end <= |data|
    ensures n <= end && (n > 0 ==> data[n - 1] == NEWLINE)
  {
    if end == 0 || data[end - 1] == NEWLINE then end else LastNewline(data, end - 1)
  }

  function CompleteSize(data: seq<Byte>): (n: nat)
    ensures n <= |data| && (n > 0 ==> data[n - 1] == NEWLINE)
  {
    LastNewline(data, |data|)
  }

  /** The data up to its last newline. */
  function Complete(data: seq<Byte>): (r: seq<Byte>)
    ensures |r| == CompleteSize(data) && (|r| > 0 ==> EndsLine(r))
  {
    data[..CompleteSize(data)]
  }

  /** What the file holds from an offset on; nothing when the offset is past its end. */
  function From(file: seq<Byte>, offset: nat): seq<Byte> {
    if offset <= |file| then file[offset..] else []
  }

  /** The records of complete data, decoded and split as a whole. */
  function RecordsOf(data: seq<Byte>, parser: LineParser): seq<Record> {
    Records(SplitLines([], Decode(data).0), parser)
  }

  /** The data a read takes: everything from the offset up to the last newline. `None` cannot be opened. */
  function CompleteFrom(file: Option<seq<Byte>>, offset: nat): seq<Byte> {
    match file
    case None => []
    case Some(bytes) => Complete(From(bytes, offset))
  }

  /** The offset after a read. */
  function OffsetAfter(file: Option<seq<Byte>>, offset: nat): nat {
    offset + |CompleteFrom(file, offset)|
  }

  /** The records a read yields. */
  function RecordsFrom(file: Option<seq<Byte>>, offset: nat, parser: LineParser): seq<Record> {
    RecordsOf(CompleteFrom(file, offset), parser)
  }

  lemma {:induction false} SplitLinesAppend(line: Text, a: Text, b: Text)
    requires a != [] && a[|a| - 1] == NEWLINE
    ensures SplitLines(line, a + b) == SplitLines(line, a) + SplitLines([], b)
    decreases |a|
  {
    var k := BoundarySize(a);
    assert BoundarySize(a + b) == k;
    if k == 0 {
      assert (a + b)[1..] == a[1..] + b;
      SplitLinesAppend(line + [a[0]], a[1..], b);
    } else {
      assert (a + b)[k..] == a[k..] + b;
      if k < |a| {
        SplitLinesAppend([], a[k..], b);
      } else {
        assert a[k..] + b == b && a[k..] == [];
      }
      assert [line] + (SplitLines([], a[k..]) + SplitLines([], b)) == [line] + SplitLines([], a[k..]) + SplitLines([], b);
    }
  }

  lemma {:induction false} RecordsAppend(a: seq<Text>, b: seq<Text>, parser: LineParser)
    ensures Records(a + b, parser) == Records(a, parser) + Records(b, parser)
  {
    if b == [] {
      assert a + b == a;
    } else {
      assert (a + b)[..|a + b| - 1] == a + b[..|b| - 1];
      RecordsAppend(a, b[..|b| - 1], parser);
    }
  }

  /** Data cut after a newline yields its records piece by piece. */
  lemma RecordsOfAppend(a: seq<Byte>, b: seq<Byte>, parser: LineParser)
    requires |a| > 0 ==> EndsLine(a)
    ensures RecordsOf(a + b, parser) == RecordsOf(a, parser) + RecordsOf(b, parser)
  {
    if a == [] {
      assert a + b == b && RecordsOf(a, parser) == [];
    } else {
      DecodeAfterNewline(a, b);
      NewlineCompletes(a);
      SplitLinesAppend([], Decode(a).0, Decode(b).0);
      RecordsAppend(SplitLines([], Decode(a).0), SplitLines([], Decode(b).0), parser);
    }
  }

  lemma {:induction false} LastNewlineAppend(a: seq<Byte>, b: seq<Byte>, end: nat)
    requires (a == [] || EndsLine(a)) && end <= |b|
    ensures LastNewline(a + b, |a| + end) == |a| + LastNewline(b, end)
  {
    if end > 0 && b[end - 1] != NEWLINE {
      LastNewlineAppend(a, b, end - 1);
    }
  }

  lemma Slices(shorter: seq<Byte>, longer: seq<Byte>, offset: nat, n: nat)
    requires shorter <= longer && offset + n <= |shorter|
    ensures shorter[offset..][..n] == longer[offset..offset + n]
    ensures longer[offset..] == longer[offset..offset + n] + longer[offset + n..]
  {
  }

  lemma CompleteJoined(whole: seq<Byte>, part: seq<Byte>, rest: seq<Byte>)
    requires EndsLine(part) && whole == part + rest
    ensures Complete(whole) == part + Complete(rest)
  {
    LastNewlineAppend(part, rest, |rest|);
  }

  lemma SecondRead(shorter: seq<Byte>, longer: seq<Byte>, offset: nat, n: nat)
    requires shorter <= longer && offset <= |shorter| && n == CompleteSize(shorter[offset..]) && n > 0
    ensures Complete(longer[offset..]) == Complete(shorter[offset..]) + Complete(longer[offset + n..])
  {
    Slices(shorter, longer, offset, n);
    assert EndsLine(Complete(shorter[offset..]));
    CompleteJoined(longer[offset..], Complete(shorter[offset..]), longer[offset + n..]);
  }

  /** `data` is what reads of the shorter and then of the longer file take together. */
  ghost predicate TakenInTwo(shorter: Option<seq<Byte>>, longer: Option<seq<Byte>>, offset: nat, data: seq<Byte>) {
    data == CompleteFrom(shorter, offset) + CompleteFrom(longer, OffsetAfter(shorter, offset))
  }

  lemma AfterNothing(shorter: Option<seq<Byte>>, longer: Option<seq<Byte>>, offset: nat)
    requires |CompleteFrom(shorter, offset)| == 0
    ensures TakenInTwo(shorter, longer, offset, CompleteFrom(longer, offset))
  {
    assert CompleteFrom(shorter, offset) == [];
    NothingBefore(CompleteFrom(longer, offset));
  }

  lemma AfterSome(shorter: seq<Byte>, longer: seq<Byte>, offset: nat, n: nat)
    requires shorter <= longer && offset <= |shorter| && n == CompleteSize(shorter[offset..]) && n > 0
    ensures TakenInTwo(Some(shorter), Some(longer), offset, CompleteFrom(Some(longer), offset))
  {
    assert CompleteFrom(Some(shorter), offset) == Complete(shorter[offset..]);
    assert OffsetAfter(Some(shorter), offset) == offset + n;
    assert CompleteFrom(Some(longer), offset) == Complete(longer[offset..]);
    assert CompleteFrom(Some(longer), offset + n) == Complete(longer[offset + n..]);
    SecondRead(shorter, longer, offset, n);
  }

  /** What a read takes from the shorter file is the front of what a read of the longer one takes. */
  lemma TwoReads(shorter: seq<Byte>, longer: seq<Byte>, offset: nat)
    requires shorter <= longer
    ensures TakenInTwo(Some(shorter), Some(longer), offset, CompleteFrom(Some(longer), offset))
  {
    if |CompleteFrom(Some(shorter), offset)| == 0 {
      AfterNothing(Some(shorter), Some(longer), offset);
    } else {
      AfterSome(shorter, longer, offset, CompleteSize(shorter[offset..]));
    }
  }

  lemma NothingBefore<T>(s: seq<T>)
    ensures [] + s == s && s + [] == s
  {
  }

  /** Every snapshot that could be read starts with the ones before it. */
  ghost predicate AppendOnly(files: seq<Option<seq<Byte>>>) {
    forall i, j | 0 <= i < j < |files| && files[i].Some? && files[j].Some? :: files[i].value <= files[j].value
  }

  function LastReadable(files: seq<Option<seq<Byte>>>): Option<seq<Byte>> {
    if files == [] then None
    else if files[|files| - 1].Some? then files[|files| - 1]
    else LastReadable(files[..|files| - 1])
  }

  lemma {:induction false} LastReadableIsOne(files: seq<Option<seq<Byte>>>)
    ensures LastReadable(files).Some? ==> LastReadable(files) in files
  {
    if files != [] && files[|files| - 1].None? {
      LastReadableIsOne(files[..|files| - 1]);
    }
  }

  /** What all reads so far took, and the next read, is what one read of the last file takes. */
  lemma NextData(files: seq<Option<seq<Byte>>>, file: Option<seq<Byte>>, offset: nat)
    requires AppendOnly(files + [file])
    ensures TakenInTwo(LastReadable(files), file, offset, CompleteFrom(LastReadable(files + [file]), offset))
  {
    assert (files + [file])[..|files|] == files;
    LastReadableIsOne(files);
    if LastReadable(files).None? {
      AfterNothing(LastReadable(files), file, offset);
    } else if file.None? {
      NothingBefore(CompleteFrom(LastReadable(files), offset));
    } else {
      var i :| 0 <= i < |files| && files[i] == LastReadable(files);
      assert (files + [file])[i] == files[i] && (files + [file])[|files|] == file;
      TwoReads(files[i].value, file.value, offset);
    }
  }

  lemma NextRead(files: seq<Option<seq<Byte>>>, file: Option<seq<Byte>>, offset: nat, parser: LineParser)
    requires AppendOnly(files + [file])
    ensures var next, last := OffsetAfter(LastReadable(files), offset), LastReadable(files + [file]);
            && OffsetAfter(last, offset) == OffsetAfter(file, next)
            && RecordsFrom(last, offset, parser)
               == RecordsFrom(LastReadable(files), offset, parser) + RecordsFrom(file, next, parser)
  {
    NextData(files, file, offset);
    RecordsOfAppend(CompleteFrom(LastReadable(files), offset),
                    CompleteFrom(file, OffsetAfter(LastReadable(files), offset)), parser);
  }

  /** `_read_new_jsonl_records`; the new offset is the old one or just after a newline. */
  method ReadNewRecords(file: Option<seq<Byte>>, offset: nat, parser: LineParser)
    returns (newOffset: nat, records: seq<Record>)
    ensures newOffset == OffsetAfter(file, offset) && records == RecordsFrom(file, offset, parser)
    ensures newOffset == offset || (file.Some? && newOffset <= |file.value| && EndsLine(file.value[..newOffset]))
  {
    newOffset, records := offset, [];
    if file.None? {
      return;
    }
    var data := From(file.value, offset);
    var n := CompleteSize(data);
    if n == 0 {
      return;
    }
    newOffset := offset + n;
    var lines := SplitLines([], Decode(data[..n]).0);
    for i := 0 to |lines|
      invariant records == Records(lines[..i], parser)
    {
      assert lines[..i + 1][..i] == lines[..i];
      if IsBlank(lines[i]) {
        continue;
      }
      records := records + [RecordOf(lines[i], parser)];
    }
    assert lines[..|lines|] == lines;
  }

  /** What the reads so far have published, and where they stand. */
  ghost predicate Tailed(files: seq<Option<seq<Byte>>>, initialOffset: nat, parser: LineParser, offset: nat,
                         published: seq<Record>) {
    && offset == OffsetAfter(LastReadable(files), initialOffset)
    && published == RecordsFrom(LastReadable(files), initialOffset, parser)
  }

  lemma TailedMore(files: seq<Option<seq<Byte>>>, file: Option<seq<Byte>>, initialOffset: nat, parser: LineParser,
                   offset: nat, published: seq<Record>)
    requires AppendOnly(files + [file]) && Tailed(files, initialOffset, parser, offset, published)
    ensures Tailed(files + [file], initialOffset, parser, OffsetAfter(file, offset),
                   published + RecordsFrom(file, offset, parser))
  {
    NextRead(files, file, initialOffset, parser);
  }

  /**
   * `_tail_browser_actions`: one read for every look at the growing file. Together they publish the
   * records of a single read of the file as it was last seen.
   */
  method TailBrowserActions(files: seq<Option<seq<Byte>>>, initialOffset: nat, parser: LineParser)
    returns (offset: nat, published: seq<Record>)
    requires AppendOnly(files)
    ensures offset == OffsetAfter(LastReadable(files), initialOffset)
    ensures published == RecordsFrom(LastReadable(files), initialOffset, parser)
  {
    offset, published := initialOffset, [];
    for i := 0 to |files|
      invariant Tailed(files[..i], initialOffset, parser, offset, published)
    {
      assert files[..i + 1] == files[..i] + [files[i]];
      TailedMore(files[..i], files[i], initialOffset, parser, offset, published);
      var records;
      offset, records := ReadNewRecords(files[i], offset, parser);
      published := published + records;
    }
    assert files[..|files|] == files;
  }
}
