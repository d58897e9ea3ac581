/**
 * UTF-8 decoding with errors ignored, as `codecs.getincrementaldecoder('utf-8')('ignore')` and
 * `bytes.decode('utf-8', errors='ignore')` do it (buyer/app/runner.py). A character is its code point.
 */
module Utf8 {
  type Byte = x: int | 0 <= x < 0x100
  type Text = seq<nat>

  const NEWLINE: nat := 10

  /** What a first byte announces: its size, the range of the second byte (RFC 3629, section 4) and its bits. */
  datatype Lead = Ascii | Multi(size: nat, low: int, high: int, bits: nat) | NoLead

  function LeadOf(b: Byte): (r: Lead)
    ensures r.Multi? ==> 2 <= r.size && 0x80 <= r.low
  {
    if b < 0x80 then Ascii
    else if b < 0xC2 then NoLead
    else if b < 0xE0 then Multi(2, 0x80, 0xBF, b - 0xC0)
    else if b < 0xF0 then
      Multi(3, if b == 0xE0 then 0xA0 else 0x80, if b == 0xED then 0x9F else 0xBF, b - 0xE0)
    else if b < 0xF5 then
      Multi(4, if b == 0xF0 then 0x90 else 0x80, if b == 0xF4 then 0x8F else 0xBF, b - 0xF0)
    else NoLead
  }

  /** The front of a byte string: a character, bytes to skip, or the start of a character cut short. */
  datatype Front = Char(size: nat, code: nat) | Bad(size: nat) | Short

  function Continue(s: seq<Byte>, at: nat, size: nat, low: int, high: int, code: nat): (r: Front)
    requires at <= |s| && at <= size && 0x80 <= low
    ensures r.Short? || at <= r.size <= |s|
    ensures forall i | at <= i < if r.Short? then |s| else r.size :: s[i] >= 0x80
    decreases size - at
  {
    if at == size then Char(size, code)
    else if at == |s| then Short
    else if low <= s[at] <= high then Continue(s, at + 1, size, 0x80, 0xBF, code * 64 + s[at] - 0x80)
    else Bad(at)
  }

  function FrontOf(s: seq<Byte>): (r: Front)
    requires s != []
    ensures r.Short? || 1 <= r.size <= |s|
    ensures forall i | 1 <= i < if r.Short? then |s| else r.size :: s[i] >= 0x80
    ensures r.Short? ==> s[0] >= 0x80
  {
    match LeadOf(s[0])
    case Ascii => Char(1, s[0])
    case Multi(size, low, high, bits) => Continue(s, 1, size, low, high, bits)
    case NoLead => Bad(1)
  }

  /** The decoded text, and the bytes of a character cut short at the end. */
  function Decode(s: seq<Byte>): (Text, seq<Byte>) {
    if s == [] then ([], [])
    else
      match FrontOf(s)
      case Short => ([], s)
      case Bad(size) => Decode(s[size..])
      case Char(size, code) => var rest := Decode(s[size..]); ([code] + rest.0, rest.1)
  }

  lemma {:induction false} ContinueIsLocal(s: seq<Byte>, t: seq<Byte>, at: nat, size: nat, low: int, high: int, code: nat)
    requires at <= |s| && at <= size && 0x80 <= low
    requires !Continue(s, at, size, low, high, code).Short?
    ensures Continue(s + t, at, size, low, high, code) == Continue(s, at, size, low, high, code)
    decreases size - at
  {
    if at < size && low <= s[at] <= high {
      ContinueIsLocal(s, t, at + 1, size, 0x80, 0xBF, code * 64 + s[at] - 0x80);
    }
  }

  lemma DropAppend(s: seq<Byte>, t: seq<Byte>, k: nat)
    requires k <= |s|
    ensures (s + t)[k..] == s[k..] + t
  {
  }

  /** Decoding in two pieces, keeping the bytes of a character cut short, is decoding in one. */
  lemma {:induction false} DecodeAppend(s: seq<Byte>, t: seq<Byte>)
    ensures Decode(s + t) == (Decode(s).0 + Decode(Decode(s).1 + t).0, Decode(Decode(s).1 + t).1)
    decreases |s|
  {
    if s == [] {
      assert s + t == t;
      assert [] + Decode(t).0 == Decode(t).0;
    } else if !FrontOf(s).Short? {
      var size := FrontOf(s).size;
      assert FrontOf(s + t) == FrontOf(s) by {
        if LeadOf(s[0]).Multi? {
          var lead := LeadOf(s[0]);
          ContinueIsLocal(s, t, 1, lead.size, lead.low, lead.high, lead.bits);
        }
      }
      DropAppend(s, t, size);
      DecodeAppend(s[size..], t);
      var rest := Decode(s[size..]);
      if FrontOf(s).Char? {
        assert [FrontOf(s).code] + (rest.0 + Decode(rest.1 + t).0) == [FrontOf(s).code] + rest.0 + Decode(rest.1 + t).0;
      }
    } else {
      assert [] + Decode(s + t).0 == Decode(s + t).0;
    }
  }

  /** Bytes or text that end with a newline. */
  predicate EndsLine(s: seq<nat>) {
    s != [] && s[|s| - 1] == NEWLINE
  }

  /** A byte string that ends with a newline: its front is a whole character or bytes to skip. */
  lemma FrontBeforeNewline(s: seq<Byte>)
    requires EndsLine(s)
    ensures s == [NEWLINE] || (!FrontOf(s).Short? && FrontOf(s).size < |s| && EndsLine(s[FrontOf(s).size..]))
  {
    assert s[|s| - 1] < 0x80;
  }

  /** No character is cut short by a newline byte, and the newline is kept (RFC 3629, section 3). */
  lemma {:induction false} NewlineCompletes(s: seq<Byte>)
    requires EndsLine(s)
    ensures Decode(s).1 == []
    ensures Decode(s).0 != [] && Decode(s).0[|Decode(s).0| - 1] == NEWLINE
    decreases |s|
  {
    FrontBeforeNewline(s);
    if |s| == 1 {
      assert Decode(s[1..]) == ([], []);
    } else {
      var front := FrontOf(s);
      NewlineCompletes(s[front.size..]);
      if front.Char? {
        assert Decode(s).0 == [front.code] + Decode(s[front.size..]).0;
      }
    }
  }

  /** A byte string cut after a newline decodes piece by piece. */
  lemma DecodeAfterNewline(s: seq<Byte>, t: seq<Byte>)
    requires s == [] || EndsLine(s)
    ensures Decode(s + t) == (Decode(s).0 + Decode(t).0, Decode(t).1)
  {
    DecodeAppend(s, t);
    if s != [] {
      NewlineCompletes(s);
    }
    assert [] + t == t;
  }

  predicate IsScalar(c: nat) {
    c < 0xD800 || 0xE000 <= c < 0x110000
  }

  /** UTF-8 as section 3 of RFC 3629 defines it. */
  function EncodeChar(c: nat): seq<Byte>
    requires IsScalar(c)
  {
    if c < 0x80 then [c]
    else if c < 0x800 then [0xC0 + c / 64, 0x80 + c % 64]
    else if c < 0x10000 then [0xE0 + c / 4096, 0x80 + c / 64 % 64, 0x80 + c % 64]
    else [0xF0 + c / 262144, 0x80 + c / 4096 % 64, 0x80 + c / 64 % 64, 0x80 + c % 64]
  }

  function Encode(t: Text): seq<Byte>
    requires forall c | c in t :: IsScalar(c)
  {
    if t == [] then [] else EncodeChar(t[0]) + Encode(t[1..])
  }

  lemma SixBits(c: nat)
    ensures c == c / 64 * 64 + c % 64 && c / 64 == c / 4096 * 64 + c / 64 % 64
    ensures c / 4096 == c / 262144 * 64 + c / 4096 % 64
  {
  }

  lemma FrontOfTwo(s: seq<Byte>, c: nat)
    requires 0x80 <= c < 0x800 && |s| >= 2 && s[..2] == EncodeChar(c)
    ensures FrontOf(s) == Char(2, c)
  {
    SixBits(c);
    assert s[0] == s[..2][0] && s[1] == s[..2][1];
  }

  lemma FrontOfThree(s: seq<Byte>, c: nat)
    requires 0x800 <= c < 0x10000 && IsScalar(c) && |s| >= 3 && s[..3] == EncodeChar(c)
    ensures FrontOf(s) == Char(3, c)
  {
    SixBits(c);
    assert s[0] == s[..3][0] && s[1] == s[..3][1] && s[2] == s[..3][2];
    var lead := LeadOf(s[0]);
    assert Continue(s, 2, 3, 0x80, 0xBF, c / 64) == Char(3, c);
    assert lead.low <= s[1] <= lead.high && lead.bits * 64 + s[1] - 0x80 == c / 64;
  }

  lemma FrontOfFour(s: seq<Byte>, c: nat)
    requires 0x10000 <= c && IsScalar(c) && |s| >= 4 && s[..4] == EncodeChar(c)
    ensures FrontOf(s) == Char(4, c)
  {
    SixBits(c);
    assert s[0] == s[..4][0] && s[1] == s[..4][1] && s[2] == s[..4][2] && s[3] == s[..4][3];
    var lead := LeadOf(s[0]);
    assert Continue(s, 3, 4, 0x80, 0xBF, c / 64) == Char(4, c);
    assert Continue(s, 2, 4, 0x80, 0xBF, c / 4096) == Char(4, c);
    assert lead.low <= s[1] <= lead.high && lead.bits * 64 + s[1] - 0x80 == c / 4096;
  }

  lemma FrontOfEncoded(c: nat, rest: seq<Byte>)
    requires IsScalar(c)
    ensures FrontOf(EncodeChar(c) + rest) == Char(|EncodeChar(c)|, c)
  {
    var s := EncodeChar(c) + rest;
    assert s[..|EncodeChar(c)|] == EncodeChar(c);
    if 0x10000 <= c {
      FrontOfFour(s, c);
    } else if 0x800 <= c {
      FrontOfThree(s, c);
    } else if 0x80 <= c {
      FrontOfTwo(s, c);
    }
  }

  /** Well-formed text survives encoding and decoding, and is never taken to be cut short. */
  lemma {:induction false} DecodeInvertsEncode(t: Text)
    requires forall c | c in t :: IsScalar(c)
    ensures Decode(Encode(t)) == (t, [])
  {
    if t != [] {
      var first, rest := EncodeChar(t[0]), Encode(t[1..]);
      FrontOfEncoded(t[0], rest);
      assert (first + rest)[|first|..] == rest;
      DecodeInvertsEncode(t[1..]);
      assert [t[0]] + t[1..] == t;
    }
  }
}
