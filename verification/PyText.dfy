/** The part of Python's string handling the modelled code uses, for ASCII text. */
module PyText {
  predicate IsSpace(c: char) {
    c == ' ' || '\t' <= c <= '\r' || (28 as char <= c <= 31 as char)
  }

  function LowerChar(c: char): char {
    if 'A' <= c <= 'Z' then c - 'A' + 'a' else c
  }

  function Lower(s: string): (r: string)
    ensures |r| == |s|
  {
    seq(|s|, i requires 0 <= i < |s| => LowerChar(s[i]))
  }

  function StripLeft(s: string): string {
    if s != "" && IsSpace(s[0]) then StripLeft(s[1..]) else s
  }

  function StripRight(s: string): string {
    if s != "" && IsSpace(s[|s| - 1]) then StripRight(s[..|s| - 1]) else s
  }

  function Strip(s: string): string {
    StripRight(StripLeft(s))
  }

  predicate OccursAt(s: string, part: string, i: nat) {
    i + |part| <= |s| && s[i..i + |part|] == part
  }

  predicate Contains(s: string, part: string) {
    exists i | 0 <= i <= |s| :: OccursAt(s, part, i)
  }
}
