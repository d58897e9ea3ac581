/** The order of tuples of texts that evaluations are sorted by: Python compares them element by element. */
module KeyOrder {
  predicate TextBefore(a: string, b: string) {
    b != "" && (a == "" || a[0] < b[0] || (a[0] == b[0] && TextBefore(a[1..], b[1..])))
  }

  predicate KeyBefore(a: seq<string>, b: seq<string>) {
    b != [] && (a == [] || TextBefore(a[0], b[0]) || (a[0] == b[0] && KeyBefore(a[1..], b[1..])))
  }

  lemma {:induction false} TextsCompare(a: string, b: string)
    ensures !(TextBefore(a, b) && TextBefore(b, a))
    ensures a != b ==> TextBefore(a, b) || TextBefore(b, a)
    decreases |a| + |b|
  {
    if a != "" && b != "" {
      TextsCompare(a[1..], b[1..]);
      if a[0] == b[0] && a[1..] == b[1..] {
        assert a == [a[0]] + a[1..] && b == [b[0]] + b[1..];
      }
    }
  }

  lemma {:induction false} TextsChain(a: string, b: string, c: string)
    requires TextBefore(a, b) && TextBefore(b, c)
    ensures TextBefore(a, c)
    decreases |a|
  {
    if a != "" && a[0] == b[0] == c[0] {
      TextsChain(a[1..], b[1..], c[1..]);
    }
  }

  lemma {:induction false} KeysCompare(a: seq<string>, b: seq<string>)
    ensures !(KeyBefore(a, b) && KeyBefore(b, a))
    ensures a != b ==> KeyBefore(a, b) || KeyBefore(b, a)
    decreases |a| + |b|
  {
    if a != [] && b != [] {
      TextsCompare(a[0], b[0]);
      KeysCompare(a[1..], b[1..]);
      if a[0] == b[0] && a[1..] == b[1..] {
        assert a == [a[0]] + a[1..] && b == [b[0]] + b[1..];
      }
    }
  }

  lemma {:induction false} KeysChain(a: seq<string>, b: seq<string>, c: seq<string>)
    requires KeyBefore(a, b) && KeyBefore(b, c)
    ensures KeyBefore(a, c)
    decreases |a|
  {
    if a != [] {
      TextsCompare(a[0], b[0]);
      TextsCompare(b[0], c[0]);
      if a[0] == b[0] == c[0] {
        KeysChain(a[1..], b[1..], c[1..]);
      } else if a[0] != b[0] && b[0] != c[0] {
        TextsChain(a[0], b[0], c[0]);
      }
    }
  }

  /** Keys are totally ordered: asymmetric, transitive, and any two that differ compare. */
  lemma KeysAreTotallyOrdered(a: seq<string>, b: seq<string>, c: seq<string>)
    ensures !(KeyBefore(a, b) && KeyBefore(b, a))
    ensures a != b ==> KeyBefore(a, b) || KeyBefore(b, a)
    ensures KeyBefore(a, b) && KeyBefore(b, c) ==> KeyBefore(a, c)
  {
    KeysCompare(a, b);
    if KeyBefore(a, b) && KeyBefore(b, c) {
      KeysChain(a, b, c);
    }
  }
}
