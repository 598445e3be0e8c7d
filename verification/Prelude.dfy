/** Small definitions every module shares: options, text helpers, and cardinality facts. */
module Prelude {

  datatype Option<+T> = None | Some(value: T)

  /** ASCII lower case, one character at a time. */
  function LowerChar(c: char): char {
    if 'A' <= c <= 'Z' then ((c as int) + 32) as char else c
  }

  function Lower(s: string): (r: string)
    ensures |r| == |s|
  {
    seq(|s|, i requires 0 <= i < |s| => LowerChar(s[i]))
  }

  /** Two spellings of one account or name: equal up to ASCII case. */
  predicate SameFold(a: string, b: string) {
    Lower(a) == Lower(b)
  }

  predicate HasPrefix(s: string, prefix: string) {
    prefix <= s
  }

  /** The white space characters text is trimmed of. */
  predicate IsSpace(c: char) {
    c == ' ' || '\t' <= c <= '\r' || c as int == 0x85 || c as int == 0xA0 || c as int == 0x1680
    || 0x2000 <= c as int <= 0x200A || c as int == 0x2028 || c as int == 0x2029
    || c as int == 0x202F || c as int == 0x205F || c as int == 0x3000
  }

  function TrimLeft(s: string): string {
    if s != "" && IsSpace(s[0]) then TrimLeft(s[1..]) else s
  }

  function TrimRight(s: string): string {
    if s != "" && IsSpace(s[|s| - 1]) then TrimRight(s[..|s| - 1]) else s
  }

  function Trim(s: string): string {
    TrimRight(TrimLeft(s))
  }

  lemma SubsetCardinality<T>(a: set<T>, b: set<T>)
    requires a <= b
    ensures |a| <= |b|
  {
    assert b == a + (b - a);
  }

  /** Visiting one more element of what is left. */
  lemma VisitOne<T>(a: set<T>, left: set<T>, x: T)
    requires x in left
    ensures |a - (left - {x})| == |a - left| + if x in a then 1 else 0
  {
    if x in a {
      assert a - (left - {x}) == (a - left) + {x};
    } else {
      assert a - (left - {x}) == a - left;
    }
  }
}
