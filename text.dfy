/** The few JavaScript string operations the request handlers rely on. */
module Text {
  import opened Wrappers

  /** JavaScript truthiness of a request value that is a string when present:
      a missing field, `null` and the empty string are all falsy. */
  predicate Truthy(v: Option<string>) {
    v.Some? && v.value != ""
  }

  /** `p` is a prefix of `s`. */
  predicate IsPrefix(p: string, s: string) {
    |p| <= |s| && s[..|p|] == p
  }

  /** `s.includes(t)`: `t` occurs in `s` at some position. */
  predicate Contains(s: string, t: string) {
    exists i :: 0 <= i <= |s| && IsPrefix(t, s[i..])
  }

  /** `parts.join(sep)`: the parts in order, with `sep` between neighbours. */
  function Join(parts: seq<string>, sep: string): string {
    if |parts| == 0 then ""
    else if |parts| == 1 then parts[0]
    else parts[0] + sep + Join(parts[1..], sep)
  }

  /** The number of occurrences of `c` in `s`. */
  function Occurrences(s: string, c: char): nat {
    if s == [] then 0 else (if s[0] == c then 1 else 0) + Occurrences(s[1..], c)
  }

  /** A character that is not in `s` occurs in it zero times. */
  lemma {:induction false} NoOccurrences(s: string, c: char)
    requires c !in s
    ensures Occurrences(s, c) == 0
  {
    if s != [] {
      assert c !in s[1..];
      NoOccurrences(s[1..], c);
    }
  }

  /** Occurrences in a concatenation add up. */
  lemma {:induction false} OccurrencesAppend(a: string, b: string, c: char)
    ensures Occurrences(a + b, c) == Occurrences(a, c) + Occurrences(b, c)
  {
    if a == [] {
      assert a + b == b;
    } else {
      assert (a + b)[0] == a[0] && (a + b)[1..] == a[1..] + b;
      OccurrencesAppend(a[1..], b, c);
    }
  }

  /** The text after a prefix is what was appended to it. */
  lemma DropPrefix(p: string, s: string)
    ensures IsPrefix(p, p + s) && (p + s)[|p|..] == s
  {
    assert (p + s)[..|p|] == p;
  }

  /** An occurrence of `t` at position `i` of `s` makes `s` contain `t`. */
  lemma ContainsAt(s: string, t: string, i: nat)
    requires i + |t| <= |s| && s[i..i + |t|] == t
    ensures Contains(s, t)
  {
    assert s[i..][..|t|] == t;
  }

  /** When every part holds `c` exactly once and the separator never, the
      joined text holds `c` once per part. */
  lemma {:induction false} JoinOccurrences(parts: seq<string>, sep: string, c: char)
    requires forall k :: 0 <= k < |parts| ==> Occurrences(parts[k], c) == 1
    requires Occurrences(sep, c) == 0
    ensures Occurrences(Join(parts, sep), c) == |parts|
  {
    if |parts| > 1 {
      JoinOccurrences(parts[1..], sep, c);
      OccurrencesAppend(parts[0], sep, c);
      OccurrencesAppend(parts[0] + sep, Join(parts[1..], sep), c);
    }
  }
}
