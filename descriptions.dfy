/** The description filter shared by the upstream adapters: a character is kept when its
    code lies in range(ord('a'), ord('z')), range(ord('A'), ord('Z')) or
    range(ord('0'), ord('9')), or when it is one of twelve punctuation marks. The ranges
    are half-open, so 'z', 'Z' and '9' are dropped with everything else. */
module Descriptions {

  const Punctuation: set<char> := {'+', '_', '-', ' ', '.', '(', ')', '[', ']', '{', '}', ','}

  predicate Allowed(c: char)
  {
    ('a' <= c < 'z') || ('A' <= c < 'Z') || ('0' <= c < '9') || c in Punctuation
  }

  /** "".join(x for x in s if ord(x) in allowed_ords). */
  function Filtered(s: string): (r: string)
    ensures |r| <= |s|
    decreases |s|
  {
    if |s| == 0 then ""
    else (if Allowed(s[0]) then [s[0]] else []) + Filtered(s[1..])
  }

  /** Only allowed characters survive, and a text made of them is left as it is. */
  lemma {:induction false} FilteredAllowed(s: string)
    ensures forall i :: 0 <= i < |Filtered(s)| ==> Allowed(Filtered(s)[i])
    ensures (forall i :: 0 <= i < |s| ==> Allowed(s[i])) ==> Filtered(s) == s
    decreases |s|
  {
    if |s| > 0 {
      FilteredAllowed(s[1..]);
      var head := if Allowed(s[0]) then [s[0]] else [];
      assert Filtered(s) == head + Filtered(s[1..]);
      if forall i :: 0 <= i < |s| ==> Allowed(s[i]) {
        assert forall i :: 0 <= i < |s[1..]| ==> s[1..][i] == s[i + 1];
        assert s == [s[0]] + s[1..];
      }
    }
  }

  /** The filter works character by character, so it keeps the order of the text. */
  lemma {:induction false} FilteredConcat(a: string, b: string)
    ensures Filtered(a + b) == Filtered(a) + Filtered(b)
    decreases |a|
  {
    if |a| > 0 {
      assert (a + b)[0] == a[0] && (a + b)[1..] == a[1..] + b;
      FilteredConcat(a[1..], b);
    } else {
      assert a + b == b;
    }
  }

  /** Every allowed character is kept as often as it occurs, and no other survives. */
  lemma {:induction false} FilteredCounts(s: string)
    ensures forall c :: Allowed(c) ==> multiset(Filtered(s))[c] == multiset(s)[c]
    ensures forall c :: !Allowed(c) ==> c !in Filtered(s)
    decreases |s|
  {
    if |s| > 0 {
      FilteredCounts(s[1..]);
      assert s == [s[0]] + s[1..];
      assert multiset(s) == multiset([s[0]]) + multiset(s[1..]);
    }
  }

  /** Filtering twice is filtering once. */
  lemma FilteredIdempotent(s: string)
    ensures Filtered(Filtered(s)) == Filtered(s)
  {
    FilteredAllowed(s);
    FilteredAllowed(Filtered(s));
  }

  /** The upper ends of the three ranges fall outside them. */
  lemma RangeEndsDropped()
    ensures Filtered("zZ9") == ""
    ensures Filtered("yY8") == "yY8"
  {
  }
}
