/** Python's string helpers that the modelled code relies on: strip, lstrip, rstrip,
    endswith and a two-newline join. */
module Text {

  /** The characters that Python's `str.isspace` accepts. */
  predicate IsSpace(c: char) {
    || c == ' '
    || '\t' <= c <= '\r'
    || '\U{1C}' <= c <= '\U{1F}'
    || c == '\U{85}' || c == '\U{A0}' || c == '\U{1680}'
    || '\U{2000}' <= c <= '\U{200A}'
    || c == '\U{2028}' || c == '\U{2029}' || c == '\U{202F}' || c == '\U{205F}' || c == '\U{3000}'
  }

  predicate IsBlank(s: string) {
    All(IsSpace, s)
  }

  function LStrip(s: string): string {
    DropLeft(IsSpace, s)
  }

  function RStrip(s: string): string {
    DropRight(IsSpace, s)
  }

  function Strip(s: string): string {
    RStrip(LStrip(s))
  }

  // ----- stripping the characters of any class

  predicate All(p: char -> bool, s: string) {
    forall i | 0 <= i < |s| :: p(s[i])
  }

  /** The first index from `i` on whose character is not in the class. */
  function SkipRight(p: char -> bool, s: string, i: nat): (r: nat)
    requires i <= |s|
    ensures i <= r <= |s|
    decreases |s| - i
  {
    if i < |s| && p(s[i]) then SkipRight(p, s, i + 1) else i
  }

  /** One past the last index below `j` whose character is not in the class. */
  function SkipLeft(p: char -> bool, s: string, j: nat): (r: nat)
    requires j <= |s|
    ensures r <= j
  {
    if j > 0 && p(s[j - 1]) then SkipLeft(p, s, j - 1) else j
  }

  function DropLeft(p: char -> bool, s: string): string {
    s[SkipRight(p, s, 0)..]
  }

  function DropRight(p: char -> bool, s: string): string {
    s[..SkipLeft(p, s, |s|)]
  }

  lemma {:induction false} SkipRightFacts(p: char -> bool, s: string, i: nat)
    requires i <= |s|
    ensures var r := SkipRight(p, s, i); (r < |s| ==> !p(s[r])) && forall k | i <= k < r :: p(s[k])
    decreases |s| - i
  {
    if i < |s| && p(s[i]) {
      SkipRightFacts(p, s, i + 1);
    }
  }

  lemma {:induction false} SkipLeftFacts(p: char -> bool, s: string, j: nat)
    requires j <= |s|
    ensures var r := SkipLeft(p, s, j); (r > 0 ==> !p(s[r - 1])) && forall k | r <= k < j :: p(s[k])
  {
    if j > 0 && p(s[j - 1]) {
      SkipLeftFacts(p, s, j - 1);
    }
  }

  /** `DropLeft` takes off exactly the leading characters of the class. */
  lemma DropLeftFacts(p: char -> bool, s: string)
    ensures var r := DropLeft(p, s);
            && |r| <= |s| && s == s[..|s| - |r|] + r
            && All(p, s[..|s| - |r|])
            && (r == "" || !p(r[0]))
  {
    SkipRightFacts(p, s, 0);
  }

  /** `DropRight` takes off exactly the trailing characters of the class. */
  lemma DropRightFacts(p: char -> bool, s: string)
    ensures var r := DropRight(p, s);
            && |r| <= |s| && s == r + s[|r|..]
            && All(p, s[|r|..])
            && (r == "" || !p(r[|r| - 1]))
  {
    SkipLeftFacts(p, s, |s|);
  }

  lemma {:induction false} SkipLeftAfter(p: char -> bool, lead: string, s: string, j: nat, k: nat)
    requires k < j <= |s| && !p(s[k])
    ensures SkipLeft(p, lead + s, |lead| + j) == |lead| + SkipLeft(p, s, j)
  {
    if p(s[j - 1]) {
      SkipLeftAfter(p, lead, s, j - 1, k);
    }
  }

  /** What is dropped at the right does not depend on what stands in front of a kept character. */
  lemma DropRightAfter(p: char -> bool, lead: string, s: string)
    requires !All(p, s)
    ensures DropRight(p, lead + s) == lead + DropRight(p, s)
  {
    var k :| 0 <= k < |s| && !p(s[k]);
    SkipLeftAfter(p, lead, s, |s|, k);
  }

  lemma DropBoth(p: char -> bool, s: string)
    ensures var (l, m) := (DropLeft(p, s), DropRight(p, DropLeft(p, s)));
            && (All(p, s) <==> m == "") && (m == "" ==> l == "")
            && (m != "" ==> !All(p, l) && !All(p, m))
  {
    DropLeftFacts(p, s);
    var l := DropLeft(p, s);
    DropRightFacts(p, l);
    var m := DropRight(p, l);
    assert l != "" ==> l[0] == s[|s| - |l|];
    assert m == "" ==> l == l[0..];
    assert m != "" ==> !p(m[|m| - 1]) && !p(l[0]);
  }

  /** A text whose outer characters are visible is its own strip. */
  lemma StripSolid(s: string)
    requires s != "" && !IsSpace(s[0]) && !IsSpace(s[|s| - 1])
    ensures Strip(s) == s
  {
  }

  lemma StripBlank(s: string)
    ensures IsBlank(s) <==> Strip(s) == ""
  {
    DropBoth(IsSpace, s);
  }

  /** The leading and the trailing blanks of a text. */
  function Leading(s: string): string {
    DropLeftFacts(IsSpace, s);
    s[..|s| - |LStrip(s)|]
  }

  function Trailing(s: string): string {
    DropRightFacts(IsSpace, s);
    s[|RStrip(s)|..]
  }

  /** A text with a visible character is its leading blanks, its strip and its trailing blanks. */
  lemma StripDecomposes(s: string)
    requires !IsBlank(s)
    ensures s == Leading(s) + Strip(s) + Trailing(s)
  {
    DropBoth(IsSpace, s);
    var l := LStrip(s);
    var lead := Leading(s);
    DropLeftFacts(IsSpace, s);
    DropRightAfter(IsSpace, lead, l);
    assert RStrip(s) == lead + Strip(s);
    DropRightFacts(IsSpace, s);
  }

  lemma {:induction false} SkipRightBefore(p: char -> bool, s: string, rest: string, i: nat, k: nat)
    requires i <= k < |s| && !p(s[k])
    ensures SkipRight(p, s + rest, i) == SkipRight(p, s, i) <= k
    decreases k - i
  {
    if p(s[i]) {
      SkipRightBefore(p, s, rest, i + 1, k);
    }
  }

  lemma {:induction false} SkipRightPast(p: char -> bool, lead: string, s: string, i: nat)
    requires All(p, lead) && i <= |lead|
    ensures SkipRight(p, lead + s, i) == |lead| + SkipRight(p, s, 0)
    decreases |lead| - i
  {
    if i < |lead| {
      SkipRightPast(p, lead, s, i + 1);
    } else {
      SkipRightShift(p, lead, s, 0);
    }
  }

  lemma {:induction false} SkipRightShift(p: char -> bool, lead: string, s: string, i: nat)
    requires i <= |s|
    ensures SkipRight(p, lead + s, |lead| + i) == |lead| + SkipRight(p, s, i)
    decreases |s| - i
  {
    if i < |s| && p(s[i]) {
      SkipRightShift(p, lead, s, i + 1);
    }
  }

  /** Blanks in front of a text make no difference to its strip. */
  lemma StripBehindBlank(lead: string, s: string)
    requires IsBlank(lead)
    ensures Strip(lead + s) == Strip(s)
  {
    SkipRightPast(IsSpace, lead, s, 0);
    assert LStrip(lead + s) == LStrip(s);
  }

  /** Between two texts with visible characters everything is kept. */
  lemma StripBetween(first: string, middle: string, last: string)
    requires !IsBlank(first) && !IsBlank(last)
    ensures Strip(first + middle + last) == LStrip(first) + middle + RStrip(last)
  {
    var k :| 0 <= k < |first| && !IsSpace(first[k]);
    var rest := middle + last;
    SkipRightBefore(IsSpace, first, rest, 0, k);
    assert first + middle + last == first + rest;
    assert LStrip(first + rest) == LStrip(first) + middle + last;
    DropRightAfter(IsSpace, LStrip(first) + middle, last);
  }

  predicate EndsWith(s: string, t: string) {
    |t| <= |s| && s[|s| - |t|..] == t
  }

  /** The separator between parts of one prompt. */
  const BREAK: string := "\n\n"

  /** `"\n\n".join(parts)`. */
  function Join(parts: seq<string>): string {
    if parts == [] then ""
    else if |parts| == 1 then parts[0]
    else parts[0] + BREAK + Join(parts[1..])
  }

  lemma {:induction false} JoinSplit(a: seq<string>, b: seq<string>)
    requires a != [] && b != []
    ensures Join(a + b) == Join(a) + BREAK + Join(b)
  {
    if |a| == 1 {
      assert a + b == [a[0]] + b;
      assert (a + b)[1..] == b;
    } else {
      assert (a + b)[1..] == a[1..] + b;
      JoinSplit(a[1..], b);
      assert Join(a + b) == a[0] + BREAK + (Join(a[1..]) + BREAK + Join(b));
      assert Join(a) == a[0] + BREAK + Join(a[1..]);
    }
  }

  /** `"".join(parts)`. */
  function Concat(parts: seq<string>): string {
    if parts == [] then "" else parts[0] + Concat(parts[1..])
  }

  lemma {:induction false} ConcatSnoc(parts: seq<string>, last: string)
    ensures Concat(parts + [last]) == Concat(parts) + last
  {
    if parts == [] {
      assert parts + [last] == [last];
    } else {
      assert (parts + [last])[1..] == parts[1..] + [last];
      ConcatSnoc(parts[1..], last);
    }
  }
}
