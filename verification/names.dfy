/** Normalisation of the car-model name typed into the form before it is
    looked up in the frequency table: lower-case first, then trim the
    surrounding white space (main.js line 93). */
module Names {

  /** The characters String.prototype.trim removes: the ECMAScript
      WhiteSpace set (TAB, VT, FF, ZWNBSP and every Zs space separator) and
      the LineTerminator set (LF, CR, LS, PS). */
  predicate IsWhitespace(c: char) {
    var u := c as int;
    || u == 0x09 || u == 0x0A || u == 0x0B || u == 0x0C || u == 0x0D
    || u == 0x20 || u == 0xA0 || u == 0x1680
    || (0x2000 <= u <= 0x200A)
    || u == 0x2028 || u == 0x2029 || u == 0x202F || u == 0x205F
    || u == 0x3000 || u == 0xFEFF
  }

  predicate AllWhitespace(s: string) {
    forall i :: 0 <= i < |s| ==> IsWhitespace(s[i])
  }

  predicate IsUpper(c: char) {
    'A' <= c <= 'Z'
  }

  /** Lower-cases one character; only the ASCII letters are mapped. */
  function LowerChar(c: char): (r: char)
    ensures !IsUpper(r)
    ensures IsUpper(c) ==> r as int == c as int + 32
    ensures !IsUpper(c) ==> r == c
  {
    if IsUpper(c) then (c as int + 32) as char else c
  }

  /** String.prototype.toLowerCase, restricted to ASCII letters. */
  function Lower(s: string): (r: string)
    ensures |r| == |s|
    ensures forall i :: 0 <= i < |s| ==> r[i] == LowerChar(s[i])
  {
    if |s| == 0 then [] else [LowerChar(s[0])] + Lower(s[1..])
  }

  /** Number of white-space characters at the front of `s`. */
  function LeadingCount(s: string): (n: nat)
    ensures n <= |s|
    ensures forall i :: 0 <= i < n ==> IsWhitespace(s[i])
    ensures n < |s| ==> !IsWhitespace(s[n])
  {
    if |s| == 0 || !IsWhitespace(s[0]) then 0 else 1 + LeadingCount(s[1..])
  }

  /** Number of white-space characters at the back of `s`. */
  function TrailingCount(s: string): (n: nat)
    ensures n <= |s|
    ensures forall i :: |s| - n <= i < |s| ==> IsWhitespace(s[i])
    ensures n < |s| ==> !IsWhitespace(s[|s| - n - 1])
  {
    if |s| == 0 || !IsWhitespace(s[|s| - 1]) then 0
    else 1 + TrailingCount(s[..|s| - 1])
  }

  function TrimStart(s: string): string {
    s[LeadingCount(s)..]
  }

  function TrimEnd(s: string): string {
    s[..|s| - TrailingCount(s)]
  }

  /** `r` is the slice s[a..b] and everything cut off is white space. */
  ghost predicate SliceWithin(s: string, r: string, a: int, b: int) {
    && 0 <= a <= b <= |s|
    && r == s[a..b]
    && AllWhitespace(s[..a])
    && AllWhitespace(s[b..])
  }

  /** String.prototype.trim: the longest white-space prefix and suffix are
      removed, so what remains neither starts nor ends with white space. */
  function Trim(s: string): (r: string)
    ensures exists a, b :: SliceWithin(s, r, a, b)
    ensures |r| > 0 ==> !IsWhitespace(r[0]) && !IsWhitespace(r[|r| - 1])
  {
    var t := TrimStart(s);
    var r := TrimEnd(t);
    assert SliceWithin(s, r, LeadingCount(s), LeadingCount(s) + |r|) by {
      assert s[LeadingCount(s)..][..|r|] == s[LeadingCount(s)..LeadingCount(s) + |r|];
      assert s[LeadingCount(s) + |r|..] == t[|r|..];
    }
    r
  }

  /** The lookup key of main.js line 93: lower-case, then trim. The key is
      a slice of the lower-cased name with only white space cut off either
      end; it holds no ASCII capital and neither starts nor ends with white
      space, which together fix it uniquely. */
  function Normalize(s: string): (key: string)
    ensures exists a, b :: SliceWithin(Lower(s), key, a, b)
    ensures |key| <= |s|
    ensures forall i :: 0 <= i < |key| ==> !IsUpper(key[i])
    ensures |key| > 0 ==> !IsWhitespace(key[0]) && !IsWhitespace(key[|key| - 1])
  {
    var l := Lower(s);
    var key := Trim(l);
    assert forall i :: 0 <= i < |key| ==> !IsUpper(key[i]) by {
      var a, b :| SliceWithin(l, key, a, b);
      assert forall i :: 0 <= i < |key| ==> key[i] == l[a + i];
    }
    key
  }

  /** Two names are the same up to the case of their ASCII letters. */
  predicate SameUpToCase(s: string, t: string) {
    |s| == |t| && forall i :: 0 <= i < |s| ==> LowerChar(s[i]) == LowerChar(t[i])
  }

  lemma LowerAppend(s: string, t: string)
    ensures Lower(s + t) == Lower(s) + Lower(t)
  {
  }

  lemma LowerKeepsWhitespace(p: string)
    requires AllWhitespace(p)
    ensures Lower(p) == p
  {
  }

  lemma {:induction false} LeadingCountAfterWhitespace(p: string, y: string)
    requires AllWhitespace(p)
    ensures LeadingCount(p + y) == |p| + LeadingCount(y)
  {
    if |p| > 0 {
      assert (p + y)[1..] == p[1..] + y;
      LeadingCountAfterWhitespace(p[1..], y);
    } else {
      assert p + y == y;
    }
  }

  lemma {:induction false} TrailingCountBeforeWhitespace(y: string, q: string)
    requires AllWhitespace(q)
    ensures TrailingCount(y + q) == |q| + TrailingCount(y)
  {
    if |q| > 0 {
      var q' := q[..|q| - 1];
      assert (y + q)[..|y + q| - 1] == y + q';
      TrailingCountBeforeWhitespace(y, q');
    } else {
      assert y + q == y;
    }
  }

  lemma {:induction false} LeadingCountBeforeSuffix(x: string, q: string)
    requires LeadingCount(x) < |x|
    ensures LeadingCount(x + q) == LeadingCount(x)
  {
    if IsWhitespace(x[0]) {
      assert (x + q)[1..] == x[1..] + q;
      LeadingCountBeforeSuffix(x[1..], q);
    }
  }

  lemma TrimStartAfterWhitespace(p: string, y: string)
    requires AllWhitespace(p)
    ensures TrimStart(p + y) == TrimStart(y)
  {
    LeadingCountAfterWhitespace(p, y);
    assert (p + y)[|p| + LeadingCount(y)..] == y[LeadingCount(y)..];
  }

  lemma TrimEndBeforeWhitespace(y: string, q: string)
    requires AllWhitespace(q)
    ensures TrimEnd(y + q) == TrimEnd(y)
  {
    TrailingCountBeforeWhitespace(y, q);
    assert (y + q)[..|y| - TrailingCount(y)] == y[..|y| - TrailingCount(y)];
  }

  lemma LeadingCountOfWhitespace(q: string)
    requires AllWhitespace(q)
    ensures LeadingCount(q) == |q|
  {
    assert q + [] == q;
    LeadingCountAfterWhitespace(q, []);
  }

  lemma TrimStartBeforeSuffix(x: string, q: string)
    requires LeadingCount(x) < |x|
    ensures TrimStart(x + q) == TrimStart(x) + q
  {
    var lx := LeadingCount(x);
    LeadingCountBeforeSuffix(x, q);
    calc {
      TrimStart(x + q);
      (x + q)[lx..];
      { SuffixOfAppend(x, q, lx); }
      x[lx..] + q;
    }
  }

  lemma SuffixOfAppend(x: string, q: string, k: int)
    requires 0 <= k <= |x|
    ensures (x + q)[k..] == x[k..] + q
  {
  }

  lemma TrimStartOfBlank(x: string, q: string)
    requires LeadingCount(x) == |x|
    requires AllWhitespace(q)
    ensures TrimStart(x + q) == []
  {
    assert AllWhitespace(x);
    LeadingCountAfterWhitespace(x, q);
    LeadingCountOfWhitespace(q);
  }

  /** Trimming ignores white space added on either side. */
  lemma TrimIgnoresPadding(p: string, x: string, q: string)
    requires AllWhitespace(p) && AllWhitespace(q)
    ensures Trim(p + x + q) == Trim(x)
  {
    assert p + x + q == p + (x + q);
    TrimStartAfterWhitespace(p, x + q);
    if LeadingCount(x) < |x| {
      TrimStartBeforeSuffix(x, q);
      TrimEndBeforeWhitespace(TrimStart(x), q);
    } else {
      TrimStartOfBlank(x, q);
    }
  }

  lemma TrimOfTrimmed(r: string)
    requires |r| > 0 ==> !IsWhitespace(r[0]) && !IsWhitespace(r[|r| - 1])
    ensures Trim(r) == r
  {
    assert LeadingCount(r) == 0;
    assert TrimStart(r) == r;
    assert TrailingCount(r) == 0;
  }

  lemma LowerIdempotent(s: string)
    ensures Lower(Lower(s)) == Lower(s)
  {
  }

  lemma LowerOfSlice(s: string, a: int, b: int)
    requires 0 <= a <= b <= |s|
    ensures Lower(s[a..b]) == Lower(s)[a..b]
  {
  }

  /** Normalising an already normalised name changes nothing. */
  lemma NormalizeIdempotent(s: string)
    ensures Normalize(Normalize(s)) == Normalize(s)
  {
    var l := Lower(s);
    var r := Trim(l);
    var a, b :| SliceWithin(l, r, a, b);
    LowerOfSlice(l, a, b);
    LowerIdempotent(s);
    assert Lower(r) == r;
    TrimOfTrimmed(r);
  }

  /** Names that differ only in the case of their letters and in the white
      space around them have the same lookup key. */
  lemma NormalizeIgnoresCaseAndPadding(s: string, t: string, p: string, q: string)
    requires SameUpToCase(s, t)
    requires AllWhitespace(p) && AllWhitespace(q)
    ensures Normalize(p + s + q) == Normalize(t)
  {
    LowerAppend(p + s, q);
    LowerAppend(p, s);
    LowerKeepsWhitespace(p);
    LowerKeepsWhitespace(q);
    assert Lower(s) == Lower(t);
    TrimIgnoresPadding(p, Lower(s), q);
  }
}
