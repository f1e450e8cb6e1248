/**
 * The global-replace engine behind every `str.replace(/.../g, ...)` of the site's code.
 *
 * A `Matcher` encodes one regular expression: given the text that remains from the
 * current position, it either reports a match that starts right there (how many
 * characters it covers and what the callback or replacement string turns them into)
 * or none. `Scan` then does what a global `replace` does: it tries the pattern at
 * each position from left to right, substitutes each match and resumes right after
 * it, and copies every character no match covers.
 */
module Scanner {
  import opened Wrappers
  import opened Text

  datatype Hit = Hit(len: nat, replacement: string)

  type Matcher = string -> Option<Hit>

  /** Every match covers at least one character and stays inside the text
      (none of the site's patterns can match the empty string) */
  ghost predicate Advances(m: Matcher) {
    forall t: string :: m(t).Some? ==> 0 < m(t).value.len <= |t|
  }

  /** Global replacement of the matches of `m` in `s` */
  function Scan(m: Matcher, s: string): (r: string)
    requires Advances(m)
    decreases |s|
  {
    if s == [] then []
    else match m(s)
      case Some(h) => h.replacement + Scan(m, s[h.len..])
      case None => [s[0]] + Scan(m, s[1..])
  }

  /** Where the pattern matches nowhere, the text comes back unchanged */
  lemma {:induction false} ScanPlain(m: Matcher, s: string)
    requires Advances(m)
    requires forall k :: 0 <= k < |s| ==> m(s[k..]).None?
    ensures Scan(m, s) == s
    decreases |s|
  {
    if s != [] {
      assert s[0..] == s;
      forall k | 0 <= k < |s[1..]|
        ensures m(s[1..][k..]).None?
      {
        assert s[1..][k..] == s[k + 1..];
      }
      ScanPlain(m, s[1..]);
    }
  }

  /** Text before the first match is copied unchanged, in order */
  lemma {:induction false} ScanPlainPrefix(m: Matcher, a: string, b: string)
    requires Advances(m)
    requires forall k :: 0 <= k < |a| ==> m(a[k..] + b).None?
    ensures Scan(m, a + b) == a + Scan(m, b)
    decreases |a|
  {
    if a != [] {
      assert (a + b)[0..] == a[0..] + b;
      assert a[0..] == a;
      assert (a + b)[1..] == a[1..] + b;
      forall k | 0 <= k < |a[1..]|
        ensures m(a[1..][k..] + b).None?
      {
        assert a[1..][k..] == a[k + 1..];
      }
      ScanPlainPrefix(m, a[1..], b);
    }
  }

  /** A match at the front is replaced and scanning resumes right after it */
  lemma ScanHitPrefix(m: Matcher, a: string, b: string, r: string)
    requires Advances(m)
    requires m(a + b) == Some(Hit(|a|, r))
    ensures Scan(m, a + b) == r + Scan(m, b)
  {
    assert (a + b)[|a|..] == b;
  }

  /** A pattern that is a fixed string: it matches where `p` occurs */
  function LiteralAt(p: string, r: string, t: string): (h: Option<Hit>)
    ensures h.Some? <==> StartsWith(t, p)
    ensures h.Some? ==> h.value == Hit(|p|, r)
  {
    if StartsWith(t, p) then Some(Hit(|p|, r)) else None
  }

  lemma LiteralAdvances(p: string, r: string)
    requires p != []
    ensures Advances(t => LiteralAt(p, r, t))
  {
  }

  /** `s.replace(/p/g, r)` for a pattern without special characters */
  function ReplaceAll(s: string, p: string, r: string): string
    requires p != []
  {
    LiteralAdvances(p, r);
    Scan(t => LiteralAt(p, r, t), s)
  }

  /** Where `p` does not occur, nothing is replaced */
  lemma ReplaceAllAbsent(s: string, p: string, r: string)
    requires p != [] && !Contains(s, p)
    ensures ReplaceAll(s, p, r) == s
  {
    LiteralAdvances(p, r);
    var m := t => LiteralAt(p, r, t);
    forall k | 0 <= k < |s| ensures m(s[k..]).None? {
      assert !OccursAt(s, k, p);
      if k + |p| <= |s| {
        assert s[k..][..|p|] == s[k..k + |p|];
      }
    }
    ScanPlain(m, s);
  }

  /** An occurrence at the front is replaced and the rest is processed on its own */
  lemma ReplaceAllLeading(p: string, b: string, r: string)
    requires p != []
    ensures ReplaceAll(p + b, p, r) == r + ReplaceAll(b, p, r)
  {
    LiteralAdvances(p, r);
    assert (p + b)[..|p|] == p;
    ScanHitPrefix(t => LiteralAt(p, r, t), p, b, r);
  }

  /** Where no occurrence starts at the front, the first character is kept as it is */
  lemma ReplaceAllSkips(s: string, p: string, r: string)
    requires p != [] && s != [] && !StartsWith(s, p)
    ensures ReplaceAll(s, p, r) == [s[0]] + ReplaceAll(s[1..], p, r)
  {
    LiteralAdvances(p, r);
  }
}
