/**
 * Character classes and string operations shared by the transforms: the pieces of
 * JavaScript's string API and regular-expression syntax that the site's code uses,
 * written out for the specific cases it needs.
 */
module Text {
  import opened Wrappers

  /** A string that JavaScript treats as true: present and non-empty */
  predicate Truthy(s: Option<string>) {
    s.Some? && s.value != []
  }

  /** `s || d` on an optional string: an absent or empty string gives the default */
  function OrElse(s: Option<string>, d: string): string {
    if Truthy(s) then s.value else d
  }

  /** ASCII lower-casing. With an ASCII-only pattern this is exactly the case folding
      of JavaScript's `i` flag (without `u`): no non-ASCII character folds onto ASCII. */
  function Lower(c: char): char {
    if 'A' <= c <= 'Z' then (c as int + 32) as char else c
  }

  /** JavaScript's `\s`, also the set `String.prototype.trim` removes
      (WhiteSpace and LineTerminator code points) */
  predicate IsSpace(c: char) {
    || c == ' ' || c == '\t' || c == '\n' || c == '\r' || c == '\U{B}' || c == '\U{C}'
    || c == '\U{A0}' || c == '\U{1680}' || ('\U{2000}' <= c <= '\U{200A}')
    || c == '\U{2028}' || c == '\U{2029}' || c == '\U{202F}' || c == '\U{205F}'
    || c == '\U{3000}' || c == '\U{FEFF}'
  }

  /** JavaScript's `\w` */
  predicate IsWordChar(c: char) {
    ('a' <= c <= 'z') || ('A' <= c <= 'Z') || ('0' <= c <= '9') || c == '_'
  }

  /** JavaScript's `\d` */
  predicate IsDigit(c: char) {
    '0' <= c <= '9'
  }

  /** The class `["']` */
  predicate IsQuote(c: char) {
    c == '"' || c == '\''
  }

  predicate IsLowerLetter(c: char) {
    'a' <= c <= 'z'
  }

  /** `p` occurs in `t` at index `i`, exactly */
  predicate OccursAt(t: string, i: nat, p: string) {
    i + |p| <= |t| && t[i..i + |p|] == p
  }

  /** `p` occurs in `t` at index `i`, ignoring ASCII case */
  predicate MatchesCI(t: string, i: nat, p: string) {
    i + |p| <= |t| && forall k :: 0 <= k < |p| ==> Lower(t[i + k]) == Lower(p[k])
  }

  /** Where the pattern has a character that is not a letter, a case-insensitive match
      holds exactly that character */
  lemma MatchesCIChar(t: string, i: nat, p: string, k: nat)
    requires MatchesCI(t, i, p) && k < |p|
    requires !('A' <= p[k] <= 'Z') && !('a' <= p[k] <= 'z')
    ensures t[i + k] == p[k]
  {
    assert Lower(t[i + k]) == Lower(p[k]);
  }

  /** The same as `MatchesCIChar`, stated for any text: a match fixes every character */
  lemma MatchesCIImplies(t: string, i: nat, p: string, k: nat)
    requires k < |p|
    ensures MatchesCI(t, i, p) ==> Lower(t[i + k]) == Lower(p[k])
  {
  }

  /** A case-insensitive match depends only on the characters it covers */
  lemma MatchesCISlice(t: string, i: nat, p: string)
    requires i + |p| <= |t|
    ensures MatchesCI(t, i, p) <==> MatchesCI(t[i..i + |p|], 0, p)
  {
    var s := t[i..i + |p|];
    assert forall k :: 0 <= k < |p| ==> s[k] == t[i + k];
  }

  /** Lower-casing only merges a letter with its capital */
  lemma LowerNonLetter(c: char, d: char)
    requires !('A' <= d <= 'Z') && !('a' <= d <= 'z')
    ensures Lower(c) == Lower(d) ==> c == d
  {
  }

  predicate StartsWith(t: string, p: string) {
    OccursAt(t, 0, p)
  }

  predicate EndsWith(t: string, p: string) {
    |p| <= |t| && t[|t| - |p|..] == p
  }

  /** The end of the run of characters satisfying `inRun` that starts at `i`:
      the greedy `[...]*` of a regular expression */
  function Skip(t: string, i: nat, inRun: char -> bool): (j: nat)
    requires i <= |t|
    ensures i <= j <= |t|
    ensures forall k :: i <= k < j ==> inRun(t[k])
    ensures j < |t| ==> !inRun(t[j])
    decreases |t| - i
  {
    if i == |t| || !inRun(t[i]) then i else Skip(t, i + 1, inRun)
  }

  /** A run is determined by where it stops */
  lemma SkipIs(t: string, i: nat, inRun: char -> bool, j: nat)
    requires i <= j <= |t|
    requires forall k :: i <= k < j ==> inRun(t[k])
    requires j == |t| || !inRun(t[j])
    ensures Skip(t, i, inRun) == j
  {
  }

  /** The first index at or after `i` holding `c` */
  function FindChar(t: string, c: char, i: nat): (r: Option<nat>)
    ensures r.Some? ==> i <= r.value < |t| && t[r.value] == c
    ensures r.Some? ==> forall k :: i <= k < r.value ==> t[k] != c
    ensures r.None? ==> forall k :: i <= k < |t| ==> t[k] != c
    decreases |t| - i
  {
    if i >= |t| then None
    else if t[i] == c then Some(i)
    else FindChar(t, c, i + 1)
  }

  /** The first `c` is where the text says it is */
  lemma FindCharIs(t: string, c: char, i: nat, k: nat)
    requires i <= k < |t| && t[k] == c
    requires forall j :: i <= j < k ==> t[j] != c
    ensures FindChar(t, c, i) == Some(k)
    decreases k - i
  {
  }

  /** The first index at or after `i` where `p` occurs, ignoring ASCII case */
  function FindCI(t: string, p: string, i: nat): (r: Option<nat>)
    ensures r.Some? ==> i <= r.value && MatchesCI(t, r.value, p)
    ensures r.Some? ==> forall k :: i <= k < r.value ==> !MatchesCI(t, k, p)
    ensures r.None? ==> forall k :: i <= k ==> !MatchesCI(t, k, p)
    decreases |t| - i
  {
    if i + |p| > |t| then None
    else if MatchesCI(t, i, p) then Some(i)
    else FindCI(t, p, i + 1)
  }

  /** The first index at or after `i` where `p` occurs */
  function Find(t: string, p: string, i: nat): (r: Option<nat>)
    ensures r.Some? ==> i <= r.value && OccursAt(t, r.value, p)
    ensures r.Some? ==> forall k :: i <= k < r.value ==> !OccursAt(t, k, p)
    ensures r.None? ==> forall k :: i <= k ==> !OccursAt(t, k, p)
    decreases |t| - i
  {
    if i + |p| > |t| then None
    else if OccursAt(t, i, p) then Some(i)
    else Find(t, p, i + 1)
  }

  /** `String.prototype.includes` */
  predicate Contains(t: string, p: string) {
    Find(t, p, 0).Some?
  }

  lemma ContainsAt(t: string, p: string, i: nat)
    requires OccursAt(t, i, p)
    ensures Contains(t, p)
  {
  }

  /** Concatenation regroups freely */
  lemma Associative<T>(x: seq<T>, y: seq<T>, z: seq<T>)
    ensures x + y + z == x + (y + z)
  {
  }

  /** `String.prototype.trim` */
  function Trim(s: string): (r: string)
    ensures r == [] || (!IsSpace(r[0]) && !IsSpace(r[|r| - 1]))
    ensures exists i, j ::
              && 0 <= i <= j <= |s| && r == s[i..j]
              && (forall k :: 0 <= k < i ==> IsSpace(s[k]))
              && (forall k :: j <= k < |s| ==> IsSpace(s[k]))
  {
    var i := Skip(s, 0, IsSpace);
    var j := TrimEnd(s, i, |s|);
    s[i..j]
  }

  /** The end of `s[i..j]` once trailing whitespace is dropped */
  function TrimEnd(s: string, i: nat, j: nat): (e: nat)
    requires i <= j <= |s|
    ensures i <= e <= j
    ensures forall k :: e <= k < j ==> IsSpace(s[k])
    ensures e > i ==> !IsSpace(s[e - 1])
    decreases j
  {
    if j == i || !IsSpace(s[j - 1]) then j else TrimEnd(s, i, j - 1)
  }

  /** Trimming only removes characters */
  lemma TrimKeeps(s: string, c: char)
    requires c !in s
    ensures c !in Trim(s)
  {
    var i := Skip(s, 0, IsSpace);
    var j := TrimEnd(s, i, |s|);
    assert Trim(s) == s[i..j];
    forall k | 0 <= k < j - i ensures s[i..j][k] != c {
      assert s[i..j][k] == s[i + k];
    }
  }

  /** A string without whitespace is its own trim */
  lemma TrimNoSpace(s: string)
    requires forall k :: 0 <= k < |s| ==> !IsSpace(s[k])
    ensures Trim(s) == s
  {
    assert Skip(s, 0, IsSpace) == 0;
    assert TrimEnd(s, 0, |s|) == |s|;
  }

  /** `String.prototype.split` with a one-character separator: every piece, empty ones included */
  function Split(s: string, c: char): (parts: seq<string>)
    ensures |parts| >= 1
    ensures forall k :: 0 <= k < |parts| ==> c !in parts[k]
    decreases |s|
  {
    match FindChar(s, c, 0)
    case None => [s]
    case Some(k) => [s[..k]] + Split(s[k + 1..], c)
  }

  /** `Array.prototype.join` with a one-character separator */
  function Join(parts: seq<string>, c: char): string
    requires |parts| >= 1
  {
    if |parts| == 1 then parts[0] else parts[0] + [c] + Join(parts[1..], c)
  }

  /** Splitting loses nothing: joining the pieces back gives the original string */
  lemma {:induction false} JoinSplit(s: string, c: char)
    ensures Join(Split(s, c), c) == s
    decreases |s|
  {
    match FindChar(s, c, 0)
    case None =>
      assert Split(s, c) == [s];
    case Some(k) =>
      JoinSplit(s[k + 1..], c);
      JoinSplitStep(s, c, k);
  }

  /** One separator: the first piece, the separator, then the rest joined back */
  lemma JoinSplitStep(s: string, c: char, k: nat)
    requires FindChar(s, c, 0) == Some(k)
    requires Join(Split(s[k + 1..], c), c) == s[k + 1..]
    ensures Join(Split(s, c), c) == s
  {
    SplitFirst(s, c, k);
    JoinFirst(s[..k], Split(s[k + 1..], c), c);
    assert s == s[..k] + [c] + s[k + 1..];
  }

  /** The first separator splits off the first piece */
  lemma SplitFirst(s: string, c: char, k: nat)
    requires FindChar(s, c, 0) == Some(k)
    ensures Split(s, c) == [s[..k]] + Split(s[k + 1..], c)
  {
  }

  lemma JoinFirst(p: string, rest: seq<string>, c: char)
    requires |rest| >= 1
    ensures Join([p] + rest, c) == p + [c] + Join(rest, c)
  {
    assert ([p] + rest)[1..] == rest;
  }

  /** Joining pieces free of the separator and splitting again gives the pieces back */
  lemma {:induction false} SplitJoin(parts: seq<string>, c: char)
    requires |parts| >= 1
    requires forall i :: 0 <= i < |parts| ==> c !in parts[i]
    ensures Split(Join(parts, c), c) == parts
    decreases |parts|
  {
    if |parts| == 1 {
      SplitNoSeparator(parts[0], c);
    } else {
      SplitJoin(parts[1..], c);
      assert parts == [parts[0]] + parts[1..];
      SplitJoinStep(parts[0], parts[1..], c);
    }
  }

  /** One more piece in front: its end is the first separator */
  lemma SplitJoinStep(p: string, rest: seq<string>, c: char)
    requires c !in p && |rest| >= 1
    requires Split(Join(rest, c), c) == rest
    ensures Split(Join([p] + rest, c), c) == [p] + rest
  {
    JoinFirst(p, rest, c);
    var s := p + [c] + Join(rest, c);
    assert forall k :: 0 <= k < |p| ==> s[k] == p[k];
    FindCharIs(s, c, 0, |p|);
    SplitFirst(s, c, |p|);
    assert s[..|p|] == p && s[|p| + 1..] == Join(rest, c);
  }

  /** Every piece of a split is made of characters of the string */
  lemma {:induction false} SplitPiecesWithin(s: string, c: char, inPiece: char -> bool)
    requires forall k :: 0 <= k < |s| ==> inPiece(s[k])
    ensures forall i, k :: 0 <= i < |Split(s, c)| && 0 <= k < |Split(s, c)[i]| ==> inPiece(Split(s, c)[i][k])
    decreases |s|
  {
    match FindChar(s, c, 0)
    case None =>
      assert Split(s, c) == [s];
    case Some(p) =>
      var tail := s[p + 1..];
      assert forall k :: 0 <= k < |tail| ==> inPiece(tail[k]) by {
        forall k | 0 <= k < |tail| ensures inPiece(tail[k]) { assert tail[k] == s[p + 1 + k]; }
      }
      SplitPiecesWithin(tail, c, inPiece);
      SplitFirst(s, c, p);
  }

  /** Splitting a string without the separator gives the string alone */
  lemma SplitNoSeparator(s: string, c: char)
    requires c !in s
    ensures Split(s, c) == [s]
  {
  }

  /** `String.prototype.replace` with a string pattern: only the first occurrence */
  function ReplaceFirst(s: string, p: string, r: string): (out: string)
  {
    match Find(s, p, 0)
    case None => s
    case Some(k) => s[..k] + r + s[k + |p|..]
  }

  function DigitChar(d: nat): (c: char)
    requires d < 10
    ensures IsDigit(c)
  {
    ('0' as int + d) as char
  }

  function DigitValue(c: char): nat
    requires IsDigit(c)
  {
    c as int - '0' as int
  }

  /** Decimal text of a natural number, as JavaScript prints an integral number */
  function NatToString(n: nat): (r: string)
    ensures |r| >= 1
    ensures forall k :: 0 <= k < |r| ==> IsDigit(r[k])
    ensures r[0] == '0' ==> n == 0
  {
    if n < 10 then [DigitChar(n)] else NatToString(n / 10) + [DigitChar(n % 10)]
  }

  /** Decimal text of an integer: a minus sign before the digits of a negative one */
  function IntToString(i: int): (r: string)
    ensures |r| >= 1
    ensures forall k :: 0 <= k < |r| ==> IsDigit(r[k]) || r[k] == '-'
  {
    if i < 0 then "-" + NatToString(-i) else NatToString(i)
  }

  /** The value of a string of decimal digits */
  function DecimalValue(s: string): nat
    requires forall k :: 0 <= k < |s| ==> IsDigit(s[k])
  {
    if s == [] then 0 else 10 * DecimalValue(s[..|s| - 1]) + DigitValue(s[|s| - 1])
  }

  /** Printing a number and reading the digits back gives the number */
  lemma {:induction false} DecimalOfNatToString(n: nat)
    ensures DecimalValue(NatToString(n)) == n
  {
    if n >= 10 {
      DecimalOfNatToString(n / 10);
      var s := NatToString(n);
      assert s[..|s| - 1] == NatToString(n / 10);
    }
  }
}
