/** Hand-written classifiers for the regular expressions the parsers use.
    Case-insensitive matching folds ASCII and Cyrillic capitals (Text.LowerChar);
    `\s` is Text.IsSpace and `\d` an ASCII digit. */
module Patterns {
  import opened Text

  /** `lit` occurs at position i of s, ignoring case (the IGNORECASE flag). */
  predicate LiteralAt(s: string, i: nat, lit: string) {
    i + |lit| <= |s| && forall k :: 0 <= k < |lit| ==> LowerChar(s[i + k]) == LowerChar(lit[k])
  }

  /** End of the run of whitespace starting at i (a greedy `\s*`). */
  function SkipSpaces(s: string, i: nat): (r: nat)
    requires i <= |s|
    ensures i <= r <= |s|
    ensures forall k :: i <= k < r ==> IsSpace(s[k])
    ensures r == |s| || !IsSpace(s[r])
    decreases |s| - i
  {
    if i < |s| && IsSpace(s[i]) then SkipSpaces(s, i + 1) else i
  }

  /** End of the run of digits starting at i (a greedy `\d*`). */
  function SkipDigits(s: string, i: nat): (r: nat)
    requires i <= |s|
    ensures i <= r <= |s|
    ensures forall k :: i <= k < r ==> IsDigit(s[k])
    ensures r == |s| || !IsDigit(s[r])
    decreases |s| - i
  {
    if i < |s| && IsDigit(s[i]) then SkipDigits(s, i + 1) else i
  }

  /** End of the run of word characters starting at i (a greedy `\w*`). */
  function SkipWord(s: string, i: nat): (r: nat)
    requires i <= |s|
    ensures i <= r <= |s|
    ensures forall k :: i <= k < r ==> IsWordChar(s[k])
    ensures r == |s| || !IsWordChar(s[r])
    decreases |s| - i
  {
    if i < |s| && IsWordChar(s[i]) then SkipWord(s, i + 1) else i
  }

  /** Where a match of `LIT\s*\d+\s*:` (ignoring case) that starts at i ends, if
      one does. The three runs are disjoint character classes, so the greedy
      match is the only one. */
  function MarkerEnd(s: string, i: nat, lit: string): (r: Option<nat>)
    requires i <= |s|
    ensures r.Some? ==> i + |lit| < r.value <= |s| && s[r.value - 1] == ':'
  {
    if !LiteralAt(s, i, lit) then None
    else
      var a := SkipSpaces(s, i + |lit|);
      var b := SkipDigits(s, a);
      if b == a then None
      else
        var c := SkipSpaces(s, b);
        if c < |s| && s[c] == ':' then Some(c + 1) else None
  }

  /** re.split on the marker, scanning from i; the current piece began at start. */
  function SplitFrom(s: string, lit: string, start: nat, i: nat): (r: seq<string>)
    requires start <= i <= |s|
    ensures |r| >= 1
    decreases |s| - i
  {
    if i == |s| then [s[start..]]
    else match MarkerEnd(s, i, lit)
      case Some(e) => [s[start..i]] + SplitFrom(s, lit, e, e)
      case None => SplitFrom(s, lit, start, i + 1)
  }

  /** Python's `re.split(r'LIT\s*\d+\s*:', s, flags=re.IGNORECASE)`: the pieces
      between leftmost non-overlapping marker matches. */
  function SplitOnMarker(s: string, lit: string): (r: seq<string>)
    ensures |r| >= 1
  {
    SplitFrom(s, lit, 0, 0)
  }

  /** The value of `^LIT\s*:\s*(.+)` (ignoring case) on a line, stripped.
      The match needs at least one character after the colon; the captured
      group, once stripped, is the stripped text after the colon. */
  function FieldValue(line: string, lit: string): (r: Option<string>)
    ensures r.Some? ==> LiteralAt(line, 0, lit)
    ensures r.Some? ==> r.value == [] || !IsSpace(r.value[0])
    ensures r.Some? ==> |line| > |lit| + 1
    ensures r.Some? && !IsSpace(line[|line| - 1]) ==> r.value != []
  {
    if !LiteralAt(line, 0, lit) then None
    else
      var j := SkipSpaces(line, |lit|);
      if j + 1 < |line| && line[j] == ':' then
        assert line[j + 1..][|line| - j - 2] == line[|line| - 1];
        Some(Strip(line[j + 1..]))
      else None
  }

  /** The value of `^(?:L1|L2|...)\s*:\s*(.+)`: alternatives are tried in order. */
  function FieldValueAny(line: string, labels: seq<string>): (r: Option<string>)
    ensures r.Some? ==> exists k :: 0 <= k < |labels| && FieldValue(line, labels[k]) == r
    ensures r.None? ==> forall k :: 0 <= k < |labels| ==> FieldValue(line, labels[k]).None?
  {
    if labels == [] then None
    else match FieldValue(line, labels[0])
      case Some(v) => Some(v)
      case None =>
        var r := FieldValueAny(line, labels[1..]);
        assert forall k :: 1 <= k < |labels| ==> labels[1..][k - 1] == labels[k];
        r
  }

  /** A lazy `.*?` in front of a sub-pattern: the first position from k (below n)
      at which the sub-pattern matches. */
  function FirstWhere(found: nat -> bool, k: nat, n: nat): (r: Option<nat>)
    requires k <= n
    ensures r.Some? ==> k <= r.value < n && found(r.value)
    decreases n - k
  {
    if k == n then None
    else if found(k) then Some(k)
    else FirstWhere(found, k + 1, n)
  }

  /** Nothing matches before the position FirstWhere returns. */
  lemma {:induction false} FirstWhereIsFirst(found: nat -> bool, k: nat, n: nat, p: nat)
    requires k <= p < n
    requires FirstWhere(found, k, n).None? || p < FirstWhere(found, k, n).value
    ensures !found(p)
    decreases n - k
  {
    if p > k {
      FirstWhereIsFirst(found, k + 1, n, p);
    }
  }
}
