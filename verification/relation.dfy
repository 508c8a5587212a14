/** The relation rewrite inside `join` (index.js:628-633): the first match of
    /([\w\.]+)([\W\s]+)(.+)/ is found with the backtracking order of
    ECMAScript regular expressions, and its first and third groups are
    protected. */
module Relation {
  import opened Text

  predicate WordDot(c: char) {
    IsWordChar(c) || c == '.'
  }

  /** Groups s[i..e1], s[e1..e2] and s[e2..e3] match `[\w\.]+`, `[\W\s]+`
      and `.+`. (`[\W\s]` is every non-word character, since `\s` is inside `\W`.) */
  predicate IsMatch(s: string, i: int, e1: int, e2: int, e3: int) {
    0 <= i < e1 < e2 < e3 <= |s|
    && (forall j :: i <= j < e1 ==> WordDot(s[j]))
    && (forall j :: e1 <= j < e2 ==> !IsWordChar(s[j]))
    && (forall j :: e2 <= j < e3 ==> !IsLineTerminator(s[j]))
  }

  datatype Found = NoMatch | Match(i: nat, e1: nat, e2: nat, e3: nat)

  /** End of the longest run of `[\w\.]` from `i`. */
  function WordDotEnd(s: string, i: nat): (e: nat)
    requires i <= |s|
    ensures i <= e <= |s|
    ensures forall j :: i <= j < e ==> WordDot(s[j])
    ensures e < |s| ==> !WordDot(s[e])
    decreases |s| - i
  {
    if i < |s| && WordDot(s[i]) then WordDotEnd(s, i + 1) else i
  }

  /** End of the longest run of non-word characters from `i`. */
  function NonWordEnd(s: string, i: nat): (e: nat)
    requires i <= |s|
    ensures i <= e <= |s|
    ensures forall j :: i <= j < e ==> !IsWordChar(s[j])
    ensures e < |s| ==> IsWordChar(s[e])
    decreases |s| - i
  {
    if i < |s| && !IsWordChar(s[i]) then NonWordEnd(s, i + 1) else i
  }

  /** End of the longest run without a line terminator from `i` (what a
      greedy `.+` consumes). */
  function LineEnd(s: string, i: nat): (e: nat)
    requires i <= |s|
    ensures i <= e <= |s|
    ensures forall j :: i <= j < e ==> !IsLineTerminator(s[j])
    ensures e < |s| ==> IsLineTerminator(s[e])
    decreases |s| - i
  {
    if i < |s| && !IsLineTerminator(s[i]) then LineEnd(s, i + 1) else i
  }

  /** Group 2 ends at `e2`, tried from `hi` down to `e1 + 1`: the first end
      after which `.+` can match at all. */
  function SecondGroup(s: string, e1: nat, hi: nat): (r: Found)
    requires e1 <= hi <= |s|
    ensures r.NoMatch? <==> forall e2 :: e1 < e2 <= hi ==> !(e2 < |s| && !IsLineTerminator(s[e2]))
    ensures r.Match? ==> r.e1 == e1 && e1 < r.e2 <= hi && r.e2 < |s| && !IsLineTerminator(s[r.e2]) && r.e3 == LineEnd(s, r.e2)
    ensures r.Match? ==> forall e2 :: r.e2 < e2 <= hi ==> !(e2 < |s| && !IsLineTerminator(s[e2]))
    decreases hi
  {
    if hi <= e1 then NoMatch
    else if hi < |s| && !IsLineTerminator(s[hi]) then Match(0, e1, hi, LineEnd(s, hi))
    else SecondGroup(s, e1, hi - 1)
  }

  /** Whether a match can start at `i` with group 1 ending at `e1`. */
  predicate GoodFirst(s: string, e1: nat)
    requires e1 <= |s|
  {
    SecondGroup(s, e1, NonWordEnd(s, e1)).Match?
  }

  /** Group 1 ends at `e1`, tried from `hi` down to `i + 1`. */
  function FirstGroup(s: string, i: nat, hi: nat): (r: Found)
    requires i <= hi <= |s|
    ensures r.NoMatch? <==> forall e1 :: i < e1 <= hi ==> !GoodFirst(s, e1)
    ensures r.Match? ==> i < r.e1 <= hi && GoodFirst(s, r.e1) && r == SecondGroup(s, r.e1, NonWordEnd(s, r.e1)).(i := i)
    ensures r.Match? ==> forall e1 :: r.e1 < e1 <= hi ==> !GoodFirst(s, e1)
    decreases hi
  {
    if hi <= i then NoMatch
    else
      var m := SecondGroup(s, hi, NonWordEnd(s, hi));
      if m.Match? then
        assert GoodFirst(s, hi);
        m.(i := i)
      else
        assert !GoodFirst(s, hi);
        FirstGroup(s, i, hi - 1)
  }

  /** `s.match(re)`: the leftmost start position at which the match succeeds. */
  function Search(s: string, from: nat): (r: Found)
    requires from <= |s|
    ensures r.Match? ==> from <= r.i && IsMatch(s, r.i, r.e1, r.e2, r.e3)
    ensures r.Match? ==> r == FirstGroup(s, r.i, WordDotEnd(s, r.i))
    ensures forall i :: from <= i < (if r.Match? then r.i else |s|) ==> NoCandidate(s, i)
    decreases |s| - from
  {
    if from == |s| then NoMatch
    else
      var m := FirstGroup(s, from, WordDotEnd(s, from));
      if m.Match? then
        CandidateMatches(s, from);
        m
      else Search(s, from + 1)
  }

  /** A candidate found at `i` is a match starting at `i`. */
  lemma CandidateMatches(s: string, i: nat)
    requires i <= |s| && FirstGroup(s, i, WordDotEnd(s, i)).Match?
    ensures var m := FirstGroup(s, i, WordDotEnd(s, i)); m.i == i && IsMatch(s, i, m.e1, m.e2, m.e3)
  {
    var m := FirstGroup(s, i, WordDotEnd(s, i));
    assert forall j :: i <= j < m.e1 ==> WordDot(s[j]);
  }

  /** No group 1 candidate starting at `i` leads to a match. */
  predicate NoCandidate(s: string, i: nat)
    requires i <= |s|
  {
    FirstGroup(s, i, WordDotEnd(s, i)).NoMatch?
  }

  function FindRelation(s: string): Found {
    Search(s, 0)
  }

  /** When no candidate survives at `i`, no match starts at `i`. */
  lemma NoCandidateNoMatch(s: string, i: nat)
    requires i <= |s| && NoCandidate(s, i)
    ensures forall e1, e2, e3 :: !IsMatch(s, i, e1, e2, e3)
  {
    forall e1, e2, e3 | IsMatch(s, i, e1, e2, e3) ensures false {
      RunBounds(s, i, e1, e2, e3);
    }
  }

  /** The groups of a match lie within the greedy runs the search starts from. */
  lemma RunBounds(s: string, i: nat, e1: nat, e2: nat, e3: nat)
    requires IsMatch(s, i, e1, e2, e3)
    ensures e1 <= WordDotEnd(s, i) && e2 <= NonWordEnd(s, e1) && GoodFirst(s, e1)
  {
    assert e2 < |s| && !IsLineTerminator(s[e2]);
  }

  /** The search is complete: it finds nothing exactly when no substring
      matches, and what it finds starts as far left as possible. */
  lemma FindRelationLeftmost(s: string)
    ensures FindRelation(s).NoMatch? <==> forall i, e1, e2, e3 :: !IsMatch(s, i, e1, e2, e3)
    ensures FindRelation(s).Match? ==> forall i, e1, e2, e3 :: i < FindRelation(s).i ==> !IsMatch(s, i, e1, e2, e3)
  {
    var r := FindRelation(s);
    var stop := if r.Match? then r.i else |s|;
    forall i, e1, e2, e3 | i < stop && IsMatch(s, i, e1, e2, e3) ensures false {
      NoCandidateNoMatch(s, i);
    }
  }

  /** Characters the search cannot start a match on are skipped. */
  lemma SearchSkips(s: string, from: nat, target: nat)
    requires from <= target <= |s|
    requires forall j :: from <= j < target ==> !WordDot(s[j])
    ensures Search(s, from) == Search(s, target)
    decreases target - from
  {
    if from < target {
      SearchSkips(s, from + 1, target);
      SearchStepTo(s, from, target);
    } else {
      assert from == target;
    }
  }

  /** The step of `SearchSkips`, stated so that its conclusion is the goal. */
  lemma SearchStepTo(s: string, from: nat, target: nat)
    requires from < target <= |s| && !WordDot(s[from])
    requires Search(s, from + 1) == Search(s, target)
    ensures Search(s, from) == Search(s, target)
  {
    SearchStep(s, from);
  }

  /** A character outside `[\w\.]` cannot start a match. */
  lemma SearchStep(s: string, from: nat)
    requires from < |s| && !WordDot(s[from])
    ensures Search(s, from) == Search(s, from + 1)
  {
    assert WordDotEnd(s, from) == from;
    assert FirstGroup(s, from, from) == NoMatch;
  }

  lemma WordDotEndIs(s: string, a: nat, b: nat)
    requires a <= b <= |s| && (forall j :: a <= j < b ==> WordDot(s[j])) && (b < |s| ==> !WordDot(s[b]))
    ensures WordDotEnd(s, a) == b
  {
  }

  lemma NonWordEndIs(s: string, a: nat, b: nat)
    requires a <= b <= |s| && (forall j :: a <= j < b ==> !IsWordChar(s[j])) && (b < |s| ==> IsWordChar(s[b]))
    ensures NonWordEnd(s, a) == b
  {
  }

  lemma LineEndIs(s: string, a: nat)
    requires a <= |s| && forall j :: a <= j < |s| ==> !IsLineTerminator(s[j])
    ensures LineEnd(s, a) == |s|
  {
  }

  /** A relation `x op y` after text the search cannot start on: group 1 is
      the dotted name `x`, group 2 the operator run, group 3 the rest of
      the line, and the leading text is not part of the match. */
  lemma RelationGroups(p: string, x: string, op: string, y: string)
    requires forall j :: 0 <= j < |p| ==> !WordDot(p[j])
    requires |x| > 0 && forall j :: 0 <= j < |x| ==> WordDot(x[j])
    requires |op| > 0 && forall j :: 0 <= j < |op| ==> !WordDot(op[j])
    requires |y| > 0 && IsWordChar(y[0]) && forall j :: 0 <= j < |y| ==> !IsLineTerminator(y[j])
    ensures var s := p + x + op + y;
      FindRelation(s) == Match(|p|, |p| + |x|, |p| + |x| + |op|, |s|)
  {
    var s := p + x + op + y;
    var a, b, c := |p|, |p| + |x|, |p| + |x| + |op|;
    Ranges(p, x, op, y);
    SearchSkips(s, 0, a);
    RunEnds(s, a, b, c);
    SearchAtRuns(s, a, b, c);
  }

  lemma Ranges(p: string, x: string, op: string, y: string)
    requires forall j :: 0 <= j < |p| ==> !WordDot(p[j])
    requires |x| > 0 && forall j :: 0 <= j < |x| ==> WordDot(x[j])
    requires |op| > 0 && forall j :: 0 <= j < |op| ==> !WordDot(op[j])
    requires |y| > 0 && IsWordChar(y[0]) && forall j :: 0 <= j < |y| ==> !IsLineTerminator(y[j])
    ensures var s := p + x + op + y; var a, b, c := |p|, |p| + |x|, |p| + |x| + |op|;
      && (forall j :: 0 <= j < a ==> !WordDot(s[j]))
      && (forall j :: a <= j < b ==> WordDot(s[j]))
      && (forall j :: b <= j < c ==> !WordDot(s[j]))
      && (forall j :: c <= j < |s| ==> !IsLineTerminator(s[j]))
      && IsWordChar(s[c])
  {
    var s := p + x + op + y;
    var a, b, c := |p|, |p| + |x|, |p| + |x| + |op|;
    QuadSlices(p, x, op, y);
    forall j | 0 <= j < a ensures !WordDot(s[j]) { assert s[j] == s[..a][j]; }
    forall j | a <= j < b ensures WordDot(s[j]) { assert s[j] == s[a..b][j - a]; }
    forall j | b <= j < c ensures !WordDot(s[j]) { assert s[j] == s[b..c][j - b]; }
    forall j | c <= j < |s| ensures !IsLineTerminator(s[j]) { assert s[j] == s[c..][j - c]; }
    assert s[c] == s[c..][0];
  }

  lemma RunEnds(s: string, a: nat, b: nat, c: nat)
    requires a < b < c < |s|
    requires forall j :: a <= j < b ==> WordDot(s[j])
    requires forall j :: b <= j < c ==> !WordDot(s[j])
    requires forall j :: c <= j < |s| ==> !IsLineTerminator(s[j])
    requires IsWordChar(s[c])
    ensures WordDotEnd(s, a) == b && NonWordEnd(s, b) == c && LineEnd(s, c) == |s|
  {
    WordDotEndIs(s, a, b);
    NonWordEndIs(s, b, c);
    LineEndIs(s, c);
  }

  lemma SearchAtRuns(s: string, a: nat, b: nat, c: nat)
    requires a < b < c < |s| && Search(s, 0) == Search(s, a)
    requires WordDotEnd(s, a) == b && NonWordEnd(s, b) == c && LineEnd(s, c) == |s|
    requires !IsLineTerminator(s[c])
    ensures FindRelation(s) == Match(a, b, c, |s|)
  {
    assert SecondGroup(s, b, c) == Match(0, b, c, |s|);
  }

  lemma QuadSlices(p: string, x: string, op: string, y: string)
    ensures var s := p + x + op + y; var a, b, c := |p|, |p| + |x|, |p| + |x| + |op|;
      s[..a] == p && s[a..b] == x && s[b..c] == op && s[c..] == y
  {
  }
}
