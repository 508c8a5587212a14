/** What the identifier functions of index.js promise: the shape of
    `escapeIdentifiers`, an independent description of `hasOperator`, the
    alias forms `protectIdentifiers` recognises, and what `trackAliases`
    records. */
module IdentifierFacts {
  import opened Text
  import opened Values
  import opened Identifiers
  import opened Results

  /** A character that leaves an identifier plain: no whitespace, dot,
      backtick, parenthesis, single quote or comma. */
  predicate NameChar(c: char) {
    !IsSpace(c) && c != '.' && c != '`' && c != '(' && c != '\'' && c != ','
  }

  predicate PlainName(n: string) {
    forall i :: 0 <= i < |n| ==> NameChar(n[i])
  }

  // ---------------------------------------------------------------- helpers

  lemma {:induction false} ReplaceCharConcat(a: string, b: string, c: char, rep: string)
    ensures ReplaceChar(a + b, c, rep) == ReplaceChar(a, c, rep) + ReplaceChar(b, c, rep)
    decreases |a|
  {
    if |a| > 0 {
      assert (a + b)[1..] == a[1..] + b;
      ReplaceCharConcat(a[1..], b, c, rep);
    } else {
      assert a + b == b;
    }
  }

  lemma ReplaceStep(s: string, c: char, rep: string, i: int)
    requires 0 <= i < |s| && IndexOf(s, c) == i
    ensures ReplaceChar(s, c, rep) == s[..i] + (rep + ReplaceChar(s[i + 1..], c, rep))
  {
    assert s == s[..i] + ([c] + s[i + 1..]);
    ReplaceCharConcat(s[..i], [c] + s[i + 1..], c, rep);
    ReplaceCharConcat([c], s[i + 1..], c, rep);
    assert ReplaceChar([c], c, rep) == rep;
  }

  lemma JoinStep(head: string, rest: seq<string>, sep: string)
    requires |rest| >= 1
    ensures Join([head] + rest, sep) == head + (sep + Join(rest, sep))
  {
    assert ([head] + rest)[1..] == rest;
  }

  /** Replacing every `c` is joining the `c`-separated pieces with `rep`. */
  lemma {:induction false} ReplaceIsJoinSplit(s: string, c: char, rep: string)
    ensures ReplaceChar(s, c, rep) == Join(Split(s, c), rep)
    decreases |s|
  {
    var i := IndexOf(s, c);
    if i == -1 {
      assert Split(s, c) == [s];
    } else {
      var tail := s[i + 1..];
      assert Split(s, c) == [s[..i]] + Split(tail, c);
      ReplaceStep(s, c, rep, i);
      JoinStep(s[..i], Split(tail, c), rep);
      ReplaceIsJoinSplit(tail, c, rep);
    }
  }

  lemma {:induction false} CollapseIdentity(s: string)
    requires Collapsed(s)
    ensures CollapseSpaces(s) == s
    decreases |s|
  {
    if |s| > 0 {
      assert Collapsed(s[1..]) by {
        forall i | 0 <= i < |s[1..]| && IsSpace(s[1..][i])
          ensures s[1..][i] == ' ' && (i + 1 < |s[1..]| ==> !IsSpace(s[1..][i + 1]))
        {
          assert s[1..][i] == s[i + 1];
        }
      }
      CollapseIdentity(s[1..]);
      if IsSpace(s[0]) {
        assert LeadingSpaces(s) == 1 by {
          if |s| > 1 { assert !IsSpace(s[1]); assert LeadingSpaces(s[1..]) == 0; }
        }
      }
    }
  }

  lemma {:induction false} CollapseKeepsNonSpace(s: string, c: char)
    requires !IsSpace(c)
    ensures c in CollapseSpaces(s) <==> c in s
    decreases |s|
  {
    if |s| > 0 {
      if IsSpace(s[0]) {
        var k := LeadingSpaces(s);
        CollapseKeepsNonSpace(s[k..], c);
        assert c in s <==> c in s[k..] by {
          assert s == s[..k] + s[k..];
          assert c !in s[..k];
        }
      } else {
        CollapseKeepsNonSpace(s[1..], c);
        assert s == [s[0]] + s[1..];
      }
    }
  }

  lemma {:induction false} JoinStartsWithFirst(xs: seq<string>, sep: string)
    requires |xs| >= 1
    ensures |xs[0]| <= |Join(xs, sep)| && Join(xs, sep)[..|xs[0]|] == xs[0]
  {
    if |xs| > 1 {
      assert Join(xs, sep) == xs[0] + (sep + Join(xs[1..], sep));
    }
  }

  lemma PlainNameConcat(a: string, b: string)
    requires PlainName(a) && PlainName(b)
    ensures PlainName(a + b)
  {
    forall i | 0 <= i < |a + b| ensures NameChar((a + b)[i]) {
      if i < |a| { assert (a + b)[i] == a[i]; } else { assert (a + b)[i] == b[i - |a|]; }
    }
  }

  // ---------------------------------------------------------- escaping

  /** A name with no backticks that does not start with a dot gets each
      dot-separated segment wrapped: `a.b` becomes `a`.`b`. */
  lemma EscapeWrapsSegments(item: string)
    requires item != "" && item != "*" && '`' !in item && item[0] != '.'
    ensures EscapeIdentifiers(item) == "`" + Join(Split(item, '.'), "`.`") + "`"
  {
    var rep := ReplaceChar(item, '.', "`.`");
    ReplaceIsJoinSplit(item, '.', "`.`");
    ReplaceKeepsFirst(item, '.', "`.`");
    EscapeIsCollapse(item);
    CollapseOfOneTick(rep + "`");
    TickWrap(rep);
  }

  lemma ReplaceKeepsFirst(s: string, c: char, rep: string)
    requires |s| > 0 && s[0] != c
    ensures |ReplaceChar(s, c, rep)| > 0 && ReplaceChar(s, c, rep)[0] == s[0]
  {
  }

  lemma TickWrap(x: string)
    ensures "`" + (x + "`") == "`" + x + "`"
  {
  }

  lemma EscapeIsCollapse(item: string)
    requires item != "" && item != "*"
    ensures EscapeIdentifiers(item) == CollapseFirstTickRun("`" + (ReplaceChar(item, '.', "`.`") + "`"))
  {
  }

  /** A single leading backtick before anything else is left as it is. */
  lemma CollapseOfOneTick(body: string)
    requires |body| > 0 && body[0] != '`'
    ensures CollapseFirstTickRun("`" + body) == "`" + body
  {
    assert LeadingTicks(body) == 0;
    assert ("`" + body)[1..] == body;
    assert LeadingTicks("`" + body) == 1;
  }

  /** A plain name without dots is wrapped in one pair of backticks. */
  lemma EscapePlainName(item: string)
    requires item != "" && item != "*" && '`' !in item && '.' !in item
    ensures EscapeIdentifiers(item) == "`" + item + "`"
  {
    EscapeWrapsSegments(item);
  }

  /** Only the first run of backticks is collapsed, so escaping is not
      idempotent: an already quoted `do` gains a trailing backtick. */
  lemma EscapeNotIdempotent()
    ensures EscapeIdentifiers("do") == "`do`"
    ensures EscapeIdentifiers("`do`") == "`do``"
    ensures EscapeIdentifiers(EscapeIdentifiers("do")) != EscapeIdentifiers("do")
  {
    EscapePlainName("do");
    var body := ReplaceChar("`do`", '.', "`.`") + "`";
    assert body == "`do``";
    assert LeadingTicks("`do``") == 1 by {
      assert "`do``"[1..] == "do``";
      assert LeadingTicks("do``") == 0;
    }
    assert LeadingTicks("`" + body) == 2 by {
      assert ("`" + body)[1..] == body;
    }
    assert ("`" + body)[2..] == "do``";
  }

  // ---------------------------------------------------------- hasOperator

  /** Whitespace with a non-whitespace character on each side of it. */
  predicate InteriorSpace(s: string) {
    exists j :: 0 <= j < |s| && IsSpace(s[j]) && (exists i :: 0 <= i < j && !IsSpace(s[i])) && (exists k :: j < k < |s| && !IsSpace(s[k]))
  }

  predicate HasOperatorChar(s: string) {
    exists i :: 0 <= i < |s| && IsOperatorChar(s[i])
  }

  /** `hasOperator` without `trim`: an operator character anywhere, or a
      whitespace character between two non-whitespace ones. Non-strings
      always count as having an operator. */
  lemma HasOperatorIff(s: string)
    ensures HasOperator(s) <==> HasOperatorChar(s) || InteriorSpace(s)
    ensures HasOperatorValue(Str(s)) <==> HasOperator(s)
    ensures forall v: Value :: !v.Str? ==> HasOperatorValue(v)
  {
    var a, b := TrimBounds(s);
    if HasOperator(s) { HasOperatorSound(s, a, b); }
    if HasOperatorChar(s) || InteriorSpace(s) { HasOperatorComplete(s, a, b); }
  }

  /** `Trim(s)` is the slice `s[a..b]` with only whitespace outside it. */
  lemma TrimBounds(s: string) returns (a: nat, b: nat)
    ensures a <= b <= |s| && Trim(s) == s[a..b]
    ensures forall i :: 0 <= i < a ==> IsSpace(s[i])
    ensures forall i :: b <= i < |s| ==> IsSpace(s[i])
    ensures a < b ==> !IsSpace(s[a]) && !IsSpace(s[b - 1])
  {
    a := LeadingSpaces(s);
    var t0 := s[a..];
    b := a + EndOfText(t0);
    assert Trim(s) == t0[..EndOfText(t0)] == s[a..b];
    forall i | b <= i < |s| ensures IsSpace(s[i]) { assert s[i] == t0[i - a]; }
    if a < b { assert s[b - 1] == t0[b - 1 - a]; }
  }

  lemma HasOperatorSound(s: string, a: nat, b: nat)
    requires a <= b <= |s| && Trim(s) == s[a..b]
    requires a < b ==> !IsSpace(s[a]) && !IsSpace(s[b - 1])
    requires HasOperator(s)
    ensures HasOperatorChar(s) || InteriorSpace(s)
  {
    var t := s[a..b];
    var i :| 0 <= i < |t| && (IsOperatorChar(t[i]) || IsSpace(t[i]));
    assert t[i] == s[a + i];
    if !IsOperatorChar(t[i]) {
      assert a < a + i < b - 1;
      assert InteriorSpace(s);
    }
  }

  lemma HasOperatorComplete(s: string, a: nat, b: nat)
    requires a <= b <= |s| && Trim(s) == s[a..b]
    requires forall i :: 0 <= i < a ==> IsSpace(s[i])
    requires forall i :: b <= i < |s| ==> IsSpace(s[i])
    requires HasOperatorChar(s) || InteriorSpace(s)
    ensures HasOperator(s)
  {
    if HasOperatorChar(s) {
      var i :| 0 <= i < |s| && IsOperatorChar(s[i]);
      assert !IsSpace(s[i]);
      HasOperatorAt(s, a, b, i);
    } else {
      var j :| 0 <= j < |s| && IsSpace(s[j]) && (exists i :: 0 <= i < j && !IsSpace(s[i])) && (exists k :: j < k < |s| && !IsSpace(s[k]));
      var i :| 0 <= i < j && !IsSpace(s[i]);
      var k :| j < k < |s| && !IsSpace(s[k]);
      assert a <= i && k < b;
      HasOperatorAt(s, a, b, j);
    }
  }

  /** An operator character or a space inside the trimmed slice is seen. */
  lemma HasOperatorAt(s: string, a: nat, b: nat, j: nat)
    requires a <= j < b <= |s| && Trim(s) == s[a..b]
    requires IsOperatorChar(s[j]) || IsSpace(s[j])
    ensures HasOperator(s)
  {
    assert Trim(s)[j - a] == s[j];
  }

  // ---------------------------------------------------------- protectIdentifiers

  lemma PlainNoSpace(n: string)
    requires PlainName(n)
    ensures NoSpace(n) && '(' !in n && '\'' !in n && '.' !in n && '`' !in n && ',' !in n
  {
    assert forall i :: 0 <= i < |n| ==> NameChar(n[i]);
  }

  /** An item whose only whitespace is one ' ' at `j`. */
  lemma OneSpaceAt(s: string, j: nat)
    requires j < |s| && s[j] == ' '
    requires forall i :: 0 <= i < |s| && i != j ==> !IsSpace(s[i])
    ensures CollapseSpaces(s) == s && FirstAs(s) == -1 && IndexOf(s, ' ') == j
  {
    assert Collapsed(s);
    CollapseIdentity(s);
    assert ' ' !in s[..j] by {
      forall i | 0 <= i < j ensures s[..j][i] != ' ' { assert s[..j][i] == s[i]; }
    }
  }

  lemma SpacedPair(x: string, y: string)
    requires NoSpace(x) && NoSpace(y)
    ensures var s := x + " " + y;
      && s[|x|] == ' ' && (forall i :: 0 <= i < |s| && i != |x| ==> !IsSpace(s[i]))
      && s[..|x|] == x && s[|x| + 1..] == y && s[|x|..] == " " + y
  {
    var s := x + " " + y;
    forall i | 0 <= i < |s| && i != |x| ensures !IsSpace(s[i]) {
      if i < |x| { assert s[i] == x[i]; } else { assert s[i] == y[i - |x| - 1]; }
    }
  }

  /** Once the alias is split off, a plain base is escaped and the alias appended. */
  lemma ProtectWithBase(aliases: seq<string>, item: string, protect: bool, base: string, alias: string)
    requires SplitAlias(CollapseSpaces(item), protect) == (base, alias)
    requires SimpleBase(base)
    ensures ProtectIdentifiers(aliases, item, protect) == (if protect then EscapeIdentifiers(base) else base) + alias
  {
  }

  /** A base that takes the plain escaping path: no '(', quote or dot. */
  predicate SimpleBase(b: string) {
    '(' !in b && '\'' !in b && '.' !in b
  }

  lemma AsItemFacts(x: string, kw: string, y: string)
    requires PlainName(x) && PlainName(y)
    requires kw in {"as", "AS", "As", "aS"}
    ensures var s := x + " " + kw + " " + y;
      && CollapseSpaces(s) == s && AsAt(s, |x|) && s[..|x|] == x
      && s[|x|..|x| + 4] == " " + kw + " " && s[|x| + 4..] == y && s[|x|..] == " " + kw + " " + y
  {
    var s := x + " " + kw + " " + y;
    AsItemSpaces(x, kw, y, s);
    AsItemSlices(x, kw, y, s);
    assert Collapsed(s);
    CollapseIdentity(s);
  }

  lemma AsItemSpaces(x: string, kw: string, y: string, s: string)
    requires PlainName(x) && PlainName(y)
    requires kw in {"as", "AS", "As", "aS"}
    requires s == x + " " + kw + " " + y
    ensures |s| == |x| + 4 + |y| && s[|x|] == ' ' && s[|x| + 3] == ' '
    ensures AsAt(s, |x|)
    ensures forall i :: 0 <= i < |s| && i != |x| && i != |x| + 3 ==> !IsSpace(s[i])
  {
    var n := |x|;
    assert !IsSpace(s[n + 1]) && !IsSpace(s[n + 2]);
    forall i | 0 <= i < |s| && i != n && i != n + 3 ensures !IsSpace(s[i]) {
      if i < n { assert s[i] == x[i]; }
      else if n + 3 < i { assert s[i] == y[i - n - 4]; }
    }
  }

  lemma AsItemSlices(x: string, kw: string, y: string, s: string)
    requires |kw| == 2 && s == x + " " + kw + " " + y
    ensures s[..|x|] == x && s[|x|..|x| + 4] == " " + kw + " " && s[|x| + 4..] == y
    ensures s[|x|..] == " " + kw + " " + y
  {
  }

  lemma PlainNoAs(s: string, n: nat)
    requires n <= |s| && PlainName(s[..n])
    ensures forall i :: 0 <= i < n ==> !AsAt(s, i)
  {
    forall i | 0 <= i < n ensures !AsAt(s, i) { assert s[..n][i] == s[i]; }
  }

  /** `x as y` (any case of AS) renders as the escaped base, the original
      " as " text and the escaped alias; unprotected it is left alone. */
  lemma ProtectAsAlias(aliases: seq<string>, x: string, kw: string, y: string)
    requires PlainName(x) && PlainName(y)
    requires kw in {"as", "AS", "As", "aS"}
    ensures ProtectIdentifiers(aliases, x + " " + kw + " " + y, true)
            == EscapeIdentifiers(x) + " " + kw + " " + EscapeIdentifiers(y)
    ensures ProtectIdentifiers(aliases, x + " " + kw + " " + y, false) == x + " " + kw + " " + y
  {
    var s := x + " " + kw + " " + y;
    AsItemFacts(x, kw, y);
    var mid := " " + kw + " ";
    ProtectAtAs(aliases, s, |x|, true);
    ProtectAtAs(aliases, s, |x|, false);
    var ex, ey := EscapeIdentifiers(x), EscapeIdentifiers(y);
    ConcatAssoc(ex, " ", kw, " ", ey);
    SplitAt(s, |x|);
  }

  lemma ConcatAssoc(a: string, b: string, c: string, d: string, e: string)
    ensures a + b + c + d + e == a + (b + c + d + e)
  {
  }

  lemma SplitAt(s: string, n: nat)
    requires n <= |s|
    ensures s[..n] + s[n..] == s
  {
  }

  /** An item cut at its first `\sAS\s`, with a plain base before it. */
  lemma ProtectAtAs(aliases: seq<string>, s: string, n: nat, protect: bool)
    requires CollapseSpaces(s) == s && AsAt(s, n) && PlainName(s[..n])
    ensures ProtectIdentifiers(aliases, s, protect)
            == if protect then EscapeIdentifiers(s[..n]) + (s[n..n + 4] + EscapeIdentifiers(s[n + 4..]))
               else s[..n] + s[n..]
  {
    PlainNoAs(s, n);
    PlainNoSpace(s[..n]);
    SplitAliasAs(s, n, protect);
    ProtectWithBase(aliases, s, protect, s[..n], if protect then s[n..n + 4] + EscapeIdentifiers(s[n + 4..]) else s[n..]);
  }

  lemma SplitAliasAs(s: string, n: nat, protect: bool)
    requires AsAt(s, n) && forall i :: 0 <= i < n ==> !AsAt(s, i)
    ensures SplitAlias(s, protect)
            == (s[..n], if protect then s[n..n + 4] + EscapeIdentifiers(s[n + 4..]) else s[n..])
  {
    assert FirstAs(s) == n;
  }

  /** An item with no `\sAS\s`, cut at its first space, with a plain base. */
  lemma ProtectAtSpace(aliases: seq<string>, s: string, n: nat, protect: bool)
    requires CollapseSpaces(s) == s && FirstAs(s) == -1 && n < |s| && IndexOf(s, ' ') == n
    requires SimpleBase(s[..n])
    ensures ProtectIdentifiers(aliases, s, protect)
            == (if protect then EscapeIdentifiers(s[..n]) else s[..n])
               + (if protect && !HasOperator(s[n + 1..]) then " " + EscapeIdentifiers(s[n + 1..]) else s[n..])
  {
    var b := protect && !HasOperator(s[n + 1..]);
    var alias := if b then " " + EscapeIdentifiers(s[n + 1..]) else s[n..];
    SplitAliasSpace(s, n, protect, b);
    ProtectWithBase(aliases, s, protect, s[..n], alias);
  }

  lemma SplitAliasSpace(s: string, n: nat, protect: bool, b: bool)
    requires FirstAs(s) == -1 && n < |s| && IndexOf(s, ' ') == n
    requires b == (protect && !HasOperator(s[n + 1..]))
    ensures SplitAlias(s, protect) == (s[..n], if b then " " + EscapeIdentifiers(s[n + 1..]) else s[n..])
  {
  }

  lemma ConcatAssoc3(a: string, b: string, c: string)
    ensures a + b + c == a + (b + c)
  {
  }

  /** `x y` with an operator-free `y` renders as `x` `y`. */
  lemma ProtectBareAlias(aliases: seq<string>, x: string, y: string)
    requires PlainName(x) && PlainName(y) && !HasOperator(y)
    ensures ProtectIdentifiers(aliases, x + " " + y, true) == EscapeIdentifiers(x) + " " + EscapeIdentifiers(y)
  {
    var s := x + " " + y;
    PlainNoSpace(x);
    PlainNoSpace(y);
    SpacedPair(x, y);
    OneSpaceAt(s, |x|);
    ProtectAtSpace(aliases, s, |x|, true);
    ConcatAssoc3(EscapeIdentifiers(x), " ", EscapeIdentifiers(y));
  }

  /** A remainder that holds an operator is not an alias: it is kept verbatim
      after the escaped base, so `a >` renders as `a` >. */
  lemma ProtectOperatorRemainder(aliases: seq<string>, x: string, rest: string)
    requires NoSpace(x) && SimpleBase(x) && HasOperator(rest)
    requires Collapsed(x + " " + rest) && FirstAs(x + " " + rest) == -1
    ensures ProtectIdentifiers(aliases, x + " " + rest, true) == EscapeIdentifiers(x) + " " + rest
  {
    var s := x + " " + rest;
    CollapseIdentity(s);
    RemainderFacts(x, rest);
    ProtectAtSpace(aliases, s, |x|, true);
    ConcatAssoc3(EscapeIdentifiers(x), " ", rest);
  }

  lemma RemainderFacts(x: string, rest: string)
    requires NoSpace(x)
    ensures var s := x + " " + rest;
      s[..|x|] == x && s[|x| + 1..] == rest && s[|x|..] == " " + rest && IndexOf(s, ' ') == |x|
  {
    var s := x + " " + rest;
    assert s[..|x|] == x;
    assert s[|x|] == ' ';
  }

  /** The '(' / quote check runs before the alias is appended, so the alias of
      a function call is lost: `MAX(id) top` renders as `MAX(id)`. */
  lemma ProtectDropsAliasOfCall(aliases: seq<string>, x: string, y: string, protect: bool)
    requires NoSpace(x) && NoSpace(y) && ('(' in x || '\'' in x)
    ensures ProtectIdentifiers(aliases, x + " " + y, protect) == x
  {
    var s := x + " " + y;
    SpacedPair(x, y);
    OneSpaceAt(s, |x|);
    assert SplitAlias(s, protect).0 == x;
  }

  /** Without protection nothing is quoted: the item comes back with its
      whitespace collapsed (absent a '(' or quote, which would cut the alias). */
  lemma ProtectUnprotected(aliases: seq<string>, item: string)
    requires '(' !in item && '\'' !in item
    ensures ProtectIdentifiers(aliases, item, false) == CollapseSpaces(item)
  {
    var s := CollapseSpaces(item);
    CollapseKeepsNonSpace(item, '(');
    CollapseKeepsNonSpace(item, '\'');
    UnprotectedSplitRejoins(s);
    var (base, alias) := SplitAlias(s, false);
    assert '(' !in base && '\'' !in base by { assert base <= s; }
  }

  lemma UnprotectedSplitRejoins(s: string)
    ensures var (base, alias) := SplitAlias(s, false); base + alias == s && base <= s
  {
    var ai := FirstAs(s);
    if ai != -1 {
      assert s == s[..ai] + s[ai..];
    } else if ' ' in s {
      var i := IndexOf(s, ' ');
      assert s == s[..i] + s[i..];
    }
  }

  /** A dotted name whose first part is not a tracked alias is escaped as a
      whole: `galaxy.star_system.planet` becomes `galaxy`.`star_system`.`planet`. */
  lemma ProtectDottedName(aliases: seq<string>, item: string)
    requires NoSpace(item) && '(' !in item && '\'' !in item && '`' !in item
    requires '.' in item && item[0] != '.' && Split(item, '.')[0] !in aliases
    ensures ProtectIdentifiers(aliases, item, true) == "`" + Join(Split(item, '.'), "`.`") + "`"
  {
    NoSpaceFacts(item);
    EscapeWrapsSegments(item);
  }

  /** A whitespace-free item is its own collapsed form and has no alias. */
  lemma NoSpaceFacts(item: string)
    requires NoSpace(item)
    ensures CollapseSpaces(item) == item && FirstAs(item) == -1 && ' ' !in item
    ensures forall p :: SplitAlias(item, p) == (item, "")
  {
    assert Collapsed(item);
    CollapseIdentity(item);
  }

  lemma {:induction false} JoinEscapedParts(parts: seq<string>)
    requires |parts| >= 1
    requires forall k :: 0 <= k < |parts| ==> parts[k] != "" && parts[k] != "*" && '`' !in parts[k] && '.' !in parts[k]
    ensures Join(EscapeParts(parts), ".") == "`" + Join(parts, "`.`") + "`"
  {
    EscapePlainName(parts[0]);
    if |parts| > 1 {
      JoinEscapedParts(parts[1..]);
      EscapedPartsHead(parts);
      JoinHead(parts, "`.`");
      QuotedSegments(parts[0], Join(parts[1..], "`.`"));
    }
  }

  lemma JoinHead(xs: seq<string>, sep: string)
    requires |xs| > 1
    ensures Join(xs, sep) == xs[0] + (sep + Join(xs[1..], sep))
  {
  }

  lemma EscapedPartsHead(parts: seq<string>)
    requires |parts| > 1
    ensures Join(EscapeParts(parts), ".") == EscapeIdentifiers(parts[0]) + ("." + Join(EscapeParts(parts[1..]), "."))
  {
    var ep := EscapeParts(parts);
    assert ep[1..] == EscapeParts(parts[1..]);
    JoinHead(ep, ".");
  }

  lemma QuotedSegments(p: string, rest: string)
    ensures ("`" + p + "`") + ("." + ("`" + rest + "`")) == "`" + (p + ("`.`" + rest)) + "`"
  {
  }

  /** A dotted, whitespace-free item: the tracked-alias branch escapes each
      part, the other branch escapes the whole. */
  lemma ProtectDottedBranches(aliases: seq<string>, item: string)
    requires NoSpace(item) && '(' !in item && '\'' !in item && '.' in item
    ensures ProtectIdentifiers(aliases, item, true)
            == if Split(item, '.')[0] in aliases then Join(EscapeParts(Split(item, '.')), ".")
               else EscapeIdentifiers(item)
  {
    NoSpaceFacts(item);
  }

  /** The parts of a backtick-free dotted name hold no backtick or dot, and
      when the first is non-empty the name does not start with a dot. */
  lemma PartsFacts(item: string)
    requires '`' !in item
    ensures forall k :: 0 <= k < |Split(item, '.')| ==> '`' !in Split(item, '.')[k] && '.' !in Split(item, '.')[k]
    ensures Split(item, '.')[0] != "" ==> item[0] != '.'
  {
    var parts := Split(item, '.');
    forall k | 0 <= k < |parts| ensures '`' !in parts[k] {
      PieceInside(parts, k, ".");
    }
    JoinStartsWithFirst(parts, ".");
  }

  /** With a tracked alias as first part, each part is escaped on its own;
      when no part is '*' or empty that is exactly the text an untracked
      name gets, so the registry only shows in `alias.*`. */
  lemma ProtectTrackedPrefix(aliases: seq<string>, item: string)
    requires NoSpace(item) && '(' !in item && '\'' !in item && '`' !in item && '.' in item
    requires Split(item, '.')[0] in aliases
    requires forall k :: 0 <= k < |Split(item, '.')| ==> Split(item, '.')[k] != "" && Split(item, '.')[k] != "*"
    ensures ProtectIdentifiers(aliases, item, true) == ProtectIdentifiers([], item, true)
  {
    ProtectDottedBranches(aliases, item);
    ProtectDottedBranches([], item);
    PartsFacts(item);
    JoinEscapedParts(Split(item, '.'));
    EscapeWrapsSegments(item);
  }

  lemma {:induction false} PieceInside(xs: seq<string>, k: nat, sep: string)
    requires k < |xs|
    ensures forall c :: c in xs[k] ==> c in Join(xs, sep)
  {
    if k == 0 {
      JoinStartsWithFirst(xs, sep);
      forall c | c in xs[0] ensures c in Join(xs, sep) {
        var i :| 0 <= i < |xs[0]| && xs[0][i] == c;
        assert Join(xs, sep)[..|xs[0]|][i] == c;
      }
    } else {
      PieceInside(xs[1..], k - 1, sep);
      JoinStep(xs[0], xs[1..], sep);
      assert [xs[0]] + xs[1..] == xs;
      var j := Join(xs[1..], sep);
      forall c | c in j ensures c in xs[0] + (sep + j) {
        var i :| 0 <= i < |j| && j[i] == c;
        assert (xs[0] + (sep + j))[|xs[0]| + |sep| + i] == c;
      }
    }
  }

  /** The two branches of the dotted case differ only on '*': against a
      registry holding "u", `u.*` renders as `u`.*, and against an empty one
      as `u`.`*`. `trackAliases` never builds the registry ["u"], since every
      entry it records holds a space (`TrackKeepsRegistryShape`); what a real
      registry gives is stated by `ProtectStarWithTrackedRegistry`. */
  lemma ProtectStarAfterAlias()
    ensures ProtectIdentifiers(["u"], "u.*", true) == "`u`.*"
    ensures ProtectIdentifiers([], "u.*", true) == "`u`.`*`"
  {
    ProtectStarTracked();
    ProtectStarUntracked();
  }

  /** Against any registry `trackAliases` can build (every entry holds a
      space), `u.*` renders as `u`.`*`: the table-alias prefix of index.js:207
      never matches. */
  lemma ProtectStarWithTrackedRegistry(aliases: seq<string>)
    requires AllSpaced(aliases)
    ensures ProtectIdentifiers(aliases, "u.*", true) == "`u`.`*`"
  {
    UStarParts();
    NoSpaceFacts("u.*");
    RegistryMissesPlainBase(aliases, "u.*", true);
    ProtectStarUntracked();
  }

  /** After `from('t u')` records "t u", `u.*` still renders as `u`.`*`. */
  lemma ProtectStarAfterTableAlias(aliases: seq<string>)
    requires AllSpaced(aliases)
    ensures ProtectIdentifiers(TrackOne(aliases, "t u"), "u.*", true) == "`u`.`*`"
  {
    var t := "t u";
    assert t[1] == ' ';
    var reg := TrackOne(aliases, t);
    assert AllSpaced(reg) by {
      if reg != aliases {
        assert reg == aliases + [StripAs(t)];
        assert ' ' in StripAs(t);
      }
    }
    ProtectStarWithTrackedRegistry(reg);
  }

  lemma ProtectStarTracked()
    ensures ProtectIdentifiers(["u"], "u.*", true) == "`u`.*"
  {
    UStarParts();
    ProtectDottedBranches(["u"], "u.*");
  }

  lemma ProtectStarUntracked()
    ensures ProtectIdentifiers([], "u.*", true) == "`u`.`*`"
  {
    UStarParts();
    ProtectDottedBranches([], "u.*");
    UStarWrapped();
  }

  lemma UStarWrapped()
    ensures EscapeIdentifiers("u.*") == "`u`.`*`"
  {
    UStarParts();
    EscapeWrapsSegments("u.*");
  }

  lemma UStarParts()
    ensures Split("u.*", '.') == ["u", "*"]
    ensures Join(EscapeParts(["u", "*"]), ".") == "`u`.*"
    ensures Join(["u", "*"], "`.`") == "u`.`*"
    ensures NoSpace("u.*")
  {
    UStarSplit();
    UStarEscaped();
  }

  lemma UStarSplit()
    ensures Split("u.*", '.') == ["u", "*"]
  {
    assert IndexOf("u.*", '.') == 1;
    assert "u.*"[..1] == "u" && "u.*"[2..] == "*";
    assert Split("*", '.') == ["*"];
  }

  lemma UStarEscaped()
    ensures EscapeParts(["u", "*"]) == ["`u`", "*"]
  {
    EscapePlainName("u");
    assert EscapeIdentifiers("*") == "*";
    var ep := EscapeParts(["u", "*"]);
    assert ep[0] == "`u`" && ep[1] == "*";
  }

  // ---------------------------------------------------------- trackAliases

  lemma {:induction false} StripAsKeepsPrefix(x: string, rest: string)
    requires NoSpace(x)
    ensures StripAs(x + rest) == x + StripAs(rest)
    decreases |x|
  {
    if |x| > 0 {
      assert x == [x[0]] + x[1..];
      NoSpaceConcat([x[0]], x[1..]);
      StripAsPlainHead(x + rest);
      assert (x + rest)[1..] == x[1..] + rest;
      StripAsKeepsPrefix(x[1..], rest);
    } else {
      assert x + rest == rest;
    }
  }

  /** A leading non-whitespace character is kept by `StripAs`. */
  lemma StripAsPlainHead(s: string)
    requires |s| > 0 && !IsSpace(s[0])
    ensures StripAs(s) == [s[0]] + StripAs(s[1..])
  {
  }

  lemma StripAsNoSpace(y: string)
    requires NoSpace(y)
    ensures StripAs(y) == y
  {
    StripAsKeepsPrefix(y, "");
    assert y + "" == y;
  }

  lemma StripAsKeywordRun(kw: string, y: string)
    requires kw in {"as", "AS", "As", "aS"} && NoSpace(y)
    ensures StripAs(" " + kw + " " + y) == " " + y
  {
    var t := kw + " " + y;
    var s := " " + t;
    assert s == " " + kw + " " + y;
    LeadingOneSpace(t);
    assert s[3..] == " " + y && s[4..] == y;
    LeadingOneSpace(y);
    StripAsStep(s);
    StripAsNoSpace(y);
  }

  /** One space, an AS keyword and one space become a single space. */
  lemma StripAsStep(s: string)
    requires |s| >= 4 && LeadingSpaces(s) == 1 && AsAfter(s, 1) && LeadingSpaces(s[3..]) == 1
    ensures StripAs(s) == " " + StripAs(s[4..])
  {
    assert s[1 + 2..] == s[3..];
  }

  /** One space before a non-space (or nothing) is a run of length one. */
  lemma LeadingOneSpace(t: string)
    requires |t| == 0 || !IsSpace(t[0])
    ensures LeadingSpaces(" " + t) == 1
  {
    assert (" " + t)[1..] == t;
  }

  lemma StripAsLoneSpace(y: string)
    requires NoSpace(y)
    ensures StripAs(" " + y) == " " + y
  {
    var s := " " + y;
    assert !AsAfter(s, LeadingSpaces(s)) by {
      if |s| > 1 { assert LeadingSpaces(s) == 1 by { assert s[1..][0] == y[0]; } }
      if |s| >= 4 { assert s[3] == y[2]; }
    }
    assert s[1..] == y;
    StripAsNoSpace(y);
  }

  /** `trackAliases` stores the whole `table alias` text, with any `AS`
      dropped, and not the alias alone: `universe as u` and `universe u`
      both record `universe u`. */
  lemma TrackRecordsWholeEntry(aliases: seq<string>, x: string, kw: string, y: string)
    requires PlainName(x) && PlainName(y) && kw in {"as", "AS", "As", "aS"}
    requires x + " " + y !in aliases
    ensures TrackAliases(aliases, One(x + " " + kw + " " + y)) == Ok(aliases + [x + " " + y])
    ensures TrackAliases(aliases, One(x + " " + y)) == Ok(aliases + [x + " " + y])
  {
    PlainNoSpace(x);
    PlainNoSpace(y);
    var withAs, plain := x + " " + kw + " " + y, x + " " + y;
    EntryShape(x, kw, y);
    StripAsKeepsPrefix(x, " " + kw + " " + y);
    StripAsKeywordRun(kw, y);
    StripAsKeepsPrefix(x, " " + y);
    StripAsLoneSpace(y);
    TrackSpacedEntry(aliases, withAs, plain);
    TrackSpacedEntry(aliases, plain, plain);
  }

  lemma EntryShape(x: string, kw: string, y: string)
    requires NoSpace(x) && NoSpace(y) && ',' !in x && ',' !in y && kw in {"as", "AS", "As", "aS"}
    ensures var withAs := x + " " + kw + " " + y;
      withAs == x + (" " + kw + " " + y) && ',' !in withAs && ' ' in withAs
    ensures var plain := x + " " + y;
      plain == x + (" " + y) && ',' !in plain && ' ' in plain
  {
    assert ',' !in " " + kw + " ";
    assert (x + " " + kw + " " + y)[|x|] == ' ';
    assert (x + " " + y)[|x|] == ' ';
  }

  lemma TrackSpacedEntry(aliases: seq<string>, s: string, t: string)
    requires ',' !in s && ' ' in s && StripAs(s) == t && t !in aliases
    ensures TrackAliases(aliases, One(s)) == Ok(aliases + [t])
  {
  }

  /** On an array `trackAliases` records nothing. */
  lemma TrackArrayRecordsNothing(aliases: seq<string>, xs: seq<string>)
    requires "," !in xs && " " !in xs
    ensures TrackAliases(aliases, Many(xs)) == Ok(aliases)
  {
  }

  /** Every registry entry holds a space. */
  predicate AllSpaced(aliases: seq<string>) {
    forall k :: 0 <= k < |aliases| ==> ' ' in aliases[k]
  }

  /** Tracking keeps every entry spaced and never records a duplicate. */
  lemma TrackKeepsRegistryShape(aliases: seq<string>, t: Tables)
    requires AllSpaced(aliases)
    requires forall i, j :: 0 <= i < j < |aliases| ==> aliases[i] != aliases[j]
    ensures TrackAliases(aliases, t).Ok? ==> AllSpaced(TrackAliases(aliases, t).value)
    ensures TrackAliases(aliases, t).Ok? ==>
      var r := TrackAliases(aliases, t).value; forall i, j :: 0 <= i < j < |r| ==> r[i] != r[j]
  {
    var res := TrackAliases(aliases, t);
    if res.Ok? {
      var r := res.value;
      assert r[..|aliases|] == aliases;
      forall i, j | 0 <= i < j < |r| ensures r[i] != r[j] {
        if j >= |aliases| {
          assert r[j] !in aliases;
          if i < |aliases| { assert r[i] == aliases[i]; }
        } else {
          assert r[i] == aliases[i] && r[j] == aliases[j];
        }
      }
      forall k | 0 <= k < |r| ensures ' ' in r[k] {
        if k < |aliases| { assert r[k] == aliases[k]; }
      }
    }
  }

  /** Because entries hold a space and the identifier before the alias holds
      none, the registry never matches an item without `AS`: such an item is
      protected exactly as with an empty registry. */
  lemma RegistryMissesPlainBase(aliases: seq<string>, item: string, protect: bool)
    requires AllSpaced(aliases)
    requires FirstAs(CollapseSpaces(item)) == -1
    ensures ProtectIdentifiers(aliases, item, protect) == ProtectIdentifiers([], item, protect)
  {
    var s := CollapseSpaces(item);
    var base := SplitAlias(s, protect).0;
    assert ' ' !in base by {
      if ' ' in s {
        var i := IndexOf(s, ' ');
        assert base == s[..i];
      }
    }
    if '.' in base {
      var parts := Split(base, '.');
      PieceInside(parts, 0, ".");
      assert ' ' !in parts[0];
    }
    RegistryUnused(aliases, item, protect);
  }

  /** When the first dotted part of the base is not in the registry, the
      registry plays no part in the protected text. */
  lemma RegistryUnused(aliases: seq<string>, item: string, protect: bool)
    requires var base := SplitAlias(CollapseSpaces(item), protect).0;
             '.' in base ==> Split(base, '.')[0] !in aliases
    ensures ProtectIdentifiers(aliases, item, protect) == ProtectIdentifiers([], item, protect)
  {
  }

  // ---------------------------------------------------------- plain columns

  /** A bare column name: plain, not '' or '*', and free of operator characters. */
  predicate Column(k: string) {
    PlainName(k) && k != "" && k != "*" && !HasOperatorChar(k)
  }

  /** A whitespace character between two non-whitespace ones is an operator. */
  lemma InteriorSpaceAt(s: string, j: nat)
    requires 0 < j && j + 1 < |s| && IsSpace(s[j]) && !IsSpace(s[j - 1]) && !IsSpace(s[j + 1])
    ensures HasOperator(s)
  {
    HasOperatorIff(s);
    assert InteriorSpace(s);
  }

  /** A column is protected into one pair of backticks, and neither it nor
      its protected form counts as holding an operator. */
  lemma ProtectColumn(aliases: seq<string>, k: string)
    requires Column(k)
    ensures ProtectIdentifiers(aliases, k, true) == "`" + k + "`"
    ensures !HasOperator(k) && !HasOperator("`" + k + "`")
  {
    PlainNoSpace(k);
    NoSpaceFacts(k);
    ProtectWithBase(aliases, k, true, k, "");
    EscapePlainName(k);
    HasOperatorIff(k);
    var t := "`" + k + "`";
    forall i | 0 <= i < |t| ensures !IsSpace(t[i]) && !IsOperatorChar(t[i]) {
      if 0 < i < |t| - 1 { assert t[i] == k[i - 1]; }
    }
    HasOperatorIff(t);
  }

  /** Escaping an already quoted column collapses only the leading pair of
      backticks, so a stray one is left at the end. */
  lemma EscapeQuotedColumn(k: string)
    requires Column(k)
    ensures EscapeIdentifiers("`" + k + "`") == "`" + k + "``"
  {
    PlainNoSpace(k);
    var t := "`" + k + "`";
    assert '.' !in t;
    var body := t + "`";
    assert ReplaceChar(t, '.', "`.`") == t;
    assert LeadingTicks(body) == 1 by {
      assert body[1..] == k + "``";
      assert LeadingTicks(body[1..]) == 0;
    }
    assert LeadingTicks("`" + body) == 2 by {
      assert ("`" + body)[1..] == body;
    }
    assert ("`" + body)[2..] == k + "``";
  }

  // ------------------------------------------------------ qualified names

  lemma IndexOfAfter(a: string, c: char, b: string)
    requires c !in a
    ensures IndexOf(a + [c] + b, c) == |a|
  {
    var s := a + [c] + b;
    var r := IndexOf(s, c);
    assert s[..|a|] == a && s[|a|] == c;
  }

  /** Splitting a join of pieces free of the separator gives the pieces back. */
  lemma {:induction false} SplitJoin(xs: seq<string>, c: char)
    requires |xs| >= 1 && forall k :: 0 <= k < |xs| ==> c !in xs[k]
    ensures Split(Join(xs, [c]), c) == xs
    decreases |xs|
  {
    if |xs| == 1 {
      assert Join(xs, [c]) == xs[0];
    } else {
      SplitJoin(xs[1..], c);
      SplitJoinStep(xs, c);
    }
  }

  lemma SplitJoinStep(xs: seq<string>, c: char)
    requires |xs| > 1 && c !in xs[0]
    requires Split(Join(xs[1..], [c]), c) == xs[1..]
    ensures Split(Join(xs, [c]), c) == xs
  {
    JoinHead(xs, [c]);
    SplitAtFirst(xs[0], c, Join(xs[1..], [c]));
    assert xs == [xs[0]] + xs[1..];
  }

  /** Splitting cuts at the first separator, and goes on after it. */
  lemma SplitAtFirst(a: string, c: char, b: string)
    requires c !in a
    ensures Split(a + ([c] + b), c) == [a] + Split(b, c)
  {
    var s := a + ([c] + b);
    assert s == a + [c] + b;
    IndexOfAfter(a, c, b);
    assert s[|a| + 1..] == b;
    assert s[..|a|] == a;
  }

  /** A non-empty run of word characters. */
  predicate WordName(n: string) {
    |n| > 0 && forall i :: 0 <= i < |n| ==> IsWordChar(n[i])
  }

  lemma WordIsColumn(n: string)
    requires WordName(n)
    ensures Column(n) && '`' !in n && '.' !in n
  {
    assert n != "*" by { assert IsWordChar(n[0]); }
    HasOperatorCharOfWord(n);
  }

  lemma HasOperatorCharOfWord(n: string)
    requires WordName(n)
    ensures !HasOperatorChar(n)
  {
  }

  /** A qualified column `t.c` is quoted segment by segment when `t` is not
      a tracked entry (which it cannot be, entries holding a space). */
  lemma ProtectQualified(aliases: seq<string>, t: string, c: string)
    requires WordName(t) && WordName(c) && AllSpaced(aliases)
    ensures ProtectIdentifiers(aliases, t + "." + c, true) == QuotedColumn(t, c)
  {
    var q := t + "." + c;
    WordIsColumn(t);
    WordIsColumn(c);
    PlainNoSpace(t);
    PlainNoSpace(c);
    QualifiedParts(t, c);
    assert ' ' !in t;
    ProtectDottedName(aliases, q);
  }

  lemma QualifiedParts(t: string, c: string)
    requires WordName(t) && WordName(c)
    ensures var q := t + "." + c;
      NoSpace(q) && '(' !in q && '\'' !in q && '`' !in q && '.' in q && q[0] != '.'
      && Split(q, '.') == [t, c] && "`" + Join([t, c], "`.`") + "`" == "`" + t + "`.`" + c + "`"
  {
    var q := t + "." + c;
    WordIsColumn(t);
    WordIsColumn(c);
    assert Join([t, c], ".") == q by { assert Join([t, c], ".") == t + "." + Join([c], "."); }
    SplitJoin([t, c], '.');
    assert Join([t, c], "`.`") == t + "`.`" + c by { assert Join([t, c], "`.`") == t + "`.`" + Join([c], "`.`"); }
    forall j | 0 <= j < |q| ensures !IsSpace(q[j]) && q[j] != '(' && q[j] != '\'' && q[j] != '`' {
      if j < |t| { assert q[j] == t[j]; } else if j > |t| { assert q[j] == c[j - |t| - 1]; }
    }
    assert q[|t|] == '.';
  }

  /** `t.c` protected segment by segment. */
  function QuotedColumn(t: string, c: string): string {
    "`" + t + "`.`" + c + "`"
  }

  lemma TrimOfTrimmed(s: string)
    requires |s| > 0 && !IsSpace(s[0]) && !IsSpace(s[|s| - 1])
    ensures Trim(s) == s
  {
  }

  lemma TrimLeadingSpace(z: string)
    requires |z| > 0 && NoSpace(z)
    ensures Trim(" " + z) == z
  {
    assert (" " + z)[1..] == z;
    assert LeadingSpaces(" " + z) == 1 by { assert (" " + z)[1..][0] == z[0]; }
  }
}
