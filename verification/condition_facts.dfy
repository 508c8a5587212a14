/** What the WHERE and LIKE accumulators promise for plain columns: the
    fragment each pair renders to, the connective rule, the early hand-over
    to `_where_in`, the unescaped IN-list and the doubly protected LIKE. */
module ConditionFacts {
  import opened Text
  import opened Values
  import opened Identifiers
  import opened IdentifierFacts
  import opened Builder
  import opened Conditions

  /** The connective of the fragment at position `n` of the WHERE list. */
  function Connective(n: nat, conj: Conj): string {
    if n == 0 then "" else conj.Word()
  }

  /** What one pair on a bare column renders to, independent of the state:
      `col` IS NULL for null, `col` = <value> when escaping, and the raw
      key, ' =' and the value's text glued together otherwise. */
  function Condition(quote: string -> string, k: string, v: Value, escape: bool): string {
    if v.Null? then "`" + k + "`" + " IS NULL"
    else if escape then "`" + k + "`" + " =" + " " + QbText(quote, v)
    else k + " =" + (if Truthy(v) then ToText(v) else "")
  }

  lemma IsNullFacts(k: string)
    requires Column(k)
    ensures var s := k + " IS NULL"; Collapsed(s) && FirstAs(s) == -1
    ensures HasOperator("IS NULL")
  {
    PlainNoSpace(k);
    var s := k + " IS NULL";
    forall i | 0 <= i < |s| ensures IsSpace(s[i]) ==> i == |k| || i == |k| + 3 {
      if i < |k| { assert s[i] == k[i]; }
    }
    assert s[|k|] == ' ' && s[|k| + 1] == 'I' && s[|k| + 3] == ' ' && s[|k| + 4] == 'N';
    InteriorSpaceAt("IS NULL", 2);
  }

  /** `col IS NULL` is protected into `col` IS NULL. */
  lemma ProtectIsNull(aliases: seq<string>, k: string)
    requires Column(k)
    ensures ProtectIdentifiers(aliases, k + " IS NULL", true) == "`" + k + "`" + " IS NULL"
  {
    IsNullFacts(k);
    PlainNoSpace(k);
    IsNullSplit(k);
    ProtectOperatorRemainder(aliases, k, "IS NULL");
    EscapePlainName(k);
    IsNullSplit("`" + k + "`");
  }

  lemma IsNullSplit(k: string)
    ensures k + " IS NULL" == k + " " + "IS NULL"
  {
  }

  lemma PairNull(s: State, quote: string -> string, k: string, conj: Conj, escape: bool)
    requires !HasOperator(k)
    ensures PairFragment(s, quote, k, Null, conj, escape) == Prefix(s, conj) + Protect(s, k + " IS NULL")
  {
  }

  lemma PairEscaped(s: State, quote: string -> string, k: string, v: Value, conj: Conj)
    requires !v.Null? && !HasOperator(Protect(s, k))
    ensures PairFragment(s, quote, k, v, conj, true) == Prefix(s, conj) + ((Protect(s, k) + " =") + " " + QbText(quote, v))
  {
  }

  lemma PairRaw(s: State, quote: string -> string, k: string, v: Value, conj: Conj)
    requires !v.Null? && !HasOperator(k)
    ensures PairFragment(s, quote, k, v, conj, false) == Prefix(s, conj) + ((k + " =") + (if Truthy(v) then ToText(v) else ""))
  {
  }

  /** The fragment of one non-array pair on a bare column. */
  lemma PairFragmentOfColumn(s: State, quote: string -> string, k: string, v: Value, conj: Conj, escape: bool)
    requires Column(k)
    ensures PairFragment(s, quote, k, v, conj, escape) == Connective(|s.whereArray|, conj) + Condition(quote, k, v, escape)
  {
    ProtectColumn(s.aliases, k);
    assert Prefix(s, conj) == Connective(|s.whereArray|, conj);
    if v.Null? {
      PairNull(s, quote, k, conj, escape);
      ProtectIsNull(s.aliases, k);
    } else if escape {
      PairEscaped(s, quote, k, v, conj);
    } else {
      PairRaw(s, quote, k, v, conj);
    }
  }

  /** The fragments pairs on bare columns render to when the WHERE list
      already holds `n` fragments. */
  function Rendered(n: nat, quote: string -> string, pairs: seq<(string, Value)>, conj: Conj, escape: bool): (r: seq<string>)
    ensures |r| == |pairs|
    ensures forall i :: 0 <= i < |pairs| ==> r[i] == Connective(n + i, conj) + Condition(quote, pairs[i].0, pairs[i].1, escape)
    decreases |pairs|
  {
    if |pairs| == 0 then []
    else
      var rest := Rendered(n + 1, quote, pairs[1..], conj, escape);
      var r := [Connective(n, conj) + Condition(quote, pairs[0].0, pairs[0].1, escape)] + rest;
      assert forall i :: 0 < i < |pairs| ==> r[i] == rest[i - 1] && pairs[1..][i - 1] == pairs[i] && n + 1 + (i - 1) == n + i;
      r
  }

  /** One step of `_where` on a bare column holding no array. */
  lemma WhereStep(s: State, quote: string -> string, pairs: seq<(string, Value)>, conj: Conj, escape: bool)
    requires |pairs| > 0 && Column(pairs[0].0) && !IsNonEmptyList(pairs[0].1)
    ensures WherePairs(s, quote, pairs, conj, escape)
            == WherePairs(s.(whereArray := s.whereArray + [Connective(|s.whereArray|, conj) + Condition(quote, pairs[0].0, pairs[0].1, escape)]),
                          quote, pairs[1..], conj, escape)
  {
    PairFragmentOfColumn(s, quote, pairs[0].0, pairs[0].1, conj, escape);
  }

  /** `_where` over pairs on bare columns, none holding a non-empty array:
      one fragment per pair, in order, each the pair's condition after
      'AND '/'OR ' unless it is the first fragment of the statement. */
  lemma {:induction false} WhereFragmentsInOrder(s: State, quote: string -> string, pairs: seq<(string, Value)>, conj: Conj, escape: bool)
    requires FirstList(pairs) == |pairs|
    requires forall i :: 0 <= i < |pairs| ==> Column(pairs[i].0)
    ensures WherePairs(s, quote, pairs, conj, escape).whereArray
            == s.whereArray + Rendered(|s.whereArray|, quote, pairs, conj, escape)
    decreases |pairs|
  {
    if |pairs| > 0 {
      var f := Connective(|s.whereArray|, conj) + Condition(quote, pairs[0].0, pairs[0].1, escape);
      var s1 := s.(whereArray := s.whereArray + [f]);
      WhereStep(s, quote, pairs, conj, escape);
      assert FirstList(pairs[1..]) == |pairs[1..]|;
      assert forall i :: 0 <= i < |pairs[1..]| ==> Column(pairs[1..][i].0) by {
        forall i | 0 <= i < |pairs[1..]| ensures Column(pairs[1..][i].0) { assert pairs[1..][i] == pairs[i + 1]; }
      }
      WhereFragmentsInOrder(s1, quote, pairs[1..], conj, escape);
      AppendAssoc(s.whereArray, [f], Rendered(|s.whereArray| + 1, quote, pairs[1..], conj, escape));
    }
  }

  /** `_where` on one bare column holding no array pushes its condition. */
  lemma WhereOnePair(s: State, quote: string -> string, k: string, v: Value, conj: Conj, escape: bool)
    requires Column(k) && !IsNonEmptyList(v)
    ensures WherePairs(s, quote, [(k, v)], conj, escape).whereArray
            == s.whereArray + [Connective(|s.whereArray|, conj) + Condition(quote, k, v, escape)]
  {
    WhereStep(s, quote, [(k, v)], conj, escape);
    assert [(k, v)][1..] == [];
  }

  /** `where(col, value)`: a falsy value (0, '', false, null) turns into an
      IS NULL test; any other non-array value is compared with `=`. */
  lemma WhereOnColumn(s: State, quote: string -> string, k: string, value: Value, conj: Conj)
    requires Column(k) && !IsNonEmptyList(value)
    ensures Where(s, quote, Key(k), value, false, conj).whereArray
            == s.whereArray + [Connective(|s.whereArray|, conj) + Condition(quote, k, OrNull(value), true)]
    ensures !Truthy(value) ==>
              Where(s, quote, Key(k), value, false, conj).whereArray
              == s.whereArray + [Connective(|s.whereArray|, conj) + ("`" + k + "`" + " IS NULL")]
  {
    WhereOnePair(s, quote, k, OrNull(value), conj, true);
  }

  /** Raw mode glues the value to ' =' with no space: where('a', 'b', true)
      yields "a =b". */
  lemma WhereRawGluesValue(s: State, quote: string -> string, k: string, v: string, conj: Conj)
    requires Column(k) && v != ""
    ensures Where(s, quote, Key(k), Str(v), true, conj).whereArray
            == s.whereArray + [Connective(|s.whereArray|, conj) + (k + " =" + v)]
  {
    WhereOnePair(s, quote, k, Str(v), conj, false);
  }

  lemma MappingConditions(quote: string -> string)
    ensures Condition(quote, "a", Num(1), true) == "`a` = 1"
    ensures Condition(quote, "b", Null, true) == "`b` IS NULL"
  {
    assert IntToString(1) == "1";
  }

  /** where({a: 1, b: null}) on a fresh statement. */
  lemma WhereMappingExample(quote: string -> string)
    ensures Where(Initial(), quote, Pairs([("a", Num(1)), ("b", Null)]), Null, false, And).whereArray
            == ["`a` = 1", "AND `b` IS NULL"]
  {
    var pairs := [("a", Num(1)), ("b", Null)];
    assert Column("a") && Column("b") by {
      assert PlainName("a") && PlainName("b");
    }
    assert FirstList(pairs) == 2 by {
      assert FirstList(pairs[1..]) == 1;
    }
    WhereFragmentsInOrder(Initial(), quote, pairs, And, true);
    MappingRendered(quote);
    assert Where(Initial(), quote, Pairs(pairs), Null, false, And) == WherePairs(Initial(), quote, pairs, And, true);
  }

  lemma MappingRendered(quote: string -> string)
    ensures [] + Rendered(0, quote, [("a", Num(1)), ("b", Null)], And, true) == ["`a` = 1", "AND `b` IS NULL"]
  {
    var pairs := [("a", Num(1)), ("b", Null)];
    MappingConditions(quote);
    var r := Rendered(0, quote, pairs, And, true);
    assert r[0] == "" + "`a` = 1" == "`a` = 1";
    assert r[1] == "AND " + "`b` IS NULL" == "AND `b` IS NULL";
    assert r == ["`a` = 1", "AND `b` IS NULL"];
    assert [] + r == r;
  }

  /** The first fragment of a statement carries no connective. */
  lemma FirstFragment(x: string, conj: Conj)
    ensures [] + [Connective(0, conj) + x] == [x]
  {
    assert "" + x == x;
  }

  /** The condition `_where_in` renders for a bare column, given the text of
      its value list. */
  function InCondition(k: string, not: bool, list: string): string {
    "`" + k + "`" + (if not then " NOT" else "") + " IN (" + list + ") "
  }

  /** Regrouping steps of the lemma below, each proved in a small context. */
  lemma ConcatAssoc6(a: string, b: string, c: string, d: string, e: string, f: string)
    ensures a + b + c + d + e + f == a + (b + c + d + e + f)
  {
  }

  lemma JoinOne(x: string, sep: string)
    ensures Join([] + [x], sep) == x
  {
    assert [] + [x] == [x];
  }

  lemma InFragmentOfColumn(s: State, quote: string -> string, k: string, values: Value, not: bool, conj: Conj)
    requires Column(k) && s.whereInArray == []
    ensures InFragment(s, quote, k, values, not, conj)
            == Connective(|s.whereArray|, conj) + InCondition(k, not, QbText(quote, OrEmptyList(values)))
  {
    ProtectColumn(s.aliases, k);
    var x := QbText(quote, OrEmptyList(values));
    JoinOne(x, ", ");
    ConcatAssoc6(Prefix(s, conj), "`" + k + "`", if not then " NOT" else "", " IN (", x, ") ");
  }

  /** The IN-list on a bare column: an array argument is rendered as its
      elements' texts joined by ',' with no quoting, whatever the escaping
      function; the pending list is left empty. */
  lemma WhereInListUnescaped(s: State, quote: string -> string, k: string, items: seq<Value>, not: bool, conj: Conj)
    requires Column(k) && |items| > 0 && s.whereInArray == []
    ensures var r := WhereIn(s, quote, k, List(items), not, conj);
      r.whereInArray == []
      && r.whereArray == s.whereArray + [Connective(|s.whereArray|, conj)
                                         + InCondition(k, not, Join(seq(|items|, i requires 0 <= i < |items| => ElemText(items[i])), ","))]
  {
    InFragmentOfColumn(s, quote, k, List(items), not, conj);
  }

  /** A single string value is quoted through the escaping function. */
  lemma WhereInScalarQuoted(s: State, quote: string -> string, k: string, x: string, not: bool, conj: Conj)
    requires Column(k) && x != "" && s.whereInArray == []
    ensures WhereIn(s, quote, k, Str(x), not, conj).whereArray
            == s.whereArray + [Connective(|s.whereArray|, conj) + InCondition(k, not, "'" + quote(x) + "'")]
  {
    InFragmentOfColumn(s, quote, k, Str(x), not, conj);
  }

  /** where_not_in('id', ['a', 'b']): the strings reach the SQL unquoted. */
  lemma WhereNotInExample(quote: string -> string)
    ensures WhereIn(Initial(), quote, "id", List([Str("a"), Str("b")]), true, And).whereArray
            == ["`id` NOT IN (a,b) "]
  {
    assert Column("id") by { assert PlainName("id"); }
    var items := [Str("a"), Str("b")];
    WhereInListUnescaped(Initial(), quote, "id", items, true, And);
    NotInText();
    FirstFragment("`id` NOT IN (a,b) ", And);
  }

  lemma NotInText()
    ensures var items := [Str("a"), Str("b")];
      InCondition("id", true, Join(seq(|items|, i requires 0 <= i < |items| => ElemText(items[i])), ",")) == "`id` NOT IN (a,b) "
  {
    var items := [Str("a"), Str("b")];
    assert seq(|items|, i requires 0 <= i < |items| => ElemText(items[i])) == ["a", "b"];
    assert Join(["a", "b"], ",") == "a,b";
    InConditionExamples();
  }

  lemma InOneText()
    ensures var items := [Num(1)];
      InCondition("a", false, Join(seq(|items|, i requires 0 <= i < |items| => ElemText(items[i])), ",")) == "`a` IN (1) "
  {
    var items := [Num(1)];
    assert seq(|items|, i requires 0 <= i < |items| => ElemText(items[i])) == ["1"] by {
      assert ElemText(Num(1)) == IntToString(1) == "1";
    }
    assert Join(["1"], ",") == "1";
    InConditionExamples();
  }

  lemma InConditionExamples()
    ensures InCondition("id", true, "a,b") == "`id` NOT IN (a,b) "
    ensures InCondition("a", false, "1") == "`a` IN (1) "
  {
  }

  /** A mapping value that is a non-empty array hands the rest of the call to
      `_where_in`: later pairs are dropped. */
  lemma WhereStopsAtFirstList(quote: string -> string)
    ensures Where(Initial(), quote, Pairs([("a", List([Num(1)])), ("b", Num(2))]), Null, false, And).whereArray
            == ["`a` IN (1) "]
  {
    assert Column("a") by { assert PlainName("a"); }
    var items := [Num(1)];
    WhereInListUnescaped(Initial(), quote, "a", items, false, And);
    InOneText();
    FirstFragment("`a` IN (1) ", And);
    var pairs := [("a", List([Num(1)])), ("b", Num(2))];
    assert Where(Initial(), quote, Pairs(pairs), Null, false, And) == WhereIn(Initial(), quote, "a", List(items), false, And);
  }

  lemma LikeStatementFacts(f: string, x: string)
    requires Column(f) && PlainName(x)
    ensures var st := "`" + f + "`" + " " + ("LIKE '%" + x + "%'");
      Collapsed(st) && FirstAs(st) == -1 && HasOperator(st) && HasOperator("LIKE '%" + x + "%'")
  {
    var st := "`" + f + "`" + " " + ("LIKE '%" + x + "%'");
    var n := |f| + 2;
    LikeSpaces(f, x, st);
    forall i | 0 <= i < |st| ensures !AsAt(st, i) {
    }
    InteriorSpaceAt(st, n);
    LikeRestOperator(x);
  }

  /** The only spaces of a column's LIKE statement: before and after `LIKE`. */
  lemma LikeSpaces(f: string, x: string, st: string)
    requires Column(f) && PlainName(x)
    requires st == "`" + f + "`" + " " + ("LIKE '%" + x + "%'")
    ensures |st| == |f| + 12 + |x|
    ensures forall i :: 0 <= i < |st| && IsSpace(st[i]) ==> i == |f| + 2 || i == |f| + 7
    ensures st[|f| + 1] == '`' && st[|f| + 2] == ' ' && st[|f| + 3] == 'L'
    ensures st[|f| + 7] == ' ' && st[|f| + 8] == '\''
  {
    PlainNoSpace(f);
    PlainNoSpace(x);
    var n := |f| + 2;
    forall i | 0 <= i < |st| ensures IsSpace(st[i]) ==> i == n || i == n + 5 {
      if i < n {
        if 0 < i < n - 1 { assert st[i] == f[i - 1]; }
      } else if n + 8 <= i < n + 8 + |x| {
        assert st[i] == x[i - n - 8];
      }
    }
  }

  lemma LikeRestOperator(x: string)
    ensures HasOperator("LIKE '%" + x + "%'")
  {
    var rest := "LIKE '%" + x + "%'";
    assert rest[3] == 'E' && rest[4] == ' ' && rest[5] == '\'';
    InteriorSpaceAt(rest, 4);
  }

  /** The statement `_like` builds for side 'both'. */
  lemma LikeStatementOfColumn(s: State, f: string, x: string)
    requires Column(f)
    ensures LikeStatement(s, f, Str(x), "both", false) == "`" + f + "`" + " " + ("LIKE '%" + x + "%'")
  {
    PlainNoSpace(f);
    ProtectColumn(s.aliases, f);
    assert Trim(f) == f;
    LikeShape("`" + f + "`", x);
  }

  lemma LikeShape(k: string, x: string)
    ensures k + "" + " LIKE " + "'%" + x + "%'" == k + " " + ("LIKE '%" + x + "%'")
  {
  }

  /** `like(col, x)`: `_like` protects the column, then `_where` protects the
      whole statement again, which leaves a stray backtick after the column. */
  lemma LikeProtectsTwice(s: State, quote: string -> string, f: string, x: string, conj: Conj)
    requires Column(f) && PlainName(x) && x != ""
    ensures Like(s, quote, Key(f), Str(x), "both", false, conj).whereArray
            == s.whereArray + [Connective(|s.whereArray|, conj) + ("`" + f + "``" + " " + ("LIKE '%" + x + "%'"))]
  {
    var rest := "LIKE '%" + x + "%'";
    var t := "`" + f + "`";
    var st := t + " " + rest;
    LikeStatementOfColumn(s, f, x);
    LikeStatementFacts(f, x);
    LikeTwiceProtect(s.aliases, f, x);
    LikeWhere(s, quote, st, conj);
  }

  lemma LikeTwiceProtect(aliases: seq<string>, f: string, x: string)
    requires Column(f) && PlainName(x)
    ensures ProtectIdentifiers(aliases, "`" + f + "`" + " " + ("LIKE '%" + x + "%'"), true)
            == "`" + f + "``" + " " + ("LIKE '%" + x + "%'")
  {
    PlainNoSpace(f);
    var t := "`" + f + "`";
    assert NoSpace(t) && SimpleBase(t) by {
      forall i | 0 <= i < |t| ensures !IsSpace(t[i]) && t[i] != '(' && t[i] != '\'' && t[i] != '.' {
        if 0 < i < |t| - 1 { assert t[i] == f[i - 1]; }
      }
    }
    LikeStatementFacts(f, x);
    ProtectOperatorRemainder(aliases, t, "LIKE '%" + x + "%'");
    EscapeQuotedColumn(f);
  }

  /** `_where(statement, null, type, false)` for a statement that holds an
      operator pushes the protected statement. */
  lemma LikeWhere(s: State, quote: string -> string, st: string, conj: Conj)
    requires HasOperator(st)
    ensures WherePairs(s, quote, [(st, Null)], conj, false).whereArray
            == s.whereArray + [Connective(|s.whereArray|, conj) + Protect(s, st)]
  {
    assert FirstList([(st, Null)]) == 1;
    assert [(st, Null)][1..] == [];
  }
}
