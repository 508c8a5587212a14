/** The select list and the single-valued clauses: `select` and
    `_min_max_avg_sum` (index.js:642-701), `distinct`,
    `comma_separated_arguments`, `group_by`, `having`, `order_by` and `limit`
    (index.js:703-742). */
module Columns {
  import opened Text
  import opened Values
  import opened Results
  import opened Identifiers
  import opened IdentifierFacts
  import opened Builder

  // ---------------------------------------------------------------- select

  /** The argument of `select`: one comma-separated string or an array. */
  datatype Selection = Columns(text: string) | ColumnList(items: seq<string>)

  /** What `select` iterates: a string is split on commas first. */
  function SelectPieces(sel: Selection): (r: seq<string>)
    ensures sel.Columns? ==> Join(r, ",") == sel.text
  {
    match sel
    case Columns(t) => Split(t, ',')
    case ColumnList(xs) => xs
  }

  /** The loop of `select`: each piece is trimmed and, unless blank, pushed
      protected by `protect`. */
  function AddColumns(s: State, protect: string -> string, pieces: seq<string>): (r: State)
    ensures r.(selectArray := s.selectArray) == s
    ensures s.selectArray <= r.selectArray && |r.selectArray| <= |s.selectArray| + |pieces|
    decreases |pieces|
  {
    if |pieces| == 0 then s
    else
      var v := Trim(pieces[0]);
      var s1 := if v != "" then s.(selectArray := s.selectArray + [protect(v)]) else s;
      AddColumns(s1, protect, pieces[1..])
  }

  /** `select(sel)`. The `escape` argument is read but never used, so it is
      not modelled; every column is protected. */
  function Select(s: State, sel: Selection): (r: State)
    ensures r.(selectArray := s.selectArray) == s
    ensures s.selectArray <= r.selectArray
  {
    AddColumns(s, Protector(s.aliases), SelectPieces(sel))
  }

  /** The trimmed pieces that are not blank, in order. */
  function Kept(pieces: seq<string>): (r: seq<string>)
    ensures |r| <= |pieces|
    ensures forall k :: 0 <= k < |r| ==> r[k] != ""
    decreases |pieces|
  {
    if |pieces| == 0 then []
    else
      var v := Trim(pieces[0]);
      (if v != "" then [v] else []) + Kept(pieces[1..])
  }

  lemma {:induction false} AddColumnsAppendsKept(s: State, protect: string -> string, pieces: seq<string>)
    ensures AddColumns(s, protect, pieces).selectArray == s.selectArray + Map(protect, Kept(pieces))
    decreases |pieces|
  {
    if |pieces| > 0 {
      var v := Trim(pieces[0]);
      var s1 := if v != "" then s.(selectArray := s.selectArray + [protect(v)]) else s;
      AddColumnsAppendsKept(s1, protect, pieces[1..]);
      var head := if v != "" then [v] else [];
      assert Kept(pieces) == head + Kept(pieces[1..]);
      MapAppend(protect, head, Kept(pieces[1..]));
      assert s1.selectArray == s.selectArray + Map(protect, head);
      AppendAssoc(s.selectArray, Map(protect, head), Map(protect, Kept(pieces[1..])));
    }
  }

  /** `select` appends, in order, the protected form of every piece that is
      not blank once trimmed, and nothing else. */
  lemma SelectAppendsKept(s: State, sel: Selection)
    ensures Select(s, sel).selectArray == s.selectArray + Map(Protector(s.aliases), Kept(SelectPieces(sel)))
  {
    AddColumnsAppendsKept(s, Protector(s.aliases), SelectPieces(sel));
  }

  /** Blank pieces are dropped: a select of only blanks changes nothing. */
  lemma {:induction false} KeptOfBlanks(pieces: seq<string>)
    requires forall k :: 0 <= k < |pieces| ==> Trim(pieces[k]) == ""
    ensures Kept(pieces) == []
    decreases |pieces|
  {
    if |pieces| > 0 {
      KeptOfBlanks(pieces[1..]);
    }
  }

  lemma SelectOfBlanks(s: State, sel: Selection)
    requires forall k :: 0 <= k < |SelectPieces(sel)| ==> Trim(SelectPieces(sel)[k]) == ""
    ensures Select(s, sel) == s
  {
    KeptOfBlanks(SelectPieces(sel));
    SelectAppendsKept(s, sel);
  }

  lemma SelectPairText(x: string, y: string)
    ensures x + ", " + y == Join([x, " " + y], [','])
  {
    assert Join([x, " " + y], [',']) == x + [','] + Join([" " + y], [',']);
  }

  lemma SelectPairPieces(x: string, y: string)
    requires Column(x) && Column(y)
    ensures Kept(SelectPieces(Columns(x + ", " + y))) == [x, y]
  {
    SelectPairSplit(x, y);
    KeptPair(x, y);
  }

  lemma SelectPairSplit(x: string, y: string)
    requires Column(x) && Column(y)
    ensures SelectPieces(Columns(x + ", " + y)) == [x, " " + y]
  {
    SelectPairText(x, y);
    assert ',' !in " " + y;
    SplitJoin([x, " " + y], ',');
  }

  lemma KeptPair(x: string, y: string)
    requires Column(x) && Column(y)
    ensures Kept([x, " " + y]) == [x, y]
  {
    PlainNoSpace(x);
    PlainNoSpace(y);
    TrimLeadingSpace(y);
    assert [x, " " + y][1..] == [" " + y];
    assert Kept([" " + y]) == [y] + Kept([]);
  }

  lemma ProtectorOfColumn(aliases: seq<string>, x: string)
    requires Column(x)
    ensures Protector(aliases)(x) == "`" + x + "`"
  {
    ProtectColumn(aliases, x);
  }

  /** `select("x, y")` with plain column names appends both, quoted. */
  lemma SelectPair(s: State, x: string, y: string)
    requires Column(x) && Column(y)
    ensures Select(s, Columns(x + ", " + y)).selectArray == s.selectArray + ["`" + x + "`", "`" + y + "`"]
  {
    SelectPairPieces(x, y);
    SelectAppendsKept(s, Columns(x + ", " + y));
    ProtectorOfPair(s.aliases, x, y);
  }

  lemma ProtectorOfPair(aliases: seq<string>, x: string, y: string)
    requires Column(x) && Column(y)
    ensures Map(Protector(aliases), [x, y]) == ["`" + x + "`", "`" + y + "`"]
  {
    ProtectorOfColumn(aliases, x);
    ProtectorOfColumn(aliases, y);
    MapPair(Protector(aliases), x, y);
  }

  lemma MapPair(f: string -> string, x: string, y: string)
    ensures Map(f, [x, y]) == [f(x), f(y)]
  {
  }

  // -------------------------------------------------- select_min/max/avg/sum

  /** The aggregate functions `_min_max_avg_sum` accepts once upper-cased. */
  const Aggregates: seq<string> := ["MAX", "MIN", "AVG", "SUM"]

  /** `alias == ''` with JavaScript's loose equality: only a string or an
      array whose string form is empty compares equal to ''. */
  predicate LooselyEmpty(v: Value) {
    (v.Str? || v.List?) && ToText(v) == ""
  }

  /** The select argument is acceptable: a non-empty string. */
  predicate ValidQuery(select: Value) {
    select.Str? && select.s != ""
  }

  /** The function type is acceptable: absent (so MAX) or a string naming an
      aggregate in any case. */
  predicate ValidKind(kind: Value) {
    !Truthy(kind) || (kind.Str? && ToUpper(kind.s) in Aggregates)
  }

  /** `_min_max_avg_sum(select, alias, type)`: `select` must be a non-empty
      string; `type` defaults to MAX and must name an aggregate; a blank alias
      is derived from the last dotted part of the trimmed select. */
  function MinMaxAvgSum(s: State, select: Value, alias: Value, kind: Value): (r: Result<State>)
    ensures !ValidQuery(select) ==> r == Err("Invalid query!")
    ensures ValidQuery(select) && Truthy(kind) && kind.Str? && ToUpper(kind.s) !in Aggregates ==> r == Err("Invalid function type!")
    ensures r.Ok? <==> ValidQuery(select) && ValidKind(kind)
    ensures r.Ok? ==> r.value.(selectArray := s.selectArray) == s
    ensures r.Ok? ==> |r.value.selectArray| == |s.selectArray| + 1 && s.selectArray <= r.value.selectArray
  {
    AggregateWith(s, Protector(s.aliases), select, alias, kind)
  }

  /** `_min_max_avg_sum` with the column protected by `protect`. */
  function AggregateWith(s: State, protect: string -> string, select: Value, alias: Value, kind: Value): (r: Result<State>)
    ensures !ValidQuery(select) ==> r == Err("Invalid query!")
    ensures ValidQuery(select) && Truthy(kind) && kind.Str? && ToUpper(kind.s) !in Aggregates ==> r == Err("Invalid function type!")
    ensures r.Ok? <==> ValidQuery(select) && ValidKind(kind)
    ensures r.Ok? ==> r.value.(selectArray := s.selectArray) == s
    ensures r.Ok? ==> |r.value.selectArray| == |s.selectArray| + 1 && s.selectArray <= r.value.selectArray
  {
    var sel := if Truthy(select) then select else Str("");
    var al := if Truthy(alias) then alias else Str("");
    var ty := if Truthy(kind) then kind else Str("MAX");
    assert ToUpper("MAX") == "MAX";
    if !sel.Str? || sel.s == "" then Err("Invalid query!")
    else if !ty.Str? then Err("TypeError: type.toUpperCase is not a function")
    else
      var t := ToUpper(ty.s);
      if t !in Aggregates then Err("Invalid function type!")
      else Ok(s.(selectArray := s.selectArray + [AggregateEntry(protect, t, sel.s, al)]))
  }

  /** The select entry `TYPE(select) AS alias`, protecting with `protect`. */
  function AggregateEntry(protect: string -> string, t: string, select: string, alias: Value): string {
    var name := Trim(select);
    var a := if LooselyEmpty(alias) then CreateAliasFromTable(name) else ToText(alias);
    t + "(" + protect(name) + ") AS " + a
  }

  /** An absent function type means MAX. */
  lemma AggregateDefaultsToMax(s: State, select: Value, alias: Value)
    ensures MinMaxAvgSum(s, select, alias, Null) == MinMaxAvgSum(s, select, alias, Str("MAX"))
  {
    assert ToUpper("MAX") == "MAX";
  }

  lemma CreateAliasOfQualified(t: string, c: string)
    requires WordName(t) && WordName(c)
    ensures CreateAliasFromTable(t + "." + c) == c
  {
    QualifiedParts(t, c);
  }

  lemma QualifiedTrimmed(t: string, c: string)
    requires WordName(t) && WordName(c)
    ensures Trim(t + "." + c) == t + "." + c
  {
    QualifiedParts(t, c);
  }

  lemma ProtectorOfQualified(aliases: seq<string>, t: string, c: string)
    requires WordName(t) && WordName(c) && AllSpaced(aliases)
    ensures Protector(aliases)(t + "." + c) == QuotedColumn(t, c)
  {
    ProtectQualified(aliases, t, c);
  }

  lemma EntryOfQualified(protect: string -> string, k: string, t: string, c: string, alias: Value)
    requires WordName(t) && WordName(c) && protect(t + "." + c) == QuotedColumn(t, c)
    ensures AggregateEntry(protect, k, t + "." + c, alias)
      == k + "(" + QuotedColumn(t, c) + ") AS " + (if LooselyEmpty(alias) then c else ToText(alias))
  {
    QualifiedTrimmed(t, c);
    CreateAliasOfQualified(t, c);
  }

  lemma AggregateWithQualified(s: State, protect: string -> string, t: string, c: string, kind: string, alias: string)
    requires WordName(t) && WordName(c) && protect(t + "." + c) == QuotedColumn(t, c) && ToUpper(kind) in Aggregates
    ensures AggregateWith(s, protect, Str(t + "." + c), Str(alias), Str(kind))
      == Ok(s.(selectArray := s.selectArray + [ToUpper(kind) + "(" + QuotedColumn(t, c) + ") AS " + (if alias == "" then c else alias)]))
  {
    assert t + "." + c != "" by { assert (t + "." + c)[0] == t[0]; }
    assert kind != "" by { assert ToUpper(kind) != ""; }
    AggregateWithAccepted(s, protect, t + "." + c, alias, kind);
    EntryOfQualified(protect, ToUpper(kind), t, c, Str(alias));
    LooselyEmptyOfStr(alias);
  }

  lemma LooselyEmptyOfStr(alias: string)
    ensures LooselyEmpty(Str(alias)) <==> alias == ""
    ensures ToText(Str(alias)) == alias
  {
  }

  /** Accepted string arguments append exactly the entry. */
  lemma AggregateWithAccepted(s: State, protect: string -> string, select: string, alias: string, kind: string)
    requires select != "" && kind != "" && ToUpper(kind) in Aggregates
    ensures AggregateWith(s, protect, Str(select), Str(alias), Str(kind))
      == Ok(s.(selectArray := s.selectArray + [AggregateEntry(protect, ToUpper(kind), select, Str(alias))]))
  {
  }

  /** `select_max("t.c")` and its siblings: the qualified column is quoted
      inside the upper-cased function and aliased by its last part, unless
      an alias is given. */
  lemma AggregateOfQualified(s: State, t: string, c: string, kind: string, alias: string)
    requires WordName(t) && WordName(c) && AllSpaced(s.aliases) && ToUpper(kind) in Aggregates
    ensures MinMaxAvgSum(s, Str(t + "." + c), Str(alias), Str(kind))
      == Ok(s.(selectArray := s.selectArray + [ToUpper(kind) + "(" + QuotedColumn(t, c) + ") AS " + (if alias == "" then c else alias)]))
  {
    ProtectorOfQualified(s.aliases, t, c);
    AggregateWithQualified(s, Protector(s.aliases), t, c, kind, alias);
  }

  // ------------------------------------------------------- the flat clauses

  /** `distinct()`. */
  function Distinct(s: State): (r: State)
    ensures r.distinct == "DISTINCT " && r.(distinct := s.distinct) == s
  {
    s.(distinct := "DISTINCT ")
  }

  /** `comma_separated_arguments(set)`: an array is joined with ', ' (a null
      element as ''), a string is used as it is, anything else gives ''. */
  function CommaSeparated(arg: Value): (r: string)
    ensures arg.Str? ==> r == arg.s
    ensures !arg.Str? && !arg.List? ==> r == ""
  {
    match arg
    case List(items) => Join(seq(|items|, i requires 0 <= i < |items| => ElemText(items[i])), ", ")
    case Str(x) => x
    case _ => ""
  }

  /** An array of names gives the same clause as the names written with ', '. */
  lemma CommaSeparatedOfNames(xs: seq<string>)
    ensures CommaSeparated(List(seq(|xs|, i requires 0 <= i < |xs| => Str(xs[i])))) == Join(xs, ", ")
  {
    var items := seq(|xs|, i requires 0 <= i < |xs| => Str(xs[i]));
    var texts := seq(|items|, i requires 0 <= i < |items| => ElemText(items[i]));
    forall i | 0 <= i < |xs| ensures texts[i] == xs[i] {
      assert items[i] == Str(xs[i]);
      assert ElemText(Str(xs[i])) == ToText(Str(xs[i])) == xs[i];
    }
    assert texts == xs;
  }

  /** `group_by(set)`: replaces the clause text; nothing else changes. */
  function GroupBy(s: State, arg: Value): (r: State)
    ensures r.groupBy == CommaSeparated(arg) && r.(groupBy := s.groupBy) == s
  {
    s.(groupBy := CommaSeparated(arg))
  }

  /** `having(set)`: replaces the clause text; nothing else changes. */
  function Having(s: State, arg: Value): (r: State)
    ensures r.having == CommaSeparated(arg) && r.(having := s.having) == s
  {
    s.(having := CommaSeparated(arg))
  }

  /** `order_by(set)`: replaces the clause text; nothing else changes. */
  function OrderBy(s: State, arg: Value): (r: State)
    ensures r.orderBy == CommaSeparated(arg) && r.(orderBy := s.orderBy) == s
  {
    s.(orderBy := CommaSeparated(arg))
  }

  /** `limit(newLimit, newOffset)`: each is taken only when it is a number. */
  function Limit(s: State, newLimit: Value, newOffset: Value): (r: State)
    ensures r.limit == (if newLimit.Num? then newLimit.n else s.limit)
    ensures r.offset == (if newOffset.Num? then newOffset.n else s.offset)
    ensures r.(limit := s.limit, offset := s.offset) == s
  {
    var l := if newLimit.Num? then newLimit.n else s.limit;
    var o := if newOffset.Num? then newOffset.n else s.offset;
    s.(limit := l, offset := o)
  }
}
