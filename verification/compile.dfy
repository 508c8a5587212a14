/** The clause compilers: `buildWhereClause`, `buildFromClause`,
    `buildDataString` and `buildJoinString` (index.js:234-293), and
    `compileSelect` (index.js:350-367). */
module Compile {
  import opened Text
  import opened Values
  import opened Builder

  /** `buildWhereClause`: the fragments joined by single spaces, after
      " WHERE " when there is at least one. */
  function BuildWhere(s: State): (r: string)
    ensures s.whereArray == [] ==> r == ""
    ensures s.whereArray != [] ==> |r| >= 7 && r[..7] == " WHERE " && r[7..] == Join(s.whereArray, " ")
  {
    (if |s.whereArray| > 0 then " WHERE " else "") + Join(s.whereArray, " ")
  }

  /** `buildFromClause`: the entries joined by ", " inside parentheses, after
      " FROM " when there is at least one. The parentheses are written even
      when there is no entry. */
  function BuildFrom(s: State): (r: string)
    ensures s.fromArray == [] ==> r == "()"
    ensures s.fromArray != [] ==> r == " FROM (" + Join(s.fromArray, ", ") + ")"
  {
    (if |s.fromArray| > 0 then " FROM " else "") + "(" + Join(s.fromArray, ", ") + ")"
  }

  /** `buildJoinString`: the join entries separated by single spaces, led by
      one space when the result is not empty. */
  function BuildJoin(s: State): (r: string)
    ensures Join(s.joinArray, " ") == "" <==> r == ""
    ensures r != "" ==> r[0] == ' ' && r[1..] == Join(s.joinArray, " ")
  {
    var sql := Join(s.joinArray, " ");
    if |sql| > 0 then " " + sql else sql
  }

  // -------------------------------------------------------- buildDataString

  /** `key=value` for one assignment, or nothing for an object value. */
  function Assignment(protect: string -> string, escape: Value -> string, key: string, v: Value): string {
    protect(key) + (if v.Null? then "=NULL" else "=" + escape(v))
  }

  /** An object or array value, which `buildDataString` skips. */
  predicate IsObject(v: Value) {
    v.Obj? || v.List?
  }

  /** The loop of `buildDataString` from the pair at hand on: `y` counts the
      separators written plus one, `size` the pairs minus the objects met so
      far. An object is skipped and lowers `size`; any other pair writes its
      assignment and then a separator while `y < size`. */
  function DataLoop(protect: string -> string, escape: Value -> string, pairs: seq<(string, Value)>, sep: string, y: int, size: int): string
    decreases |pairs|
  {
    if |pairs| == 0 then ""
    else
      var (k, v) := pairs[0];
      if IsObject(v) then DataLoop(protect, escape, pairs[1..], sep, y, size - 1)
      else if y < size then Assignment(protect, escape, k, v) + sep + DataLoop(protect, escape, pairs[1..], sep, y + 1, size)
      else Assignment(protect, escape, k, v) + DataLoop(protect, escape, pairs[1..], sep, y, size)
  }

  /** `buildDataString(dataSet, separator, clause)`: keys are protected by
      `protect`, values escaped by the driver's `escape`; the clause and
      separator default to 'SET' and ', '. A non-empty data set is led by
      the clause between spaces. */
  function BuildDataString(protect: string -> string, escape: Value -> string, pairs: seq<(string, Value)>, separator: string, clause: string): (r: string)
    ensures pairs == [] ==> r == ""
  {
    var c := if clause == "" then "SET" else clause;
    var sep := if separator == "" then ", " else separator;
    var q := DataLoop(protect, escape, pairs, sep, 1, |pairs|);
    if |pairs| > 0 then " " + c + " " + q else q
  }

  /** The assignments of the pairs, in order. */
  function Assignments(protect: string -> string, escape: Value -> string, pairs: seq<(string, Value)>): (r: seq<string>)
    ensures |r| == |pairs|
    ensures forall k :: 0 <= k < |pairs| ==> r[k] == Assignment(protect, escape, pairs[k].0, pairs[k].1)
  {
    seq(|pairs|, k requires 0 <= k < |pairs| => Assignment(protect, escape, pairs[k].0, pairs[k].1))
  }

  lemma {:induction false} DataLoopJoins(protect: string -> string, escape: Value -> string, pairs: seq<(string, Value)>, sep: string, y: int)
    requires forall k :: 0 <= k < |pairs| ==> !IsObject(pairs[k].1)
    ensures DataLoop(protect, escape, pairs, sep, y, y + |pairs| - 1) == Join(Assignments(protect, escape, pairs), sep)
    decreases |pairs|
  {
    if |pairs| > 1 {
      DataLoopJoins(protect, escape, pairs[1..], sep, y + 1);
      assert Assignments(protect, escape, pairs)[1..] == Assignments(protect, escape, pairs[1..]);
    } else if |pairs| == 1 {
      assert DataLoop(protect, escape, pairs[1..], sep, y, y) == "";
    }
  }

  /** Without object values the data string is the clause followed by every
      assignment, separated by the separator and with none trailing. */
  lemma DataStringJoins(protect: string -> string, escape: Value -> string, pairs: seq<(string, Value)>, sep: string, clause: string)
    requires pairs != [] && sep != "" && clause != ""
    requires forall k :: 0 <= k < |pairs| ==> !IsObject(pairs[k].1)
    ensures BuildDataString(protect, escape, pairs, sep, clause)
      == " " + clause + " " + Join(Assignments(protect, escape, pairs), sep)
  {
    DataLoopJoins(protect, escape, pairs, sep, 1);
  }

  /** An object value in last position is skipped but the separator written
      before it stays: `{a: 1, b: {}}` gives " SET `a`=1, ". */
  lemma DataStringTrailingSeparator(protect: string -> string, escape: Value -> string, k1: string, v1: Value, k2: string, v2: Value, sep: string, clause: string)
    requires !IsObject(v1) && IsObject(v2) && sep != "" && clause != ""
    ensures BuildDataString(protect, escape, [(k1, v1), (k2, v2)], sep, clause)
      == " " + clause + " " + Assignment(protect, escape, k1, v1) + sep
  {
    var pairs := [(k1, v1), (k2, v2)];
    assert pairs[1..] == [(k2, v2)];
    assert DataLoop(protect, escape, pairs[1..], sep, 2, 2) == DataLoop(protect, escape, [], sep, 2, 1);
  }

  // ----------------------------------------------------------- compileSelect

  /** The optional clause `keyword text` when the text is not blank. */
  function Optional(keyword: string, text: string): string {
    if text != "" then keyword + text else ""
  }

  /** The optional numeric clause when the value is set (not -1). */
  function OptionalNumber(keyword: string, n: int): string {
    if n != -1 then keyword + IntToString(n) else ""
  }

  /** The clauses between the select list and LIMIT, in the order
      `compileSelect` writes them. */
  function Clauses(s: State): string {
    BuildFrom(s) + BuildJoin(s) + BuildWhere(s)
    + Optional(" GROUP BY ", s.groupBy) + Optional(" HAVING ", s.having) + Optional(" ORDER BY ", s.orderBy)
  }

  /** Everything after the select list. */
  function SelectTail(s: State): string {
    Clauses(s) + OptionalNumber(" LIMIT ", s.limit) + OptionalNumber(" OFFSET ", s.offset)
  }

  predicate StartsWith(r: string, t: string) {
    |t| <= |r| && r[..|t|] == t
  }

  predicate EndsWith(r: string, t: string) {
    |t| <= |r| && r[|r| - |t|..] == t
  }

  /** The head of `compileSelect`: "SELECT ", the distinct marker, '*' when
      no column is selected, and the columns. */
  function SelectHead(s: State): string {
    "SELECT " + s.distinct + (if |s.selectArray| == 0 then "*" else "") + Join(s.selectArray, ", ")
  }

  /** `compileSelect`: the head, then the tail clauses. */
  function CompileSelect(s: State): (r: string)
    ensures |r| >= 7 && r[..7] == "SELECT "
  {
    var head := SelectHead(s);
    assert head[..7] == "SELECT ";
    head + SelectTail(s)
  }

  /** A statement with no selected column selects '*' right after the
      distinct marker. */
  lemma CompileSelectStar(s: State)
    requires s.selectArray == []
    ensures |CompileSelect(s)| > 7 + |s.distinct|
    ensures CompileSelect(s)[7..7 + |s.distinct|] == s.distinct
    ensures CompileSelect(s)[7 + |s.distinct|] == '*'
  {
    var head := SelectHead(s);
    var r := CompileSelect(s);
    assert head == "SELECT " + s.distinct + "*";
    assert r == head + SelectTail(s);
    assert r[7..7 + |s.distinct|] == head[7..7 + |s.distinct|];
    assert r[7 + |s.distinct|] == head[7 + |s.distinct|];
  }

  /** A statement with selected columns lists them, joined by ", ", right
      after the distinct marker, with no '*' added. */
  lemma CompileSelectColumns(s: State)
    requires s.selectArray != []
    ensures var p := "SELECT " + s.distinct + Join(s.selectArray, ", ");
            |p| <= |CompileSelect(s)| && CompileSelect(s)[..|p|] == p
  {
    var p := "SELECT " + s.distinct + Join(s.selectArray, ", ");
    assert SelectHead(s) == p;
    assert (p + SelectTail(s))[..|p|] == p;
  }

  /** A statement ends with its OFFSET clause when one is set, and otherwise
      with its LIMIT clause when one is set. */
  lemma CompileSelectEnds(s: State)
    ensures s.offset != -1 ==> EndsWith(CompileSelect(s), " OFFSET " + IntToString(s.offset))
    ensures s.offset == -1 && s.limit != -1 ==> EndsWith(CompileSelect(s), " LIMIT " + IntToString(s.limit))
  {
    var c, l, o := Clauses(s), OptionalNumber(" LIMIT ", s.limit), OptionalNumber(" OFFSET ", s.offset);
    assert SelectTail(s) == c + l + o;
    SuffixOfConcat(c + l, o);
    EndsWithGrows(SelectHead(s), SelectTail(s), o);
    if s.offset == -1 {
      assert c + l + o == c + l;
      SuffixOfConcat(c, l);
      EndsWithGrows(SelectHead(s), SelectTail(s), l);
    }
  }

  lemma EndsWithGrows(a: string, b: string, x: string)
    requires EndsWith(b, x)
    ensures EndsWith(a + b, x)
  {
    assert (a + b)[|a + b| - |x|..] == b[|b| - |x|..];
  }

  lemma SuffixOfConcat(a: string, b: string)
    ensures EndsWith(a + b, b)
  {
    assert (a + b)[|a + b| - |b|..] == b;
  }

  /** A statement with nothing accumulated compiles to "SELECT *()": the
      FROM parentheses are written even with no table. */
  lemma CompileSelectOfClean(s: State)
    requires Clean(s)
    ensures CompileSelect(s) == "SELECT *()"
  {
  }

  /** The pending IN-list, the alias registry and the last query take no part
      in the compiled statement. */
  lemma CompileSelectIgnores(s: State, whereIn: seq<string>, aliases: seq<string>, lastQuery: string)
    ensures CompileSelect(s.(whereInArray := whereIn, aliases := aliases, lastQuery := lastQuery)) == CompileSelect(s)
  {
  }

  /** With no column, join, grouping, ordering, limit or distinct marker
      set, a select is "SELECT *" followed by its FROM and WHERE clauses
      only. */
  lemma CompileSelectPlain(s: State)
    requires s.selectArray == [] && s.joinArray == [] && s.distinct == ""
    requires s.groupBy == "" && s.having == "" && s.orderBy == "" && s.limit == -1 && s.offset == -1
    ensures CompileSelect(s) == "SELECT *" + BuildFrom(s) + BuildWhere(s)
  {
    assert SelectHead(s) == "SELECT *";
    assert BuildJoin(s) == "";
    assert Clauses(s) == BuildFrom(s) + BuildWhere(s);
  }

  /** One table and one condition. */
  lemma CompileSelectOneTableWhere(s: State, table: string, condition: string)
    requires s.selectArray == [] && s.joinArray == [] && s.distinct == ""
    requires s.groupBy == "" && s.having == "" && s.orderBy == "" && s.limit == -1 && s.offset == -1
    requires s.fromArray == [table] && s.whereArray == [condition]
    ensures CompileSelect(s) == "SELECT * FROM (" + table + ") WHERE " + condition
  {
    CompileSelectPlain(s);
    assert Join([table], ", ") == table;
    assert Join([condition], " ") == condition;
  }
}
