/** The terminal methods (index.js:749-912): each one compiles its statement,
    hands the SQL to the driver and resets the builder with `resetQuery`. The
    driver call itself is not modelled; what is sent is returned instead. */
module Terminal {
  import opened Text
  import opened Values
  import opened Results
  import opened Identifiers
  import opened IdentifierFacts
  import opened Builder
  import opened Conditions
  import opened Sources
  import opened Compile
  import opened Columns
  import opened ConditionFacts

  /** What a terminal method did: it sent `sql` to the driver and left the
      builder in `next`, or it sent nothing and left the builder as it was. */
  datatype Outcome = Sent(sql: string, next: State) | Skipped

  /** Sending `sql`: the driver receives it and the builder is reset with it
      as the last query. */
  function Send(sql: string): (r: Outcome)
    ensures r.Sent? && r.sql == sql && Clean(r.next) && r.next.lastQuery == sql
  {
    Sent(sql, Reset(sql))
  }

  /** An argument the caller may leave out. */
  datatype Given<T> = Absent | Present(value: T)

  /** The data of an insert: one object of column/value pairs, or an array
      of such objects (a batch). */
  datatype DataSet = Row(pairs: seq<(string, Value)>) | Rows(rows: seq<seq<(string, Value)>>)

  /** The first argument of `get` and `delete`: a table specification, or
      the response callback itself, in which case the tables named earlier
      with `from` are used. */
  datatype Target = Table(tables: Tables) | Callback

  // ----------------------------------------------------------------- insert

  /** The verb, 'INSERT' when none is given. */
  function VerbText(verb: Given<string>): string {
    match verb
    case Absent => "INSERT"
    case Present(v) => v
  }

  /** The query suffix: anything but a string counts as none. */
  function SuffixText(suffix: Value): string {
    if suffix.Str? then suffix.s else ""
  }

  /** The statement `insert` sends for one row: `<verb> into <table>`, the
      SET clause, and the suffix after a space when there is one. */
  function InsertText(protect: string -> string, escape: Value -> string, verb: string, table: string, pairs: seq<(string, Value)>, suffix: string): (r: string)
    ensures var head := verb + " into " + protect(table); |head| <= |r| && r[..|head|] == head
    ensures |verb| + 6 <= |r| && r[..|verb| + 6] == verb + " into "
  {
    var head := verb + " into " + protect(table);
    assert head[..|verb| + 6] == verb + " into ";
    var sql := head + BuildDataString(protect, escape, pairs, ", ", "SET");
    var full := if suffix != "" then sql + " " + suffix else sql;
    assert full[..|head|] == head;
    full
  }

  /** `insert(tableName, dataSet, callback, verb, querySuffix)`: a batch goes
      to `doBatchInsert` (which ignores the suffix); a single row is sent
      when the table name is a string, and nothing happens otherwise. */
  function Insert(s: State, escape: Value -> string, table: Value, data: DataSet, verb: Given<string>, suffix: Value): (r: Result<Outcome>)
    ensures data.Row? ==> r.Ok?
    ensures data.Row? ==> (r.value.Sent? <==> table.Str?)
    ensures data.Row? && table.Str? ==>
              var head := VerbText(verb) + " into ";
              |head| <= |r.value.sql| && r.value.sql[..|head|] == head
    ensures r.Ok? && r.value.Sent? ==> r.value.next == Reset(r.value.sql)
    ensures data.Rows? ==> r == BatchInsert(s, escape, VerbText(verb), table, data.rows)
  {
    match data
    case Rows(rows) => BatchInsert(s, escape, VerbText(verb), table, rows)
    case Row(pairs) =>
      if table.Str? then Ok(Send(InsertText(Protector(s.aliases), escape, VerbText(verb), table.s, pairs, SuffixText(suffix))))
      else Ok(Skipped)
  }

  /** `insert_ignore`: `insert` with the verb 'INSERT IGNORE'. A single row
      goes out as "INSERT IGNORE into ..."; an array of rows takes the batch
      path, whose statement starts "INSERT IGNORE INTO ". */
  function InsertIgnore(s: State, escape: Value -> string, table: Value, data: DataSet, suffix: Value): (r: Result<Outcome>)
    ensures data.Row? && table.Str? ==> r.Ok? && r.value.Sent? && |r.value.sql| >= 19 && r.value.sql[..19] == "INSERT IGNORE into "
    ensures data.Row? && !table.Str? ==> r == Ok(Skipped)
    ensures data.Rows? ==> r == BatchInsert(s, escape, "INSERT IGNORE", table, data.rows)
    ensures data.Rows? && r.Ok? && r.value.Sent? ==> StartsWith(r.value.sql, "INSERT IGNORE INTO ")
  {
    if data.Rows? then
      var r := BatchInsert(s, escape, "INSERT IGNORE", table, data.rows);
      assert r == Insert(s, escape, table, data, Present("INSERT IGNORE"), suffix);
      assert "INSERT IGNORE" + " INTO " == "INSERT IGNORE INTO ";
      r
    else
      assert VerbText(Present("INSERT IGNORE")) + " into " == "INSERT IGNORE into ";
      Insert(s, escape, table, data, Present("INSERT IGNORE"), suffix)
  }

  // -------------------------------------------------------------- batch insert

  /** The keys of a row, in enumeration order. */
  function Keys(row: seq<(string, Value)>): (r: seq<string>)
    ensures |r| == |row| && forall i :: 0 <= i < |row| ==> r[i] == row[i].0
  {
    seq(|row|, i requires 0 <= i < |row| => row[i].0)
  }

  /** The escaped values of a row, in enumeration order. */
  function RowValues(escape: Value -> string, row: seq<(string, Value)>): (r: seq<string>)
    ensures |r| == |row| && forall i :: 0 <= i < |row| ==> r[i] == escape(row[i].1)
  {
    seq(|row|, i requires 0 <= i < |row| => escape(row[i].1))
  }

  /** The column list `doBatchInsert` builds from the first row's keys: each
      key is protected and appended unless the RAW key already occurs among
      the protected entries collected so far. */
  function BatchColumns(protect: string -> string, keys: seq<string>, columns: seq<string>): seq<string>
    decreases |keys|
  {
    if |keys| == 0 then columns
    else BatchColumns(protect, keys[1..], if keys[0] in columns then columns else columns + [protect(keys[0])])
  }

  /** Position of the first row whose size differs from `n`, or |rows|. */
  function FirstMismatch(rows: seq<seq<(string, Value)>>, n: nat): (i: nat)
    ensures i <= |rows|
    ensures forall j :: 0 <= j < i ==> |rows[j]| == n
    ensures i < |rows| ==> |rows[i]| != n
    ensures (forall j :: 0 <= j < |rows| ==> |rows[j]| == n) ==> i == |rows|
  {
    if |rows| == 0 then 0
    else if |rows[0]| != n then 0
    else 1 + FirstMismatch(rows[1..], n)
  }

  /** One parenthesised tuple of escaped values. */
  function Tuple(escape: Value -> string, row: seq<(string, Value)>): string {
    "(" + Join(RowValues(escape, row), ",") + ")"
  }

  function Tuples(escape: Value -> string, rows: seq<seq<(string, Value)>>): (r: seq<string>)
    ensures |r| == |rows| && forall i :: 0 <= i < |rows| ==> r[i] == Tuple(escape, rows[i])
  {
    seq(|rows|, i requires 0 <= i < |rows| => Tuple(escape, rows[i]))
  }

  /** The message of a row whose size differs from the column count. */
  function MismatchMessage(table: Value, row: seq<string>, columns: seq<string>): (m: string)
    ensures IsMismatchMessage(m)
  {
    var m := "Cannot use batch insert into " + ToText(table) + " - fields must match on all rows ("
      + Join(row, ",") + " vs " + Join(columns, ",") + ").";
    assert m[..29] == "Cannot use batch insert into ";
    m
  }

  predicate IsMismatchMessage(m: string) {
    |m| >= 29 && m[..29] == "Cannot use batch insert into "
  }

  /** A value `protectIdentifiers` accepts: a string, or a plain object whose
      values are all, recursively, accepted. */
  predicate Protectable(v: Value)
    decreases v
  {
    match v
    case Str(_) => true
    case Obj(fields) => forall k :: 0 <= k < |fields| ==> Protectable(fields[k].1)
    case _ => false
  }

  /** A JavaScript `TypeError` carrying `detail`; never the mismatch error. */
  function TypeError(detail: string): (r: string)
    ensures !IsMismatchMessage(r)
  {
    var m := "TypeError: " + detail;
    assert m[0] == 'T';
    m
  }

  /** The TypeError `item.replace(...)` raises on a value without string
      methods, as V8 words it. */
  function ReplaceError(v: Value): (r: string)
    ensures !IsMismatchMessage(r)
  {
    if v.Null? then TypeError("Cannot read properties of null (reading 'replace')")
    else TypeError("item.replace is not a function")
  }

  /** The object branch of `protectIdentifiers` from the `i`-th value on:
      each value is protected in turn, a nested object recursively, and the
      first value that is neither a string nor a plain object stops the walk
      with the TypeError of `item.replace`. The object it builds converts to
      "[object Object]". */
  function ProtectFields(v: Value, i: nat): (r: Result<string>)
    requires v.Obj? && i <= |v.fields|
    ensures r.Ok? <==> forall k :: i <= k < |v.fields| ==> Protectable(v.fields[k].1)
    ensures r.Ok? ==> r.value == "[object Object]"
    ensures r.Err? ==> !IsMismatchMessage(r.message)
    decreases v, |v.fields| - i
  {
    if i == |v.fields| then Ok("[object Object]")
    else
      var x := v.fields[i].1;
      var head := if x.Str? then Ok("") else if x.Obj? then ProtectFields(x, 0) else Err(ReplaceError(x));
      if head.Err? then head else ProtectFields(v, i + 1)
  }

  /** `protectIdentifiers` on the batch's table name: a string is protected;
      a plain object is walked value by value and, when every value is
      accepted, comes back as an object whose string form is
      "[object Object]"; any other value has no `replace` method. */
  function BatchTable(protect: string -> string, table: Value): (r: Result<string>)
    ensures r.Ok? <==> Protectable(table)
    ensures r.Err? ==> !IsMismatchMessage(r.message)
    ensures table.Str? ==> r == Ok(protect(table.s))
    ensures table.Obj? && r.Ok? ==> r.value == "[object Object]"
  {
    match table
    case Str(t) => Ok(protect(t))
    case Obj(_) => ProtectFields(table, 0)
    case _ => Err(ReplaceError(table))
  }

  /** `doBatchInsert(verb, tableName, dataSet)`: nothing for no rows; an
      error naming the first row whose size differs from the column count;
      otherwise `<verb> INTO <table> (<columns>) VALUES(...),(...)`. */
  function BatchInsert(s: State, escape: Value -> string, verb: string, table: Value, rows: seq<seq<(string, Value)>>): (r: Result<Outcome>)
    ensures rows == [] ==> r == Ok(Skipped)
    ensures r.Ok? && r.value.Sent? ==> r.value.next == Reset(r.value.sql)
    ensures rows != [] ==>
              var columns := BatchColumns(Protector(s.aliases), Keys(rows[0]), []);
              (r.Err? && IsMismatchMessage(r.message) <==> exists i :: 0 <= i < |rows| && |rows[i]| != |columns|)
              && ((forall i :: 0 <= i < |rows| ==> |rows[i]| == |columns|) ==> (r.Ok? <==> Protectable(table)))
    ensures r.Ok? ==> (r.value.Sent? <==> rows != [])
    ensures r.Ok? && r.value.Sent? ==> StartsWith(r.value.sql, verb + " INTO ")
  {
    if |rows| == 0 then Ok(Skipped)
    else BatchWith(escape, verb, table, BatchTable(Protector(s.aliases), table), BatchColumns(Protector(s.aliases), Keys(rows[0]), []), rows)
  }

  /** The batch once its column list and protected table name are known. */
  function BatchWith(escape: Value -> string, verb: string, table: Value, name: Result<string>, columns: seq<string>, rows: seq<seq<(string, Value)>>): (r: Result<Outcome>)
    requires name.Err? ==> !IsMismatchMessage(name.message)
    ensures r.Ok? ==> r.value.Sent? && r.value.next == Reset(r.value.sql)
    ensures r.Err? && IsMismatchMessage(r.message) <==> exists i :: 0 <= i < |rows| && |rows[i]| != |columns|
    ensures (forall i :: 0 <= i < |rows| ==> |rows[i]| == |columns|) ==> (r.Ok? <==> name.Ok?)
    ensures r.Ok? ==> StartsWith(r.value.sql, verb + " INTO ")
  {
    var i := FirstMismatch(rows, |columns|);
    if i < |rows| then Err(MismatchMessage(table, RowValues(escape, rows[i]), columns))
    else
      var n :- name;
      var sql := BatchText(escape, verb, n, columns, rows);
      assert sql[..|verb| + 6] == verb + " INTO ";
      Ok(Send(sql))
  }

  /** `<verb> INTO <name> (<columns>) VALUES(...),(...)`: no space before
      the first tuple and none between tuples. */
  function BatchText(escape: Value -> string, verb: string, name: string, columns: seq<string>, rows: seq<seq<(string, Value)>>): string {
    verb + " INTO " + name + " (" + Join(columns, ", ") + ") VALUES" + Join(Tuples(escape, rows), ",")
  }

  // ------------------------------------------------------------ get, delete

  /** The tables of `get` and `delete`: a table argument is tracked and added
      with `from`; a bare callback needs tables named earlier. */
  function Prepare(s: State, target: Target, what: string): (r: Result<State>)
    ensures r.Err? <==> (target.Callback? && s.fromArray == [])
                        || (target.Table? && TrackAliases(s.aliases, target.tables).Err?)
    ensures target.Callback? && r.Ok? ==> r.value == s
    ensures target.Callback? && r.Err? ==> r.message == "You have not specified any tables to " + what + " from!"
  {
    match target
    case Table(t) =>
      var aliases :- TrackAliases(s.aliases, t);
      Ok(From(s.(aliases := aliases), t))
    case Callback =>
      if |s.fromArray| == 0 then Err("You have not specified any tables to " + what + " from!")
      else Ok(s)
  }

  /** `get(table, callback)`: the compiled SELECT. */
  function Get(s: State, target: Target): (r: Result<Outcome>)
    ensures r.Err? <==> Prepare(s, target, "select").Err?
    ensures r.Ok? ==> r.value.Sent? && r.value.next == Reset(r.value.sql)
    ensures r.Ok? ==> |r.value.sql| >= 7 && r.value.sql[..7] == "SELECT "
  {
    var s1 :- Prepare(s, target, "select");
    Ok(Send(CompileSelect(s1)))
  }

  /** `get_where(table, where)`: the table is added with `from` unless it is
      '', the conditions with `where` unless they are null; nothing is
      tracked beyond what `from` tracks. */
  function GetWhere(s: State, quote: string -> string, table: Tables, where: Given<WhereKey>): (r: Outcome)
    ensures r.Sent? && r.next == Reset(r.sql)
    ensures |r.sql| >= 7 && r.sql[..7] == "SELECT "
  {
    var s1 := if table == One("") then s else From(s, table);
    var s2 := if where.Present? then Where(s1, quote, where.value, Null, false, And) else s1;
    Send(CompileSelect(s2))
  }

  /** The statement `update` sends: `UPDATE <table>`, the SET clause, the
      WHERE clause and the LIMIT when set. */
  function UpdateText(protect: string -> string, escape: Value -> string, table: string, pairs: seq<(string, Value)>, whereClause: string, limit: int): (r: string)
    ensures |r| >= 7 && r[..7] == "UPDATE "
  {
    var sql := "UPDATE " + protect(table) + BuildDataString(protect, escape, pairs, ", ", "SET")
      + whereClause + OptionalNumber(" LIMIT ", limit);
    assert sql[..7] == "UPDATE ";
    sql
  }

  /** `update(tableName, newData)`: nothing is sent when the table name is
      not a string. */
  function Update(s: State, escape: Value -> string, table: Value, pairs: seq<(string, Value)>): (r: Outcome)
    ensures r.Sent? <==> table.Str?
    ensures r.Sent? ==> r.next == Reset(r.sql) && |r.sql| >= 7 && r.sql[..7] == "UPDATE "
  {
    if table.Str? then Send(UpdateText(Protector(s.aliases), escape, table.s, pairs, BuildWhere(s), s.limit))
    else Skipped
  }

  /** `delete(tableName)`: `DELETE`, the FROM and WHERE clauses and the
      LIMIT when set. */
  function Delete(s: State, target: Target): (r: Result<Outcome>)
    ensures r.Err? <==> Prepare(s, target, "delete").Err?
    ensures r.Ok? ==> r.value.Sent? && r.value.next == Reset(r.value.sql)
    ensures r.Ok? ==> |r.value.sql| >= 6 && r.value.sql[..6] == "DELETE"
  {
    var s1 :- Prepare(s, target, "delete");
    var sql := "DELETE" + BuildFrom(s1) + BuildWhere(s1) + OptionalNumber(" LIMIT ", s1.limit);
    assert sql[..6] == "DELETE";
    Ok(Send(sql))
  }

  /** `query(sql)`: the text is sent as given. */
  function Query(sql: string): (r: Outcome)
    ensures r.Sent? && r.sql == sql && r.next.lastQuery == sql && Clean(r.next)
  {
    Send(sql)
  }

  // ---------------------------------------------------------------- after send

  /** Whatever a statement accumulated is gone once it is sent: the next
      select compiles to "SELECT *()" and a callback-only `get` or `delete`
      finds no table. */
  lemma SentLeavesNothing(o: Outcome)
    requires o.Sent? && o.next == Reset(o.sql)
    ensures CompileSelect(o.next) == "SELECT *()"
    ensures Get(o.next, Callback).Err? && Delete(o.next, Callback).Err?
  {
    CompileSelectOfClean(o.next);
  }

  // ------------------------------------------------------------ insert facts

  /** A name between backticks, as `protectIdentifiers` writes a bare column. */
  function Tick(n: string): string {
    "`" + n + "`"
  }

  /** A row with no object values: every assignment after SET, separated
      by ", ", then the suffix after a space when there is one. */
  lemma InsertTextJoins(protect: string -> string, escape: Value -> string, verb: string, t: string, pairs: seq<(string, Value)>, suffix: string)
    requires pairs != []
    requires forall k :: 0 <= k < |pairs| ==> !IsObject(pairs[k].1)
    ensures var body := verb + " into " + protect(t) + " SET " + Join(Assignments(protect, escape, pairs), ", ");
            InsertText(protect, escape, verb, t, pairs, suffix) == if suffix != "" then body + " " + suffix else body
  {
    DataStringJoins(protect, escape, pairs, ", ", "SET");
  }

  /** `insert('t', {..})` with no object values, on a bare table name. */
  lemma InsertRowText(s: State, escape: Value -> string, t: string, pairs: seq<(string, Value)>, verb: Given<string>, suffix: Value)
    requires Column(t) && pairs != []
    requires forall k :: 0 <= k < |pairs| ==> !IsObject(pairs[k].1)
    ensures var body := VerbText(verb) + " into " + Tick(t) + " SET " + Join(Assignments(Protector(s.aliases), escape, pairs), ", ");
            var sfx := SuffixText(suffix);
            Insert(s, escape, Str(t), Row(pairs), verb, suffix) == Ok(Send(if sfx != "" then body + " " + sfx else body))
  {
    ProtectorOfColumn(s.aliases, t);
    InsertTextJoins(Protector(s.aliases), escape, VerbText(verb), t, pairs, SuffixText(suffix));
  }

  lemma InsertTextOfEmptyRow(protect: string -> string, escape: Value -> string, verb: string, t: string)
    ensures InsertText(protect, escape, verb, t, [], "") == verb + " into " + protect(t)
  {
    assert BuildDataString(protect, escape, [], ", ", "SET") == "";
  }

  /** An empty row still sends the statement, with no SET clause at all. */
  lemma InsertEmptyRow(s: State, escape: Value -> string, t: string, verb: Given<string>)
    requires Column(t)
    ensures Insert(s, escape, Str(t), Row([]), verb, Null) == Ok(Send(VerbText(verb) + " into " + Tick(t)))
  {
    ProtectorOfColumn(s.aliases, t);
    InsertTextOfEmptyRow(Protector(s.aliases), escape, VerbText(verb), t);
  }

  // ------------------------------------------------------ batch insert facts

  /** Each key between backticks. */
  function Ticked(keys: seq<string>): (r: seq<string>)
    ensures |r| == |keys| && forall i :: 0 <= i < |keys| ==> r[i] == Tick(keys[i])
  {
    seq(|keys|, i requires 0 <= i < |keys| => Tick(keys[i]))
  }

  /** When no key equals the protected form of any key, every key yields
      one column, in order. */
  lemma {:induction false} BatchColumnsKeepsAll(protect: string -> string, keys: seq<string>, columns: seq<string>)
    requires forall i, j :: 0 <= i < |keys| && 0 <= j < |keys| ==> keys[i] != protect(keys[j])
    requires forall i :: 0 <= i < |keys| ==> keys[i] !in columns
    ensures BatchColumns(protect, keys, columns) == columns + Map(protect, keys)
    decreases |keys|
  {
    if |keys| > 0 {
      var next := columns + [protect(keys[0])];
      forall i | 0 <= i < |keys[1..]|
        ensures keys[1..][i] !in next
      {
        assert keys[1..][i] == keys[i + 1];
      }
      BatchColumnsKeepsAll(protect, keys[1..], next);
      assert next + Map(protect, keys[1..]) == columns + Map(protect, keys);
    }
  }

  /** Bare column names as keys become their ticked forms, all of them. */
  lemma BatchColumnsOfColumns(aliases: seq<string>, keys: seq<string>)
    requires forall i :: 0 <= i < |keys| ==> Column(keys[i])
    ensures BatchColumns(Protector(aliases), keys, []) == Ticked(keys)
  {
    var protect := Protector(aliases);
    forall j | 0 <= j < |keys|
      ensures protect(keys[j]) == "`" + keys[j] + "`"
    {
      ProtectorOfColumn(aliases, keys[j]);
    }
    forall i, j | 0 <= i < |keys| && 0 <= j < |keys|
      ensures keys[i] != protect(keys[j])
    {
      PlainNoSpace(keys[i]);
      assert protect(keys[j])[0] == '`';
      assert |keys[i]| > 0;
    }
    BatchColumnsKeepsAll(protect, keys, []);
  }

  /** The raw key is looked up among protected entries: a key spelled as the
      protected form of an earlier key is dropped from the column list. */
  lemma BatchColumnsDropsTickedTwin(protect: string -> string, k: string)
    ensures BatchColumns(protect, [k, protect(k)], []) == [protect(k)]
  {
    var keys := [k, protect(k)];
    assert keys[0] !in [];
    assert [] + [protect(k)] == [protect(k)];
    assert keys[1..] == [protect(k)];
    assert BatchColumns(protect, keys, []) == BatchColumns(protect, [protect(k)], [protect(k)]);
    var one := [protect(k)];
    assert one[0] in one && one[1..] == [];
    assert BatchColumns(protect, one, one) == BatchColumns(protect, [], one);
  }

  /** ... so a row holding both `a` and "`a`" is refused, though its keys are
      distinct. */
  lemma BatchRejectsTickedTwin(s: State, escape: Value -> string, verb: string, table: Value, k: string, v1: Value, v2: Value)
    ensures var rows := [[(k, v1), (Protector(s.aliases)(k), v2)]];
            var r := BatchInsert(s, escape, verb, table, rows);
            r.Err? && IsMismatchMessage(r.message)
  {
    var protect := Protector(s.aliases);
    var rows := [[(k, v1), (protect(k), v2)]];
    assert Keys(rows[0]) == [k, protect(k)];
    BatchColumnsDropsTickedTwin(protect, k);
    assert |rows[0]| != |BatchColumns(protect, Keys(rows[0]), [])|;
  }

  /** Rows that all have as many values as there are columns. */
  lemma BatchWithMatching(escape: Value -> string, verb: string, table: Value, name: string, columns: seq<string>, rows: seq<seq<(string, Value)>>)
    requires forall i :: 0 <= i < |rows| ==> |rows[i]| == |columns|
    ensures BatchWith(escape, verb, table, Ok(name), columns, rows) == Ok(Send(BatchText(escape, verb, name, columns, rows)))
  {
    assert FirstMismatch(rows, |columns|) == |rows|;
  }

  /** Rows that all match the first row's bare column names, on a bare table
      name: `<verb> INTO `t` (`a`, `b`) VALUES(...),(...)`. */
  lemma BatchInsertOfColumns(s: State, escape: Value -> string, verb: string, t: string, rows: seq<seq<(string, Value)>>)
    requires Column(t) && rows != []
    requires forall i :: 0 <= i < |rows[0]| ==> Column(rows[0][i].0)
    requires forall i :: 0 <= i < |rows| ==> |rows[i]| == |rows[0]|
    ensures BatchInsert(s, escape, verb, Str(t), rows)
            == Ok(Send(verb + " INTO " + Tick(t) + " (" + Join(Ticked(Keys(rows[0])), ", ") + ") VALUES" + Join(Tuples(escape, rows), ",")))
  {
    var protect := Protector(s.aliases);
    BatchColumnsOfColumns(s.aliases, Keys(rows[0]));
    ProtectorOfColumn(s.aliases, t);
    assert BatchTable(protect, Str(t)) == Ok(Tick(t));
    BatchWithMatching(escape, verb, Str(t), Tick(t), Ticked(Keys(rows[0])), rows);
  }

  // -------------------------------------------------------------- get facts

  /** A bare column name as the table: nothing is tracked and the ticked
      name is added to the FROM entries. */
  lemma PrepareOfColumn(s: State, t: string, what: string)
    requires Column(t)
    ensures Prepare(s, Table(One(t)), what) == Ok(s.(fromArray := s.fromArray + [Tick(t)]))
  {
    PlainNoSpace(t);
    assert TrackAliases(s.aliases, One(t)) == Ok(s.aliases);
    assert s.(aliases := s.aliases) == s;
    FromOfColumn(s, t);
  }

  /** `get('t')` on a fresh builder. */
  lemma GetOfColumn(s: State, t: string)
    requires Clean(s) && Column(t)
    ensures Get(s, Table(One(t))) == Ok(Send("SELECT * FROM (" + Tick(t) + ")"))
  {
    PrepareOfColumn(s, t, "select");
    var s1 := s.(fromArray := [Tick(t)]);
    assert Get(s, Table(One(t))) == Ok(Send(CompileSelect(s1)));
    CompileSelectPlain(s1);
    assert Join([Tick(t)], ", ") == Tick(t);
    assert BuildFrom(s1) == " FROM (" + Tick(t) + ")" && BuildWhere(s1) == "";
    SelectFromText(Tick(t));
  }

  /** The concatenation step of the lemma above, proved in a small context. */
  lemma SelectFromText(x: string)
    ensures "SELECT *" + (" FROM (" + x + ")") + "" == "SELECT * FROM (" + x + ")"
  {
    assert "SELECT *" + " FROM (" == "SELECT * FROM (";
  }

  /** `where({k: v})` on a bare column, through `get_where`. */
  lemma WhereOfOnePair(s: State, quote: string -> string, k: string, v: Value)
    requires Column(k) && !IsNonEmptyList(v) && s.whereArray == []
    ensures var r := Where(s, quote, Pairs([(k, v)]), Null, false, And);
            r.whereArray == [Condition(quote, k, v, true)]
  {
    assert KeyPairs(Pairs([(k, v)]), OrNull(Null)) == [(k, v)];
    assert Where(s, quote, Pairs([(k, v)]), Null, false, And) == WherePairs(s, quote, [(k, v)], And, true);
    WhereOnePair(s, quote, k, v, And, true);
    assert Connective(|s.whereArray|, And) + Condition(quote, k, v, true) == Condition(quote, k, v, true);
  }

  /** `get_where('t', {k: v})` on a fresh builder: one escaped comparison. */
  lemma GetWhereOfColumns(s: State, quote: string -> string, t: string, k: string, v: Value)
    requires Clean(s) && Column(t) && Column(k) && !IsNonEmptyList(v)
    ensures GetWhere(s, quote, One(t), Present(Pairs([(k, v)]))).sql
            == "SELECT * FROM (" + Tick(t) + ") WHERE " + Condition(quote, k, v, true)
  {
    FromOfColumn(s, t);
    var s1 := s.(fromArray := [Tick(t)]);
    assert From(s, One(t)) == s1;
    WhereOfOnePair(s1, quote, k, v);
    var s2 := Where(s1, quote, Pairs([(k, v)]), Null, false, And);
    CompileSelectOneTableWhere(s2, Tick(t), Condition(quote, k, v, true));
  }

  /** `get_where('', null)` adds nothing and sends the bare "SELECT *()". */
  lemma GetWhereOfNothing(s: State, quote: string -> string)
    requires Clean(s)
    ensures GetWhere(s, quote, One(""), Absent).sql == "SELECT *()"
  {
    CompileSelectOfClean(s);
  }

  // ----------------------------------------------------------- update facts

  /** `update` reads only the alias registry, the WHERE fragments and the
      limit: tables, joins, selected columns, ordering, grouping, offset and
      the distinct marker are ignored. */
  lemma UpdateReadsOnly(s: State, u: State, escape: Value -> string, table: Value, pairs: seq<(string, Value)>)
    requires u.aliases == s.aliases && u.whereArray == s.whereArray && u.limit == s.limit
    ensures Update(u, escape, table, pairs) == Update(s, escape, table, pairs)
  {
  }

  /** An update with no object values: every assignment after SET,
      separated by ", ". */
  lemma UpdateTextJoins(protect: string -> string, escape: Value -> string, t: string, pairs: seq<(string, Value)>, whereClause: string, limit: int)
    requires pairs != []
    requires forall k :: 0 <= k < |pairs| ==> !IsObject(pairs[k].1)
    ensures UpdateText(protect, escape, t, pairs, whereClause, limit)
            == "UPDATE " + protect(t) + " SET " + Join(Assignments(protect, escape, pairs), ", ") + whereClause + OptionalNumber(" LIMIT ", limit)
  {
    DataStringJoins(protect, escape, pairs, ", ", "SET");
  }

  /** `update('t', {..})` with no object values, on a bare table name. */
  lemma UpdateOfColumn(s: State, escape: Value -> string, t: string, pairs: seq<(string, Value)>)
    requires Column(t) && pairs != []
    requires forall k :: 0 <= k < |pairs| ==> !IsObject(pairs[k].1)
    ensures Update(s, escape, Str(t), pairs)
            == Send("UPDATE " + Tick(t) + " SET " + Join(Assignments(Protector(s.aliases), escape, pairs), ", ")
                    + BuildWhere(s) + OptionalNumber(" LIMIT ", s.limit))
  {
    ProtectorOfColumn(s.aliases, t);
    UpdateTextJoins(Protector(s.aliases), escape, t, pairs, BuildWhere(s), s.limit);
  }

  // ----------------------------------------------------------- delete facts

  /** `delete` on the tables named earlier ignores joins, selected columns,
      grouping, ordering, offset and the distinct marker. */
  lemma DeleteIgnoresSelectParts(s: State, selects: seq<string>, joins: seq<string>, order: string, group: string, having: string, offset: int, distinct: string)
    ensures Delete(s.(selectArray := selects, joinArray := joins, orderBy := order, groupBy := group,
                      having := having, offset := offset, distinct := distinct), Callback)
            == Delete(s, Callback)
  {
  }

  /** `delete([])` on a fresh builder names no table and still sends
      "DELETE()". */
  lemma DeleteOfNothing(s: State)
    requires Clean(s)
    ensures Delete(s, Table(Many([]))) == Ok(Send("DELETE()"))
  {
    assert TrackAliases(s.aliases, Many([])) == Ok(s.aliases);
    assert From(s, Many([])) == s;
    assert Prepare(s, Table(Many([])), "delete") == Ok(s);
    assert BuildFrom(s) == "()" && BuildWhere(s) == "";
    assert Delete(s, Table(Many([]))) == Ok(Send("DELETE" + BuildFrom(s) + BuildWhere(s) + OptionalNumber(" LIMIT ", s.limit)));
    assert "DELETE" + "()" + "" + "" == "DELETE()";
  }

  /** `delete('t')` on a fresh builder. */
  lemma DeleteOfColumn(s: State, t: string)
    requires Clean(s) && Column(t)
    ensures Delete(s, Table(One(t))) == Ok(Send("DELETE FROM (" + Tick(t) + ")"))
  {
    PrepareOfColumn(s, t, "delete");
    var s1 := s.(fromArray := [Tick(t)]);
    assert Join([Tick(t)], ", ") == Tick(t);
    assert BuildFrom(s1) == " FROM (" + Tick(t) + ")" && BuildWhere(s1) == "";
    assert Delete(s, Table(One(t))) == Ok(Send("DELETE" + BuildFrom(s1) + BuildWhere(s1) + OptionalNumber(" LIMIT ", -1)));
    DeleteFromText(Tick(t));
  }

  /** The concatenation step of the lemma above, proved in a small context. */
  lemma DeleteFromText(x: string)
    ensures "DELETE" + (" FROM (" + x + ")") + "" + "" == "DELETE FROM (" + x + ")"
  {
    assert "DELETE" + " FROM (" == "DELETE FROM (";
  }
}
