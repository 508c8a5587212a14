/** The table sources of a statement: `from` (index.js:580-609) and `join`
    (index.js:611-640). */
module Sources {
  import opened Text
  import opened Values
  import opened Results
  import opened Identifiers
  import opened Builder
  import opened Relation
  import opened IdentifierFacts

  // ------------------------------------------------------------------ from

  /** Each piece trimmed, as `from` does with `.trim()`. */
  function TrimAll(xs: seq<string>): (r: seq<string>)
    ensures |r| == |xs|
    ensures forall k :: 0 <= k < |xs| ==> r[k] == Trim(xs[k])
  {
    seq(|xs|, k requires 0 <= k < |xs| => Trim(xs[k]))
  }

  /** One table entry: it is tracked and then protected against the registry
      that now holds it. The entry never holds a comma, so `trackAliases`
      does not split it and reduces to `TrackOne`. */
  function AddTable(s: State, entry: string): State {
    var aliases := TrackOne(s.aliases, entry);
    s.(aliases := aliases, fromArray := s.fromArray + [ProtectIdentifiers(aliases, entry, true)])
  }

  /** The registry after tracking the entries in order. */
  function TrackAll(aliases: seq<string>, entries: seq<string>): seq<string>
    decreases |entries|
  {
    if |entries| == 0 then aliases else TrackAll(TrackOne(aliases, entries[0]), entries[1..])
  }

  /** The entries added one after another. */
  function AddAll(s: State, entries: seq<string>): (r: State)
    ensures r.(fromArray := s.fromArray, aliases := s.aliases) == s
    ensures |r.fromArray| == |s.fromArray| + |entries| && s.fromArray <= r.fromArray
    ensures r.aliases == TrackAll(s.aliases, entries)
    decreases |entries|
  {
    if |entries| == 0 then s else AddAll(AddTable(s, entries[0]), entries[1..])
  }

  /** One element of the `from` argument: a comma string adds each trimmed
      piece, anything else is trimmed and added whole. */
  function FromValue(s: State, val: string): (r: State)
    ensures r.(fromArray := s.fromArray, aliases := s.aliases) == s
    ensures s.fromArray <= r.fromArray
  {
    if ',' in val then AddAll(s, TrimAll(Split(val, ',')))
    else AddTable(s, Trim(val))
  }

  function FromValues(s: State, vals: seq<string>): (r: State)
    ensures r.(fromArray := s.fromArray, aliases := s.aliases) == s
    ensures s.fromArray <= r.fromArray
    decreases |vals|
  {
    if |vals| == 0 then s else FromValues(FromValue(s, vals[0]), vals[1..])
  }

  /** `from(t)`: a non-array argument is wrapped into a one-element array. */
  function From(s: State, t: Tables): (r: State)
    ensures r.(fromArray := s.fromArray, aliases := s.aliases) == s
    ensures s.fromArray <= r.fromArray
  {
    match t
    case One(v) => FromValues(s, [v])
    case Many(vs) => FromValues(s, vs)
  }

  // --------------------------------------------- from: the entries it adds

  /** The trimmed comma-separated pieces of one string. */
  function Pieces(v: string): seq<string> {
    TrimAll(Split(v, ','))
  }

  function AllPieces(vs: seq<string>): seq<string>
    decreases |vs|
  {
    if |vs| == 0 then [] else Pieces(vs[0]) + AllPieces(vs[1..])
  }

  /** Every entry `from` adds, in order: the trimmed comma-separated pieces of
      each element of the argument. */
  function TablePieces(t: Tables): seq<string> {
    match t
    case One(v) => Pieces(v)
    case Many(vs) => AllPieces(vs)
  }

  lemma {:induction false} AddAllAppend(s: State, a: seq<string>, b: seq<string>)
    ensures AddAll(s, a + b) == AddAll(AddAll(s, a), b)
    decreases |a|
  {
    if |a| > 0 {
      assert (a + b)[0] == a[0] && (a + b)[1..] == a[1..] + b;
      AddAllAppend(AddTable(s, a[0]), a[1..], b);
    } else {
      assert a + b == b;
    }
  }

  lemma {:induction false} AllPiecesAppend(xs: seq<string>, ys: seq<string>)
    ensures AllPieces(xs + ys) == AllPieces(xs) + AllPieces(ys)
    decreases |xs|
  {
    if |xs| > 0 {
      assert (xs + ys)[0] == xs[0] && (xs + ys)[1..] == xs[1..] + ys;
      AllPiecesAppend(xs[1..], ys);
    } else {
      assert xs + ys == ys;
    }
  }

  /** Both branches of `from`'s loop body add the pieces of the element. */
  lemma FromValueAddsPieces(s: State, v: string)
    ensures FromValue(s, v) == AddAll(s, Pieces(v))
  {
    if ',' !in v {
      assert Split(v, ',') == [v];
      assert Pieces(v) == [Trim(v)];
    }
  }

  lemma {:induction false} FromValuesAddsPieces(s: State, vs: seq<string>)
    ensures FromValues(s, vs) == AddAll(s, AllPieces(vs))
    decreases |vs|
  {
    if |vs| > 0 {
      FromValueAddsPieces(s, vs[0]);
      FromValuesAddsPieces(FromValue(s, vs[0]), vs[1..]);
      AddAllAppend(s, Pieces(vs[0]), AllPieces(vs[1..]));
    }
  }

  /** `from` appends one entry per trimmed comma-separated piece, whatever
      the shape of its argument. */
  lemma FromAddsTablePieces(s: State, t: Tables)
    ensures From(s, t) == AddAll(s, TablePieces(t))
    ensures |From(s, t).fromArray| == |s.fromArray| + |TablePieces(t)|
  {
    match t
    case One(v) =>
      FromValuesAddsPieces(s, [v]);
      assert AllPieces([v]) == Pieces(v) + AllPieces([]);
    case Many(vs) =>
      FromValuesAddsPieces(s, vs);
  }

  /** The k-th new entry is the k-th piece, protected against the registry
      as it stands once that piece has been tracked. */
  lemma AddAllEntries(s: State, entries: seq<string>)
    ensures forall k :: 0 <= k < |entries| ==>
      AddAll(s, entries).fromArray[|s.fromArray| + k]
        == ProtectIdentifiers(TrackAll(s.aliases, entries[..k + 1]), entries[k], true)
  {
    forall k | 0 <= k < |entries|
      ensures AddAll(s, entries).fromArray[|s.fromArray| + k]
        == ProtectIdentifiers(TrackAll(s.aliases, entries[..k + 1]), entries[k], true)
    {
      AddAllEntry(s, entries, k);
    }
  }

  lemma AddAllEntry(s: State, entries: seq<string>, k: nat)
    requires k < |entries|
    ensures AddAll(s, entries).fromArray[|s.fromArray| + k]
      == ProtectIdentifiers(TrackAll(s.aliases, entries[..k + 1]), entries[k], true)
  {
    var t := AddAll(s, entries[..k]);
    SplitAt(entries, k);
    AddAllAppend(s, entries[..k], entries[k..]);
    FirstOfAddAll(t, entries[k..]);
    assert entries[..k + 1] == entries[..k] + [entries[k]];
    TrackAllAppend(s.aliases, entries[..k], [entries[k]]);
  }

  lemma SplitAt(xs: seq<string>, k: nat)
    requires k <= |xs|
    ensures xs[..k] + xs[k..] == xs
  {
  }

  lemma FirstOfAddAll(t: State, es: seq<string>)
    requires |es| > 0
    ensures AddAll(t, es).fromArray[|t.fromArray|] == ProtectIdentifiers(TrackAll(t.aliases, [es[0]]), es[0], true)
  {
    var t1 := AddTable(t, es[0]);
    assert AddAll(t, es) == AddAll(t1, es[1..]);
    assert TrackAll(t.aliases, [es[0]]) == t1.aliases by {
      assert [es[0]][1..] == [];
    }
  }

  lemma {:induction false} TrackAllAppend(aliases: seq<string>, xs: seq<string>, ys: seq<string>)
    ensures TrackAll(aliases, xs + ys) == TrackAll(TrackAll(aliases, xs), ys)
    decreases |xs|
  {
    if |xs| > 0 {
      assert (xs + ys)[0] == xs[0] && (xs + ys)[1..] == xs[1..] + ys;
      TrackAllAppend(TrackOne(aliases, xs[0]), xs[1..], ys);
    } else {
      assert xs + ys == ys;
    }
  }

  // ----------------------------------------- from: commas, arrays, chaining

  lemma {:induction false} AllPiecesOfCommaFree(xs: seq<string>)
    requires forall k :: 0 <= k < |xs| ==> ',' !in xs[k]
    ensures AllPieces(xs) == TrimAll(xs)
    decreases |xs|
  {
    if |xs| > 0 {
      AllPiecesOfCommaFree(xs[1..]);
      PiecesOfCommaFree(xs[0]);
      TrimAllStep(xs);
    }
  }

  lemma PiecesOfCommaFree(x: string)
    requires ',' !in x
    ensures Pieces(x) == [Trim(x)]
  {
    assert Split(x, ',') == [x];
  }

  lemma TrimAllStep(xs: seq<string>)
    requires |xs| > 0
    ensures TrimAll(xs) == [Trim(xs[0])] + TrimAll(xs[1..])
  {
  }

  /** A comma string and the array of its pieces add the same entries and
      track the same aliases. */
  lemma FromCommaStringIsArray(s: State, xs: seq<string>)
    requires |xs| >= 1 && forall k :: 0 <= k < |xs| ==> ',' !in xs[k]
    ensures From(s, One(Join(xs, ","))) == From(s, Many(xs))
  {
    SplitJoin(xs, ',');
    AllPiecesOfCommaFree(xs);
    FromAddsTablePieces(s, One(Join(xs, ",")));
    FromAddsTablePieces(s, Many(xs));
  }

  /** Two chained `from` calls equal one call on the concatenated array. */
  lemma FromChained(s: State, xs: seq<string>, ys: seq<string>)
    ensures From(From(s, Many(xs)), Many(ys)) == From(s, Many(xs + ys))
  {
    FromAddsTablePieces(s, Many(xs));
    FromAddsTablePieces(From(s, Many(xs)), Many(ys));
    FromAddsTablePieces(s, Many(xs + ys));
    AllPiecesAppend(xs, ys);
    AddAllAppend(s, AllPieces(xs), AllPieces(ys));
  }

  // ------------------------------------------------- from: alias registry

  predicate Distinct(xs: seq<string>) {
    forall i, j :: 0 <= i < j < |xs| ==> xs[i] != xs[j]
  }

  lemma TrackOneKeepsShape(aliases: seq<string>, e: string)
    requires AllSpaced(aliases) && Distinct(aliases)
    ensures var r := TrackOne(aliases, e); AllSpaced(r) && Distinct(r) && aliases <= r
  {
    var r := TrackOne(aliases, e);
    if r != aliases {
      var t := StripAs(e);
      assert r == aliases + [t] && ' ' in t && t !in aliases;
      forall i, j | 0 <= i < j < |r| ensures r[i] != r[j] {
        if j == |aliases| { assert r[i] == aliases[i]; }
      }
    }
  }

  lemma {:induction false} TrackAllKeepsShape(aliases: seq<string>, es: seq<string>)
    requires AllSpaced(aliases) && Distinct(aliases)
    ensures var r := TrackAll(aliases, es); AllSpaced(r) && Distinct(r) && aliases <= r
    decreases |es|
  {
    if |es| > 0 {
      TrackOneKeepsShape(aliases, es[0]);
      TrackAllKeepsShape(TrackOne(aliases, es[0]), es[1..]);
    }
  }

  /** `from` only adds to the registry, every entry of it holds a space, and
      no entry is recorded twice. */
  lemma FromKeepsRegistryShape(s: State, t: Tables)
    requires AllSpaced(s.aliases) && Distinct(s.aliases)
    ensures var a := From(s, t).aliases; AllSpaced(a) && Distinct(a) && s.aliases <= a
  {
    FromAddsTablePieces(s, t);
    TrackAllKeepsShape(s.aliases, TablePieces(t));
  }

  /** A bare column name used as a table is added between backticks and
      registers no alias. */
  lemma FromOfColumn(s: State, t: string)
    requires Column(t)
    ensures From(s, One(t)) == s.(fromArray := s.fromArray + ["`" + t + "`"])
  {
    PlainNoSpace(t);
    NoSpaceFacts(t);
    TrimOfTrimmed(t);
    ProtectColumn(s.aliases, t);
    assert FromValues(s, [t]) == FromValues(FromValue(s, t), []);
  }

  // ---------------------------------------------------------- from: example

  lemma TwoPiecesText(x: string, y: string, z: string)
    ensures x + " " + y + ", " + z == Join([x + " " + y, " " + z], [','])
  {
    assert Join([x + " " + y, " " + z], [',']) == (x + " " + y) + [','] + Join([" " + z], [',']);
  }

  lemma PairPieces(x: string, y: string, z: string)
    requires Column(x) && Column(y) && Column(z)
    ensures TablePieces(One(x + " " + y + ", " + z)) == [x + " " + y, z]
  {
    PairSplit(x, y, z);
    PairTrim(x, y, z);
  }

  lemma PairSplit(x: string, y: string, z: string)
    requires Column(x) && Column(y) && Column(z)
    ensures Split(x + " " + y + ", " + z, ',') == [x + " " + y, " " + z]
  {
    var e1, e2 := x + " " + y, " " + z;
    TwoPiecesText(x, y, z);
    SpacedCommaFree(x, y);
    assert ',' !in e2;
    SplitJoin([e1, e2], ',');
  }

  lemma SpacedCommaFree(x: string, y: string)
    requires PlainName(x) && PlainName(y)
    ensures ',' !in x + " " + y
  {
    var e := x + " " + y;
    forall i | 0 <= i < |e| ensures e[i] != ',' {
      if i < |x| { assert e[i] == x[i]; }
      else if i > |x| { assert e[i] == y[i - |x| - 1]; }
    }
  }

  lemma PairTrim(x: string, y: string, z: string)
    requires Column(x) && Column(y) && Column(z)
    ensures TrimAll([x + " " + y, " " + z]) == [x + " " + y, z]
  {
    PlainNoSpace(x);
    PlainNoSpace(y);
    PlainNoSpace(z);
    TrimOfTrimmed(x + " " + y);
    TrimLeadingSpace(z);
  }

  lemma PairTracking(x: string, y: string, z: string)
    requires Column(x) && Column(y) && Column(z)
    ensures var e1 := x + " " + y; TrackAll([], [e1]) == [e1] && TrackAll([], [e1, z]) == [e1]
  {
    var e1 := x + " " + y;
    TrackRecordsWholeEntry([], x, "as", y);
    assert TrackOne([], e1) == [e1];
    PlainNoSpace(z);
    NoSpaceFacts(z);
    assert TrackOne([e1], z) == [e1];
    assert [e1, z][1..] == [z] && [z][1..] == [];
  }

  lemma PairProtect(x: string, y: string, z: string)
    requires Column(x) && Column(y) && Column(z)
    ensures var e1 := x + " " + y;
      ProtectIdentifiers([e1], e1, true) == "`" + x + "` `" + y + "`"
      && ProtectIdentifiers([e1], z, true) == "`" + z + "`"
  {
    AliasedEntry([x + " " + y], x, y);
    ProtectColumn([x + " " + y], z);
  }

  lemma AliasedEntry(aliases: seq<string>, x: string, y: string)
    requires Column(x) && Column(y)
    ensures ProtectIdentifiers(aliases, x + " " + y, true) == "`" + x + "` `" + y + "`"
  {
    ProtectColumn([], y);
    ProtectBareAlias(aliases, x, y);
    EscapePlainName(x);
    EscapePlainName(y);
    TickedPair(x, y);
  }

  lemma TickedPair(x: string, y: string)
    ensures ("`" + x + "`") + " " + ("`" + y + "`") == "`" + x + "` `" + y + "`"
  {
  }

  /** `from("x y, z")` on a fresh statement: the aliased table keeps its
      alias, both entries are quoted, and only the spaced entry is tracked. */
  lemma FromAliasedPair(x: string, y: string, z: string)
    requires Column(x) && Column(y) && Column(z)
    ensures var r := From(Initial(), One(x + " " + y + ", " + z));
      r.fromArray == ["`" + x + "` `" + y + "`", "`" + z + "`"] && r.aliases == [x + " " + y]
  {
    PairPieces(x, y, z);
    FromAddsTablePieces(Initial(), One(x + " " + y + ", " + z));
    PairAdded(x, y, z);
  }

  lemma PairAdded(x: string, y: string, z: string)
    requires Column(x) && Column(y) && Column(z)
    ensures var r := AddAll(Initial(), [x + " " + y, z]);
      r.fromArray == ["`" + x + "` `" + y + "`", "`" + z + "`"] && r.aliases == [x + " " + y]
  {
    PairTracking(x, y, z);
    PairFirstEntry(x, y, z);
    PairSecondEntry(x, y, z);
    var r := AddAll(Initial(), [x + " " + y, z]);
    assert r.fromArray == [r.fromArray[0], r.fromArray[1]];
  }

  lemma PairFirstEntry(x: string, y: string, z: string)
    requires Column(x) && Column(y) && Column(z)
    ensures AddAll(Initial(), [x + " " + y, z]).fromArray[0] == "`" + x + "` `" + y + "`"
  {
    var e1 := x + " " + y;
    var pieces := [e1, z];
    PairTracking(x, y, z);
    AddAllEntry(Initial(), pieces, 0);
    assert pieces[..1] == [e1];
    PairProtect(x, y, z);
  }

  lemma PairSecondEntry(x: string, y: string, z: string)
    requires Column(x) && Column(y) && Column(z)
    ensures AddAll(Initial(), [x + " " + y, z]).fromArray[1] == "`" + z + "`"
  {
    var e1 := x + " " + y;
    var pieces := [e1, z];
    PairTracking(x, y, z);
    AddAllEntry(Initial(), pieces, 1);
    assert pieces[..2] == pieces;
    PairProtect(x, y, z);
  }

  // ------------------------------------------------------------------ join

  /** The directions `join` accepts once upper-cased. */
  const Directions: seq<string> := ["LEFT", "RIGHT", "OUTER", "INNER", "LEFT OUTER", "RIGHT OUTER"]

  /** The direction prefix: a falsy or non-string direction is dropped, any
      other is upper-cased and kept, followed by a space, only when valid. */
  function Direction(direction: Value): (r: string)
    ensures direction.Str? && ToUpper(direction.s) in Directions ==> r == ToUpper(direction.s) + " "
    ensures !(direction.Str? && ToUpper(direction.s) in Directions) ==> r == ""
  {
    if !Truthy(direction) || !direction.Str? then ""
    else
      var d := ToUpper(direction.s);
      if d in Directions then d + " " else ""
  }

  lemma ToUpperIdempotent(d: string)
    ensures ToUpper(ToUpper(d)) == ToUpper(d)
  {
  }

  /** The direction is case-insensitive. */
  lemma DirectionIgnoresCase(d: string)
    ensures Direction(Str(d)) == Direction(Str(ToUpper(d)))
  {
    ToUpperIdempotent(d);
  }

  /** `relation.match(/([\w\.]+)([\W\s]+)(.+)/)`: when it matches, the
      relation becomes the protected first group, the second group verbatim
      and the protected third group; text around the match is dropped. */
  function RewriteRelation(aliases: seq<string>, relation: string): (r: string)
    ensures FindRelation(relation).NoMatch? ==> r == relation
  {
    var m := FindRelation(relation);
    assert m.Match? ==> IsMatch(relation, m.i, m.e1, m.e2, m.e3);
    RewriteWith(Protector(aliases), relation, m)
  }

  /** The rewrite for a given outcome of the match, protecting with `protect`. */
  function RewriteWith(protect: string -> string, relation: string, m: Found): string
    requires m.Match? ==> m.i <= m.e1 <= m.e2 <= m.e3 <= |relation|
  {
    match m
    case NoMatch => relation
    case Match(i, e1, e2, e3) => protect(relation[i..e1]) + relation[e1..e2] + protect(relation[e2..e3])
  }

  /** A relation made of a leading non-word text `p`, a name `x`, an
      operator `op` and a right-hand side `y` starting with a word character
      is rewritten to `x` and `y` protected around `op`; `p` is lost. */
  lemma RewriteRelationGroups(aliases: seq<string>, p: string, x: string, op: string, y: string)
    requires forall j :: 0 <= j < |p| ==> !WordDot(p[j])
    requires |x| > 0 && forall j :: 0 <= j < |x| ==> WordDot(x[j])
    requires |op| > 0 && forall j :: 0 <= j < |op| ==> !WordDot(op[j])
    requires |y| > 0 && IsWordChar(y[0]) && forall j :: 0 <= j < |y| ==> !IsLineTerminator(y[j])
    ensures RewriteRelation(aliases, p + x + op + y)
      == ProtectIdentifiers(aliases, x, true) + op + ProtectIdentifiers(aliases, y, true)
  {
    var s := p + x + op + y;
    RelationGroups(p, x, op, y);
    var f := Protector(aliases);
    assert RewriteRelation(aliases, s) == RewriteWith(f, s, Match(|p|, |p| + |x|, |p| + |x| + |op|, |s|));
    RewriteQuad(f, p, x, op, y);
  }

  lemma RewriteQuad(protect: string -> string, p: string, x: string, op: string, y: string)
    ensures var s := p + x + op + y;
      RewriteWith(protect, s, Match(|p|, |p| + |x|, |p| + |x| + |op|, |s|)) == protect(x) + op + protect(y)
  {
    var s := p + x + op + y;
    QuadSlices(p, x, op, y);
    assert s[|p| + |x| + |op|..|s|] == y;
  }

  /** The `join` entry: direction, the protected table and the rewritten
      relation, against the registry after the table was tracked. */
  function JoinFragment(aliases: seq<string>, table: string, relation: string, direction: Value): string {
    Direction(direction) + "JOIN " + ProtectIdentifiers(aliases, table, true) + " ON " + RewriteRelation(aliases, relation)
  }

  /** `join(tableName, relation, direction)`. Tracking the table may fail (see
      `TrackAliases`); an array table then fails in `protectIdentifiers`,
      which calls a string method on it. */
  function JoinTable(s: State, table: Tables, relation: string, direction: Value): (r: Result<State>)
    ensures r.Err? <==> table.Many? || TrackAliases(s.aliases, table).Err?
    ensures r.Ok? ==> r.value.(aliases := s.aliases, joinArray := s.joinArray) == s
    ensures r.Ok? ==> |r.value.joinArray| == |s.joinArray| + 1 && s.joinArray <= r.value.joinArray
    ensures r.Ok? ==> r.value.aliases == TrackAliases(s.aliases, table).value
  {
    match TrackAliases(s.aliases, table)
    case Err(e) => Err(e)
    case Ok(aliases) =>
      match table
      case Many(_) => Err("TypeError: item.replace is not a function")
      case One(name) =>
        Ok(s.(aliases := aliases, joinArray := s.joinArray + [JoinFragment(aliases, name, relation, direction)]))
  }

  // ----------------------------------------------------------- join: example

  lemma QualifiedShape(t: string, c: string)
    requires WordName(t) && WordName(c)
    ensures var q := t + "." + c;
      |q| > 0 && IsWordChar(q[0]) && (forall j :: 0 <= j < |q| ==> WordDot(q[j]))
      && (forall j :: 0 <= j < |q| ==> !IsLineTerminator(q[j]))
  {
    var q := t + "." + c;
    forall j | 0 <= j < |q| ensures WordDot(q[j]) {
      if j < |t| { assert q[j] == t[j]; } else if j > |t| { assert q[j] == c[j - |t| - 1]; }
    }
  }

  lemma RelationText(t1: string, c1: string, op: string, t2: string, c2: string)
    ensures t1 + "." + c1 + op + t2 + "." + c2 == "" + (t1 + "." + c1) + op + (t2 + "." + c2)
  {
  }

  /** A relation `t1.c1 <op> t2.c2`, where `op` holds no word character or
      dot, has both qualified columns quoted and keeps `op` verbatim. */
  lemma RelationOfQualified(aliases: seq<string>, t1: string, c1: string, op: string, t2: string, c2: string)
    requires WordName(t1) && WordName(c1) && WordName(t2) && WordName(c2) && AllSpaced(aliases)
    requires |op| > 0 && forall j :: 0 <= j < |op| ==> !WordDot(op[j])
    ensures RewriteRelation(aliases, t1 + "." + c1 + op + t2 + "." + c2) == QuotedColumn(t1, c1) + op + QuotedColumn(t2, c2)
  {
    var x, y := t1 + "." + c1, t2 + "." + c2;
    QualifiedShape(t1, c1);
    QualifiedShape(t2, c2);
    RelationText(t1, c1, op, t2, c2);
    RewriteRelationGroups(aliases, "", x, op, y);
    ProtectQualified(aliases, t1, c1);
    ProtectQualified(aliases, t2, c2);
  }

  /** `join(t, "t1.c1 <op> t2.c2", direction)` with plain names: the table is
      not tracked, and one entry is appended holding the direction, the
      quoted table and the quoted relation. */
  lemma JoinOnQualified(s: State, t: string, t1: string, c1: string, op: string, t2: string, c2: string, direction: Value)
    requires WordName(t) && WordName(t1) && WordName(c1) && WordName(t2) && WordName(c2) && AllSpaced(s.aliases)
    requires |op| > 0 && forall j :: 0 <= j < |op| ==> !WordDot(op[j])
    ensures JoinTable(s, One(t), t1 + "." + c1 + op + t2 + "." + c2, direction)
      == Ok(s.(joinArray := s.joinArray + [Direction(direction) + "JOIN `" + t + "` ON " + (QuotedColumn(t1, c1) + op + QuotedColumn(t2, c2))]))
  {
    var rel := t1 + "." + c1 + op + t2 + "." + c2;
    WordIsColumn(t);
    PlainNoSpace(t);
    assert ' ' !in t && ',' !in t;
    assert TrackAliases(s.aliases, One(t)) == Ok(s.aliases);
    ProtectColumn(s.aliases, t);
    RelationOfQualified(s.aliases, t1, c1, op, t2, c2);
    JoinText(Direction(direction), t, QuotedColumn(t1, c1) + op + QuotedColumn(t2, c2));
  }

  lemma JoinText(d: string, t: string, rel: string)
    ensures d + "JOIN " + ("`" + t + "`") + " ON " + rel == d + "JOIN `" + t + "` ON " + rel
  {
  }
}
