/** Identifier quoting and alias bookkeeping: `escapeIdentifiers`,
    `hasOperator`, `protectIdentifiers`, `trackAliases` and
    `createAliasFromTable` of the adapter in index.js. */
module Identifiers {
  import opened Text
  import opened Values
  import opened Results

  /** A table argument: one string (possibly comma separated) or an array. */
  datatype Tables = One(name: string) | Many(names: seq<string>)

  /** Number of leading backticks. */
  function LeadingTicks(s: string): (k: nat)
    ensures k <= |s|
    ensures forall i :: 0 <= i < k ==> s[i] == '`'
    ensures k < |s| ==> s[k] != '`'
  {
    if |s| > 0 && s[0] == '`' then 1 + LeadingTicks(s[1..]) else 0
  }

  /** `s.replace(/[`]+/, '`')`: only the FIRST run of backticks becomes one. */
  function CollapseFirstTickRun(s: string): (r: string)
    ensures '`' !in s ==> r == s
  {
    if |s| == 0 then s
    else if s[0] == '`' then "`" + s[LeadingTicks(s)..]
    else [s[0]] + CollapseFirstTickRun(s[1..])
  }

  /** `escapeIdentifiers`: '' and '*' pass through; otherwise every dot is
      turned into `.` inside one pair of backticks, and then the first run of
      backticks is collapsed (the source's guard against double quoting). */
  function EscapeIdentifiers(item: string): (r: string)
    ensures item == "" || item == "*" ==> r == item
    ensures item != "" && item != "*" ==> |r| >= 1 && r[0] == '`' && r[|r| - 1] == '`'
  {
    if item == "" || item == "*" then item
    else
      var body := ReplaceChar(item, '.', "`.`") + "`";
      var r := CollapseFirstTickRun("`" + body);
      assert r == "`" + body[LeadingTicks(body)..] by {
        assert LeadingTicks("`" + body) == 1 + LeadingTicks(body) by {
          assert ("`" + body)[1..] == body;
        }
      }
      TicksSuffixEndsWithTick(body);
      r
  }

  lemma TicksSuffixEndsWithTick(body: string)
    requires |body| > 0 && body[|body| - 1] == '`'
    ensures var t := body[LeadingTicks(body)..]; |t| == 0 || t[|t| - 1] == '`'
  {
  }

  predicate IsOperatorChar(c: char) {
    c == '<' || c == '>' || c == '!' || c == '='
  }

  /** `hasOperator` on a string: the trimmed text matches
      /(<|>|!|=|\sIS NULL|\sIS NOT NULL|\sEXISTS|\sBETWEEN|\sLIKE|\sIN\s*\(|\s)/i.
      Every keyword alternative begins with `\s`, so it matches exactly when
      the trimmed text holds an operator character or any whitespace. */
  predicate HasOperator(s: string) {
    var t := Trim(s);
    exists i :: 0 <= i < |t| && (IsOperatorChar(t[i]) || IsSpace(t[i]))
  }

  /** `hasOperator` on any value: a non-string always counts as an operator. */
  predicate HasOperatorValue(v: Value) {
    if v.Str? then HasOperator(v.s) else true
  }

  /** `\sAS\s` (case-insensitive) starts at position `i`. */
  predicate AsAt(s: string, i: int) {
    0 <= i && i + 4 <= |s| && IsSpace(s[i]) && (s[i + 1] == 'a' || s[i + 1] == 'A')
    && (s[i + 2] == 's' || s[i + 2] == 'S') && IsSpace(s[i + 3])
  }

  /** Position of the first `\sAS\s` match at or after `from`, or -1. */
  function FirstAsFrom(s: string, from: nat): (r: int)
    requires from <= |s|
    ensures r == -1 || (from <= r && AsAt(s, r))
    ensures forall i :: from <= i < (if r == -1 then |s| else r) ==> !AsAt(s, i)
    decreases |s| - from
  {
    if from == |s| then -1
    else if AsAt(s, from) then from
    else FirstAsFrom(s, from + 1)
  }

  function FirstAs(s: string): (r: int)
    ensures r == -1 <==> forall i :: 0 <= i < |s| ==> !AsAt(s, i)
    ensures r != -1 ==> AsAt(s, r) && forall i :: 0 <= i < r ==> !AsAt(s, i)
  {
    FirstAsFrom(s, 0)
  }

  /** The identifier and the alias text `protectIdentifiers` splits a
      whitespace-collapsed item into. */
  function SplitAlias(s: string, protect: bool): (string, string) {
    var ai := FirstAs(s);
    if ai != -1 then
      (s[..ai], if protect then s[ai..ai + 4] + EscapeIdentifiers(s[ai + 4..]) else s[ai..])
    else if ' ' in s then
      var i := IndexOf(s, ' ');
      (s[..i], if protect && !HasOperator(s[i + 1..]) then " " + EscapeIdentifiers(s[i + 1..]) else s[i..])
    else (s, "")
  }

  /** Each dot-separated part escaped on its own (the tracked-alias branch). */
  function EscapeParts(parts: seq<string>): (r: seq<string>)
    ensures |r| == |parts|
    ensures forall k :: 0 <= k < |parts| ==> r[k] == EscapeIdentifiers(parts[k])
  {
    seq(|parts|, k requires 0 <= k < |parts| => EscapeIdentifiers(parts[k]))
  }

  /** `protectIdentifiers(item)` with its default `protect_identifiers = true`,
      as a function of the item alone. */
  function Protector(aliases: seq<string>): string -> string {
    item => ProtectIdentifiers(aliases, item, true)
  }

  /** `protectIdentifiers` on a string, against the registry `aliases`. */
  function ProtectIdentifiers(aliases: seq<string>, item: string, protect: bool): string {
    var s := CollapseSpaces(item);
    var (base, alias) := SplitAlias(s, protect);
    if '(' in base || '\'' in base then base
    else if '.' in base then
      var parts := Split(base, '.');
      if parts[0] in aliases then
        (if protect then Join(EscapeParts(parts), ".") else base) + alias
      else
        (if protect then EscapeIdentifiers(base) else base) + alias
    else
      (if protect then EscapeIdentifiers(base) else base) + alias
  }

  /** `AS` follows a whitespace run that ends at `k`, itself followed by whitespace. */
  predicate AsAfter(s: string, k: nat) {
    k + 3 <= |s| && (s[k] == 'a' || s[k] == 'A') && (s[k + 1] == 's' || s[k + 1] == 'S') && IsSpace(s[k + 2])
  }

  /** `s.replace(/\s+AS\s+/gi, ' ')`. */
  function StripAs(s: string): (r: string)
    ensures ' ' in s ==> ' ' in r
    decreases |s|
  {
    if |s| == 0 then s
    else if IsSpace(s[0]) && AsAfter(s, LeadingSpaces(s)) then
      var k := LeadingSpaces(s);
      assert k + 3 <= |s|;
      var m := k + 2 + LeadingSpaces(s[k + 2..]);
      " " + StripAs(s[m..])
    else
      var r := [s[0]] + StripAs(s[1..]);
      assert ' ' in s ==> s[0] == ' ' || ' ' in s[1..];
      r
  }

  /** `trackAliases` for one comma-free string: an entry holding a space is
      recorded, after `AS` is stripped, unless it is already present. */
  function TrackOne(aliases: seq<string>, s: string): seq<string> {
    if ' ' in s then
      var t := StripAs(s);
      if t in aliases then aliases else aliases + [t]
    else aliases
  }

  /** `trackAliases` on an array records nothing; an element equal to ',' or
      ' ' sends it into a string method the array lacks, a TypeError. */
  function TrackArray(aliases: seq<string>, xs: seq<string>): Result<seq<string>> {
    if "," in xs then Err("TypeError: table.split is not a function")
    else if " " in xs then Err("TypeError: table.replace is not a function")
    else Ok(aliases)
  }

  /** `trackAliases`: a comma string recurses on its split pieces as an array. */
  function TrackAliases(aliases: seq<string>, t: Tables): (r: Result<seq<string>>)
    ensures r.Ok? ==> aliases <= r.value && |r.value| <= |aliases| + 1
    ensures r.Ok? ==> forall k :: |aliases| <= k < |r.value| ==> ' ' in r.value[k] && r.value[k] !in aliases
    ensures r.Err? <==> (t.One? && ',' in t.name && (" " in Split(t.name, ',')))
                        || (t.Many? && ("," in t.names || " " in t.names))
    ensures t.One? && ',' !in t.name ==> r == Ok(TrackOne(aliases, t.name))
  {
    match t
    case One(s) => if ',' in s then
                     var pieces := Split(s, ',');
                     assert ',' in ",";
                     TrackArray(aliases, pieces)
                   else Ok(TrackOne(aliases, s))
    case Many(xs) => TrackArray(aliases, xs)
  }

  /** `createAliasFromTable`: the text after the last dot, or the whole item
      when it has no dot. */
  function CreateAliasFromTable(item: string): (r: string)
    ensures '.' !in r
    ensures |r| <= |item| && item[|item| - |r|..] == r
    ensures '.' !in item ==> r == item
    ensures '.' in item ==> |r| < |item| && item[|item| - |r| - 1] == '.'
  {
    if '.' in item then
      var parts := Split(item, '.');
      JoinEndsWithLast(parts, ".");
      JoinSeparatesLast(parts, ".");
      parts[|parts| - 1]
    else item
  }

  /** With two or more pieces, the last piece is preceded by the separator. */
  lemma {:induction false} JoinSeparatesLast(xs: seq<string>, sep: string)
    requires |xs| > 1 && |sep| > 0
    ensures var j := Join(xs, sep); var l := xs[|xs| - 1];
      |l| < |j| && j[|j| - |l| - 1] == sep[|sep| - 1]
    decreases |xs|
  {
    var l := xs[|xs| - 1];
    var rest := Join(xs[1..], sep);
    assert Join(xs, sep) == (xs[0] + sep) + rest;
    assert xs[1..][|xs[1..]| - 1] == l;
    if |xs| > 2 {
      JoinSeparatesLast(xs[1..], sep);
    } else {
      assert rest == l;
    }
  }

  lemma {:induction false} JoinEndsWithLast(xs: seq<string>, sep: string)
    requires |xs| >= 1
    ensures var j := Join(xs, sep); var l := xs[|xs| - 1]; |l| <= |j| && j[|j| - |l|..] == l
  {
    if |xs| > 1 {
      JoinEndsWithLast(xs[1..], sep);
      var l := xs[|xs| - 1];
      var rest := Join(xs[1..], sep);
      assert Join(xs, sep) == (xs[0] + sep) + rest;
      assert xs[1..][|xs[1..]| - 1] == l;
    }
  }
}
