/** The WHERE accumulators: `where`/`or_where` (index.js:380-400), their
    shared worker `_where` (index.js:418-465), the IN-list worker `_where_in`
    and its four entry points (index.js:402-416, 467-494), and the LIKE
    family (index.js:496-557). Each is a pure `State -> State` function. */
module Conditions {
  import opened Text
  import opened Values
  import opened Identifiers
  import opened Builder

  /** The connective an entry point passes on: 'AND ' or 'OR '. */
  datatype Conj = And | Or {
    function Word(): string {
      if And? then "AND " else "OR "
    }
  }

  /** The key argument of `where` and `like`: one column (which may carry an
      operator, as in "age >"), or a mapping, given as its pairs in
      enumeration order. */
  datatype WhereKey = Key(name: string) | Pairs(pairs: seq<(string, Value)>)

  /** `protectIdentifiers(item)` against the state's alias registry. */
  function Protect(s: State, item: string): string {
    ProtectIdentifiers(s.aliases, item, true)
  }

  /** The connective a new fragment starts with: none for the first one. */
  function Prefix(s: State, conj: Conj): (r: string)
    ensures r == "" <==> s.whereArray == []
  {
    if |s.whereArray| == 0 then "" else conj.Word()
  }

  /** `values.length === 0` once `values || []` has been applied. */
  predicate NoValues(values: Value) {
    var v := OrEmptyList(values);
    v.List? && |v.items| == 0
  }

  /** The fragment `_where_in` pushes. The source wraps `values` in a
      one-element array whatever it is (its array test reads a variable that
      is still undefined), so the list is rendered as one value. */
  function InFragment(s: State, quote: string -> string, key: string, values: Value, not: bool, conj: Conj): string {
    Prefix(s, conj) + Protect(s, key) + (if not then " NOT" else "") + " IN ("
    + Join(s.whereInArray + [QbText(quote, OrEmptyList(values))], ", ") + ") "
  }

  /** `_where_in(key, values, not, type)`: nothing happens for an empty key
      or no values; otherwise exactly one fragment is appended and the
      pending IN-list is cleared. */
  function WhereIn(s: State, quote: string -> string, key: string, values: Value, not: bool, conj: Conj): (r: State)
    ensures key == "" || NoValues(values) ==> r == s
    ensures key != "" && !NoValues(values) ==>
      r == s.(whereArray := s.whereArray + [InFragment(s, quote, key, values, not, conj)], whereInArray := [])
  {
    if key == "" || NoValues(values) then s
    else s.(whereArray := s.whereArray + [InFragment(s, quote, key, values, not, conj)], whereInArray := [])
  }

  /** The fragment `_where` pushes for one key/value pair that is not a
      non-empty array. */
  function PairFragment(s: State, quote: string -> string, k: string, v: Value, conj: Conj, escape: bool): string {
    var prefix := Prefix(s, conj);
    if v.Null? then
      prefix + Protect(s, if HasOperator(k) then k else k + " IS NULL")
    else if escape then
      var pk := Protect(s, k);
      prefix + (if HasOperator(pk) then pk else pk + " =") + " " + QbText(quote, v)
    else
      var rk := if HasOperator(k) then k else k + " =";
      prefix + rk + (if Truthy(v) then ToText(v) else "")
  }

  /** Position of the first pair holding a non-empty array, or |pairs|. */
  function FirstList(pairs: seq<(string, Value)>): (i: nat)
    ensures i <= |pairs|
    ensures forall j :: 0 <= j < i ==> !IsNonEmptyList(pairs[j].1)
    ensures i < |pairs| ==> IsNonEmptyList(pairs[i].1)
  {
    if |pairs| == 0 then 0
    else if IsNonEmptyList(pairs[0].1) then 0
    else 1 + FirstList(pairs[1..])
  }

  /** `_where` over a mapping: one fragment per pair in order, except that
      the first pair with a non-empty array hands over to `_where_in` and
      ends the call, so later pairs are dropped. */
  function WherePairs(s: State, quote: string -> string, pairs: seq<(string, Value)>, conj: Conj, escape: bool): (r: State)
    ensures r.(whereArray := s.whereArray, whereInArray := s.whereInArray) == s
    ensures s.whereArray <= r.whereArray
    ensures var n := FirstList(pairs);
      |s.whereArray| + n <= |r.whereArray| <= |s.whereArray| + n + 1
    ensures FirstList(pairs) == |pairs| ==> |r.whereArray| == |s.whereArray| + |pairs| && r.whereInArray == s.whereInArray
    decreases |pairs|
  {
    if |pairs| == 0 then s
    else
      var (k, v) := pairs[0];
      if IsNonEmptyList(v) then WhereIn(s, quote, k, v, false, conj)
      else
        var s1 := s.(whereArray := s.whereArray + [PairFragment(s, quote, k, v, conj, escape)]);
        WherePairs(s1, quote, pairs[1..], conj, escape)
  }

  /** The pairs `_where` iterates: a single key is paired with its value. */
  function KeyPairs(key: WhereKey, value: Value): seq<(string, Value)> {
    match key
    case Key(name) => [(name, value)]
    case Pairs(ps) => ps
  }

  /** `where(key, value, isRaw)` (conj And) and `or_where` (conj Or): a
      falsy value becomes null, a single key with a non-empty array goes to
      `_where_in`, everything else to `_where`, escaping unless raw. */
  function Where(s: State, quote: string -> string, key: WhereKey, value: Value, isRaw: bool, conj: Conj): (r: State)
    ensures r.(whereArray := s.whereArray, whereInArray := s.whereInArray) == s
    ensures s.whereArray <= r.whereArray && |r.whereArray| <= |s.whereArray| + |KeyPairs(key, OrNull(value))|
  {
    var v := OrNull(value);
    if key.Key? && IsNonEmptyList(v) then WhereIn(s, quote, key.name, v, false, conj)
    else WherePairs(s, quote, KeyPairs(key, v), conj, !isRaw)
  }

  /** `field LIKE 'pattern'` as `_like` builds it, before `_where` sees it. */
  function LikeStatement(s: State, field: string, v: Value, side: string, not: bool): string
  {
    var k := Protect(s, Trim(field));
    var n := if not then " NOT" else "";
    var t := ToText(v);
    if side == "none" then k + n + " LIKE " + "'" + t + "'"
    else if side == "before" then k + n + " LIKE " + "'%" + t + "'"
    else if side == "after" then k + n + " LIKE " + "'" + t + "%'"
    else k + n + " LIKE " + "'%" + t + "%'"
  }

  /** The loop of `_like`: every statement is handed to `_where` as a raw key
      with a null value, which protects it a second time. */
  function LikePairs(s: State, quote: string -> string, pairs: seq<(string, Value)>, side: string, not: bool, conj: Conj): (r: State)
    ensures r.(whereArray := s.whereArray) == s
    ensures s.whereArray <= r.whereArray && |r.whereArray| == |s.whereArray| + |pairs|
    decreases |pairs|
  {
    if |pairs| == 0 then s
    else
      var statement := LikeStatement(s, pairs[0].0, pairs[0].1, side, not);
      var s1 := WherePairs(s, quote, [(statement, Null)], conj, false);
      LikePairs(s1, quote, pairs[1..], side, not, conj)
  }

  /** `like`/`not_like`/`or_like`/`or_not_like` through `_like`: a falsy
      match becomes '' (a mapping's values are used as they are), and an
      absent or empty side means 'both'. */
  function Like(s: State, quote: string -> string, field: WhereKey, pattern: Value, side: string, not: bool, conj: Conj): (r: State)
    ensures r.(whereArray := s.whereArray) == s
    ensures s.whereArray <= r.whereArray
    ensures |r.whereArray| == |s.whereArray| + |KeyPairs(field, if Truthy(pattern) then pattern else Str(""))|
  {
    var m := if Truthy(pattern) then pattern else Str("");
    LikePairs(s, quote, KeyPairs(field, m), side, not, conj)
  }
}
