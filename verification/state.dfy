/** The per-statement state of the adapter (index.js:78-91) and `resetQuery`,
    which every terminal method runs once it has produced its SQL. */
module Builder {

  /** One query under construction. `limit` and `offset` use -1 for "not set";
      `lastQuery` survives a reset as the SQL that was just sent; `aliases` is
      the registry `trackAliases` fills and `protectIdentifiers` consults.
      The source also keeps a `joinClause` array that nothing reads; it is not
      part of this record. */
  datatype State = State(
    whereArray: seq<string>,
    whereInArray: seq<string>,
    fromArray: seq<string>,
    joinArray: seq<string>,
    selectArray: seq<string>,
    orderBy: string,
    groupBy: string,
    having: string,
    limit: int,
    offset: int,
    lastQuery: string,
    distinct: string,
    aliases: seq<string>)

  /** Nothing of a previous statement is left: every accumulator is empty,
      every clause text blank and both numeric clauses unset. */
  predicate Clean(s: State) {
    s.whereArray == [] && s.whereInArray == [] && s.fromArray == [] && s.joinArray == []
    && s.selectArray == [] && s.orderBy == "" && s.groupBy == "" && s.having == ""
    && s.limit == -1 && s.offset == -1 && s.distinct == "" && s.aliases == []
  }

  /** `resetQuery(newLastQuery)`. */
  function Reset(newLastQuery: string): (r: State)
    ensures Clean(r) && r.lastQuery == newLastQuery
  {
    State([], [], [], [], [], "", "", "", -1, -1, newLastQuery, "", [])
  }

  /** The state a freshly constructed adapter starts from. */
  function Initial(): (r: State)
    ensures Clean(r) && r.lastQuery == ""
  {
    State([], [], [], [], [], "", "", "", -1, -1, "", "", [])
  }

  /** A clean state is determined by its last query alone, so whatever a
      statement accumulated cannot reach the next one once it was reset. */
  lemma CleanIsDeterminedByLastQuery(a: State, b: State)
    requires Clean(a) && Clean(b) && a.lastQuery == b.lastQuery
    ensures a == b
  {
  }

  /** The initial state is a reset with an empty last query. */
  lemma InitialIsReset()
    ensures Initial() == Reset("")
  {
  }
}
