/** translateTraceQL: from STREAM [where COND and ...] becomes one SELECT.  The program
    finds " where " in a lower-cased copy and slices the original at the position found
    there.  Lower-casing is a parameter, and positions count bytes, so each character
    of a string here is one byte. */
module TraceQl {
  import opened Wrappers
  import opened GoStrings
  import opened SqlText
  import opened SqlConds

  datatype TraceError = EmptyQuery | NoFrom | NoStream | SliceOutOfRange

  /** strings.Fields. */
  function Fields(s: string): seq<string> {
    if s == [] then []
    else if IsSpace(s[0]) then Fields(s[1..])
    else
      var n := WordLength(s);
      [s[..n]] + Fields(s[n..])
  }

  function WordLength(s: string): (n: nat)
    ensures n <= |s| && (forall k :: 0 <= k < n ==> !IsSpace(s[k])) && (n < |s| ==> IsSpace(s[n]))
    ensures s != [] && !IsSpace(s[0]) ==> n > 0
  {
    if s == [] || IsSpace(s[0]) then 0 else 1 + WordLength(s[1..])
  }

  /** One part of the condition: !=, =, > and < are looked for in this order. */
  function PartCond(part: string): seq<Cond> {
    var p := TrimSpace(part);
    if Contains(p, "!=") || Contains(p, "=") then FieldCond(Attributes, p)
    else if Contains(p, ">") then
      [Compare(SanitizeSqlIdentifier(Cut(p, ">").0), true, TrimSpace(Cut(p, ">").1))]
    else if Contains(p, "<") then
      [Compare(SanitizeSqlIdentifier(Cut(p, "<").0), false, TrimSpace(Cut(p, "<").1))]
    else []
  }

  function PartConds(parts: seq<string>): seq<Cond> {
    if parts == [] then []
    else PartConds(parts[..|parts| - 1]) + PartCond(parts[|parts| - 1])
  }

  /** The text behind " where ", by its position in the lower-cased copy. */
  function Clause(q: string, lower: string): Option<string> {
    var at := Index(lower, " where ");
    if at == -1 then Some([])
    else if at + 7 > |q| then None
    else Some(TrimSpace(q[at + 7..]))
  }

  /** The conditions of a trimmed query and its lower-cased copy. */
  function Conditions(q: string, lower: string): Result<seq<Cond>, TraceError> {
    if q == [] then Failure(EmptyQuery)
    else if !HasPrefix(lower, "from") then Failure(NoFrom)
    else if |Fields(q)| < 2 then Failure(NoStream)
    else
      match Clause(q, lower)
      case None => Failure(SliceOutOfRange)
      case Some(expr) => Success([Stream(Stripped(Fields(q)[1]))] + PartConds(Split(expr, " and ")))
  }

  /** What the translator has to return. */
  function TraceSql(query: string, table: string, toLower: string -> string): Result<string, TraceError> {
    var q := TrimSpace(query);
    match Conditions(q, toLower(q))
    case Failure(e) => Failure(e)
    case Success(conds) => Success(Select(TableOr(table, "traces"), conds))
  }

  // ---------------------------------------------------------- the translator

  function CompareFormat(key: string, greater: bool, val: string): string {
    key + ((if greater then " > " else " < ") + val)
  }

  /** One turn of the loop over the parts of the condition. */
  method PartCondition(part: string) returns (text: seq<string>)
    ensures text == Rendered(PartCond(part))
  {
    var p := TrimSpace(part);
    if p == "" {
      return [];
    }
    if Contains(p, "!=") || Contains(p, "=") {
      text := FieldCondition(Attributes, p);
    } else if Contains(p, ">") {
      var (key, val) := Cut(p, ">");
      text := [CompareFormat(SanitizeSqlIdentifier(key), true, TrimSpace(val))];
    } else if Contains(p, "<") {
      var (key, val) := Cut(p, "<");
      text := [CompareFormat(SanitizeSqlIdentifier(key), false, TrimSpace(val))];
    } else {
      text := [];
    }
  }

  method ClauseConditions(expr: string) returns (conditions: seq<string>)
    ensures conditions == Rendered(PartConds(Split(expr, " and ")))
  {
    conditions := [];
    var parts := Split(expr, " and ");
    var i := 0;
    while i < |parts|
      invariant i <= |parts| && conditions == Rendered(PartConds(parts[..i]))
    {
      var text := PartCondition(parts[i]);
      assert parts[..i + 1][..i] == parts[..i];
      RenderedBoth(PartConds(parts[..i]), PartCond(parts[i]));
      conditions := conditions + text;
      i := i + 1;
    }
    assert parts[..|parts|] == parts;
  }

  lemma EmptyClause()
    ensures PartConds(Split([], " and ")) == []
  {
    var parts := Split([], " and ");
    assert parts == [[]] && parts[..0] == [];
    assert PartCond([]) == [];
  }

  method TranslateTraceQl(query: string, table: string, toLower: string -> string)
      returns (r: Result<string, TraceError>)
    ensures r == TraceSql(query, table, toLower)
  {
    var q := TrimSpace(query);
    if q == "" {
      return Failure(EmptyQuery);
    }
    var name := SanitizeSqlIdentifier(table);
    if name == "" {
      name := "traces";
    }
    var lower := toLower(q);
    if !HasPrefix(lower, "from") {
      return Failure(NoFrom);
    }
    var tokens := Fields(q);
    if |tokens| < 2 {
      return Failure(NoStream);
    }
    var conditions := ["trace_stream = " + ("'" + EscapeSqlValue(tokens[1]) + "'")];
    ghost var stream, conds: seq<Cond> := Stream(Stripped(tokens[1])), [];
    EmptyClause();
    var at := Index(lower, " where ");
    if at != -1 {
      if at + 7 > |q| {
        return Failure(SliceOutOfRange);
      }
      var expr := TrimSpace(q[at + 7..]);
      conds := PartConds(Split(expr, " and "));
      if expr != "" {
        var more := ClauseConditions(expr);
        conditions := conditions + more;
      }
    }
    RenderedBoth([stream], conds);
    assert conditions == Rendered([stream]) + Rendered(conds);
    return Success("SELECT * FROM " + (name + " WHERE " + Join(conditions, " AND ")));
  }
}
