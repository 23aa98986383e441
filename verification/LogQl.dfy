/** translateLogQL: a log query becomes one SELECT.  The translator is a method with the
    program's loops; the theorems say that the SQL is read back as the conditions of the
    query, and that a query printed from conditions gives exactly these. */
module LogQl {
  import opened Wrappers
  import opened GoStrings
  import opened SqlText
  import opened SqlConds
  import opened LogPipeline

  datatype LogError = EmptyQuery | InvalidSelector

  // ------------------------------------------------- conditions of a query

  /** One part of the selector; a part without an operator says nothing. */
  function PartCond(part: string): seq<Cond> {
    FieldCond(Labels, TrimSpace(part))
  }

  function PartConds(parts: seq<string>): seq<Cond> {
    if parts == [] then []
    else PartConds(parts[..|parts| - 1]) + PartCond(parts[|parts| - 1])
  }

  function OpOf(text: string): Option<Op> {
    if text == "=" then Some(Has)
    else if text == "!=" then Some(HasNot)
    else if text == "~" then Some(Matches)
    else if text == "!~" then Some(MatchesNot)
    else None
  }

  /** A filter whose operator is none of the four adds nothing. */
  function HitCond(h: Hit): seq<Cond> {
    match OpOf(h.op)
    case None => []
    case Some(op) => [Message(op, Stripped(h.text))]
  }

  function HitConds(hits: seq<Hit>): seq<Cond> {
    if hits == [] then []
    else HitConds(hits[..|hits| - 1]) + HitCond(hits[|hits| - 1])
  }

  /** The selector between the braces, and the pipeline after it. */
  function Sections(q: string): Option<(string, string)> {
    if !HasPrefix(q, "{") then Some(([], q))
    else
      var idx := Index(q, "}");
      IndexChar(q, '}');
      if idx == -1 then None else Some((q[1..idx], TrimSpace(q[idx + 1..])))
  }

  /** The conditions of a trimmed query. */
  function Conditions(q: string): Result<seq<Cond>, LogError> {
    if q == [] then Failure(EmptyQuery)
    else
      match Sections(q)
      case None => Failure(InvalidSelector)
      case Some((selector, pipeline)) =>
        Success(PartConds(Split(selector, ",")) + HitConds(FindAll(pipeline)))
  }

  /** What the translator has to return. */
  function LogSql(query: string, table: string): Result<string, LogError> {
    match Conditions(TrimSpace(query))
    case Failure(e) => Failure(e)
    case Success(conds) => Success(Select(TableOr(table, "logs"), conds))
  }

  // ---------------------------------------------------------- the translator

  lemma DoubledAround(v: string)
    ensures Doubled("%" + v + "%") == "%" + Doubled(v) + "%"
  {
    DoubledThen(v);
    assert ("%" + v + "%")[1..] == v + "%";
    assert Doubled("%" + v + "%") == "%" + Doubled(v + "%");
  }

  lemma {:induction false} DoubledThen(v: string)
    ensures Doubled(v + "%") == Doubled(v) + "%"
  {
    if v == [] {
      assert v + "%" == "%" && Doubled(v) + "%" == "%" && Doubled("%") == "%";
    } else {
      assert (v + "%")[1..] == v[1..] + "%";
      DoubledThen(v[1..]);
    }
  }

  /** Sprintf of a condition on the message. */
  function MessageFormat(op: Op, val: string): string {
    var around := if op.Has? || op.HasNot? then "%" + val + "%" else val;
    "message " + (OpText(op) + ("'" + around + "'"))
  }

  lemma MessageEmitted(op: Op, val: string)
    ensures MessageFormat(op, Doubled(val)) == Render(Message(op, val))
  {
    DoubledAround(val);
  }

  /** The loop over the parts of the selector. */
  method SelectorConditions(selector: string) returns (conditions: seq<string>)
    ensures conditions == Rendered(PartConds(Split(selector, ",")))
  {
    conditions := [];
    var parts := Split(selector, ",");
    var i := 0;
    while i < |parts|
      invariant i <= |parts| && conditions == Rendered(PartConds(parts[..i]))
    {
      var text := FieldCondition(Labels, TrimSpace(parts[i]));
      assert parts[..i + 1][..i] == parts[..i];
      RenderedBoth(PartConds(parts[..i]), PartCond(parts[i]));
      conditions := conditions + text;
      i := i + 1;
    }
    assert parts[..|parts|] == parts;
  }

  /** One turn of the loop over the matches of the pipeline. */
  method HitCondition(h: Hit) returns (text: seq<string>)
    ensures text == Rendered(HitCond(h))
  {
    var val := EscapeSqlValue(h.text);
    match OpOf(h.op)
    case Some(op) =>
      MessageEmitted(op, Stripped(h.text));
      text := [MessageFormat(op, val)];
    case None => text := [];
  }

  method PipelineConditions(pipeline: string) returns (conditions: seq<string>)
    ensures conditions == Rendered(HitConds(FindAll(pipeline)))
  {
    conditions := [];
    var matches := FindAll(pipeline);
    var i := 0;
    while i < |matches|
      invariant i <= |matches| && conditions == Rendered(HitConds(matches[..i]))
    {
      var text := HitCondition(matches[i]);
      assert matches[..i + 1][..i] == matches[..i];
      RenderedBoth(HitConds(matches[..i]), HitCond(matches[i]));
      conditions := conditions + text;
      i := i + 1;
    }
    assert matches[..|matches|] == matches;
  }

  lemma EmptySelector()
    ensures PartConds(Split([], ",")) == []
  {
    var parts := Split([], ",");
    assert parts == [[]] && parts[..0] == [];
    assert PartCond([]) == [];
  }

  method TranslateLogQl(query: string, table: string) returns (r: Result<string, LogError>)
    ensures r == LogSql(query, table)
  {
    var q := TrimSpace(query);
    if q == "" {
      return Failure(EmptyQuery);
    }
    var name := SanitizeSqlIdentifier(table);
    if name == "" {
      name := "logs";
    }
    var conditions: seq<string> := [];
    ghost var labels: seq<Cond> := [];
    EmptySelector();
    if HasPrefix(q, "{") {
      var idx := Index(q, "}");
      if idx == -1 {
        return Failure(InvalidSelector);
      }
      IndexChar(q, '}');
      var selector := q[1..idx];
      q := TrimSpace(q[idx + 1..]);
      labels := PartConds(Split(selector, ","));
      if selector != "" {
        conditions := SelectorConditions(selector);
      }
    }
    RenderedBoth(labels, HitConds(FindAll(q)));
    var filters := PipelineConditions(q);
    conditions := conditions + filters;
    if |conditions| == 0 {
      conditions := ["1=1"];
    }
    return Success("SELECT * FROM " + (name + " WHERE " + Join(conditions, " AND ")));
  }
}
