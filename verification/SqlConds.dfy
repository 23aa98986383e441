/** The WHERE clauses that the query translators write, condition by condition, and a
    reader of the whole SELECT. */
module SqlConds {
  import opened Wrappers
  import opened GoStrings
  import opened SqlText
  import opened SqlTokens

  datatype Op = Has | HasNot | Matches | MatchesNot

  datatype Column = Labels | Attributes

  /** One condition: on a field of a JSON column, on the message, on the trace stream,
      or a comparison that is written without quotes. */
  datatype Cond =
    | Field(column: Column, key: string, equal: bool, val: string)
    | Message(op: Op, val: string)
    | Stream(val: string)
    | Compare(key: string, greater: bool, val: string)

  // --------------------------------------------------------------- SQL text

  function ColumnText(column: Column): string {
    match column
    case Labels => "labels->>"
    case Attributes => "attributes->>"
  }

  function FieldText(key: string, equal: bool, val: string): string {
    Quoted(key) + ((if equal then " = " else " <> ") + Quoted(Doubled(val)))
  }

  function OpText(op: Op): string {
    match op
    case Has => "ILIKE "
    case HasNot => "NOT ILIKE "
    case Matches => "~ "
    case MatchesNot => "!~ "
  }

  /** ILIKE searches for the text anywhere, between two percent signs. */
  function Pattern(op: Op, val: string): string {
    if op.Has? || op.HasNot? then "%" + val + "%" else val
  }

  function Render(c: Cond): string {
    match c
    case Field(column, key, equal, val) => ColumnText(column) + FieldText(key, equal, val)
    case Message(op, val) => "message " + (OpText(op) + Quoted(Doubled(Pattern(op, val))))
    case Stream(val) => "trace_stream = " + Quoted(Doubled(val))
    case Compare(key, greater, val) => key + ((if greater then " > " else " < ") + val)
  }

  function Rendered(conds: seq<Cond>): (texts: seq<string>)
    ensures |texts| == |conds| && forall k :: 0 <= k < |conds| ==> texts[k] == Render(conds[k])
  {
    if conds == [] then [] else [Render(conds[0])] + Rendered(conds[1..])
  }

  function Joined(conds: seq<Cond>): string {
    Join(Rendered(conds), " AND ")
  }

  function Where(conds: seq<Cond>): string {
    if conds == [] then "1=1" else Joined(conds)
  }

  function Select(table: string, conds: seq<Cond>): string {
    "SELECT * FROM " + (table + " WHERE " + Where(conds))
  }

  // ------------------------------------------------- shared by the translators

  /** A test on a field: != is looked for before =. */
  function FieldCond(column: Column, p: string): seq<Cond> {
    if Contains(p, "!=") then
      [Field(column, SanitizeSqlIdentifier(Cut(p, "!=").0), false, Stripped(Cut(p, "!=").1))]
    else if Contains(p, "=") then
      [Field(column, SanitizeSqlIdentifier(Cut(p, "=").0), true, Stripped(Cut(p, "=").1))]
    else []
  }

  /** The part has this operator, for the first time behind `before`; a = that is no part
      of a != counts only where there is no != at all. */
  ghost predicate Tests(p: string, before: string, equal: bool, after: string) {
    var op := if equal then "=" else "!=";
    && p == before + op + after
    && (forall j :: 0 <= j < |before| ==> !At(p, op, j))
    && (equal ==> forall j :: !At(p, "!=", j))
  }

  lemma TestsOnce(p: string, before: string, equal: bool, after: string)
    requires Tests(p, before, equal, after)
    ensures var op := if equal then "=" else "!=";
            Contains(p, op) && Cut(p, op) == (before, after) && (Contains(p, "!=") <==> !equal)
  {
    var op := if equal then "=" else "!=";
    assert p[|before|..|before| + |op|] == op;
    IndexIs(p, op, |before|);
    IndexFirst(p, "!=");
    assert p[..|before|] == before && p[|before| + |op|..] == after;
  }

  lemma FieldIs(column: Column, p: string, before: string, equal: bool, after: string, key: string, val: string)
    requires Tests(p, before, equal, after) && Names(before, key) && Strips(after, val)
    ensures FieldCond(column, p) == [Field(column, key, equal, val)]
  {
    TestsOnce(p, before, equal, after);
    SanitizedIs(before, key);
    StrippedIs(after, val);
  }

  /** What a test on a field is, for every text: its key is what stands before the operator
      and its value what stands behind, both without the blanks and quotation marks around
      them, with underscores for the blanks in the key. */
  lemma FieldMeans(column: Column, p: string, c: Cond)
    ensures FieldCond(column, p) == [c] <==>
              && c.Field? && c.column == column
              && exists before, after ::
                   Tests(p, before, c.equal, after) && Names(before, c.key) && Strips(after, c.val)
    ensures FieldCond(column, p) == [] <==> '=' !in p
  {
    OperatorIn(p);
    if FieldCond(column, p) == [c] {
      var equal := !Contains(p, "!=");
      var op := if equal then "=" else "!=";
      var (before, after) := Cut(p, op);
      FirstTest(p, equal);
      SanitizedIs(before, c.key);
      StrippedIs(after, c.val);
    }
    if c.Field? && c.column == column {
      if before, after :| Tests(p, before, c.equal, after) && Names(before, c.key) && Strips(after, c.val) {
        FieldIs(column, p, before, c.equal, after, c.key, c.val);
      }
    }
  }

  lemma OperatorIn(p: string)
    ensures Contains(p, "=") <==> '=' in p
    ensures Contains(p, "!=") ==> '=' in p
  {
    IndexChar(p, '=');
    IndexFirst(p, "!=");
    if Contains(p, "!=") { assert p[Index(p, "!=") + 1] == p[Index(p, "!=")..Index(p, "!=") + 2][1]; }
  }

  lemma FirstTest(p: string, equal: bool)
    requires if equal then Contains(p, "=") && !Contains(p, "!=") else Contains(p, "!=")
    ensures var (before, after) := Cut(p, if equal then "=" else "!="); Tests(p, before, equal, after)
  {
    var op := if equal then "=" else "!=";
    CutFirst(p, op);
    IndexFirst(p, op);
    if equal { IndexFirst(p, "!="); }
  }

  function TableOr(table: string, default: string): string {
    if SanitizeSqlIdentifier(table) == [] then default else SanitizeSqlIdentifier(table)
  }

  /** The table of the SELECT is the one given, without blanks and quotation marks around
      it, or the default when nothing else is given. */
  lemma TableNames(table: string, default: string, name: string)
    ensures TableOr(table, default) == name <==> if Names(table, []) then name == default else Names(table, name)
  {
    SanitizedIs(table, []);
    SanitizedIs(table, name);
  }

  /** The table name that a translator is given is empty once trimmed, or a name. */
  predicate NamedTable(table: string) {
    SanitizeSqlIdentifier(table) == [] || IsName(SanitizeSqlIdentifier(table))
  }

  lemma TableIsName(table: string, default: string)
    requires IsPart(default)
    ensures IsName(TableOr(table, default)) <==> NamedTable(table)
  {
    OnePart(default);
  }

  /** Sprintf of a condition on a field. */
  function FieldFormat(column: Column, key: string, equal: bool, val: string): string {
    ColumnText(column) + ("'" + (key + ((if equal then "' = '" else "' <> '") + (val + "'"))))
  }

  lemma FieldEmitted(column: Column, key: string, equal: bool, val: string)
    ensures FieldFormat(column, key, equal, Doubled(val)) == Render(Field(column, key, equal, val))
  {
    var sep, mid := if equal then " = " else " <> ", if equal then "' = '" else "' <> '";
    QuotedPair(key, sep, mid, Doubled(val));
  }

  /** The two branches that both translators have for a test on a field. */
  method FieldCondition(column: Column, p: string) returns (text: seq<string>)
    ensures text == Rendered(FieldCond(column, p))
  {
    if Contains(p, "!=") {
      var (key, val) := Cut(p, "!=");
      FieldEmitted(column, SanitizeSqlIdentifier(key), false, Stripped(val));
      text := [FieldFormat(column, SanitizeSqlIdentifier(key), false, EscapeSqlValue(val))];
    } else if Contains(p, "=") {
      var (key, val) := Cut(p, "=");
      FieldEmitted(column, SanitizeSqlIdentifier(key), true, Stripped(val));
      text := [FieldFormat(column, SanitizeSqlIdentifier(key), true, EscapeSqlValue(val))];
    } else {
      text := [];
    }
  }

  lemma RenderedBoth(a: seq<Cond>, b: seq<Cond>)
    ensures Rendered(a + b) == Rendered(a) + Rendered(b)
  {
  }

  // -------------------------------------------------------- reading it back

  function ReadField(column: Column, s: string): (r: Option<(Cond, string)>)
    ensures r.Some? ==> |r.value.1| < |s| && r.value.0.Field?
  {
    match ReadLiteral(s)
    case None => None
    case Some((key, t)) =>
      var skip, equal := if HasPrefix(t, " = ") then 3 else 4, HasPrefix(t, " = ");
      if !equal && !HasPrefix(t, " <> ") then None
      else
        match ReadLiteral(t[skip..])
        case None => None
        case Some((val, u)) => Some((Field(column, key, equal, val), u))
  }

  function ReadOp(s: string): Option<Op> {
    if HasPrefix(s, OpText(Has)) then Some(Has)
    else if HasPrefix(s, OpText(HasNot)) then Some(HasNot)
    else if HasPrefix(s, OpText(Matches)) then Some(Matches)
    else if HasPrefix(s, OpText(MatchesNot)) then Some(MatchesNot)
    else None
  }

  function Unpattern(op: Op, p: string): Option<string> {
    if op.Matches? || op.MatchesNot? then Some(p)
    else if |p| >= 2 && p[0] == '%' && p[|p| - 1] == '%' then Some(p[1..|p| - 1])
    else None
  }

  function ReadMessage(s: string): (r: Option<(Cond, string)>)
    ensures r.Some? ==> |r.value.1| < |s|
  {
    match ReadOp(s)
    case None => None
    case Some(op) =>
      match ReadLiteral(s[|OpText(op)|..])
      case None => None
      case Some((p, u)) =>
        match Unpattern(op, p)
        case None => None
        case Some(val) => Some((Message(op, val), u))
  }

  function ReadStream(s: string): (r: Option<(Cond, string)>)
    ensures r.Some? ==> |r.value.1| < |s|
  {
    match ReadLiteral(s)
    case None => None
    case Some((val, u)) => Some((Stream(val), u))
  }

  /** What follows a condition in a clause. */
  predicate Follower(rest: string) {
    rest == [] || rest[0] == ' '
  }

  /** A comparison of one operand with another, and then a blank or the end. */
  function ReadCompare(s: string): (r: Option<(Cond, string)>)
    ensures r.Some? ==> |r.value.1| < |s| && r.value.0.Compare?
  {
    match ReadOperand(s)
    case None => None
    case Some((key, t)) =>
      if !HasPrefix(t, " > ") && !HasPrefix(t, " < ") then None
      else
        match ReadOperand(t[3..])
        case None => None
        case Some((val, u)) => if Follower(u) then Some((Compare(key, HasPrefix(t, " > "), val), u)) else None
  }

  function ReadCond(s: string): (r: Option<(Cond, string)>)
    ensures r.Some? ==> |r.value.1| < |s|
  {
    if ReadCompare(s).Some? then ReadCompare(s)
    else if HasPrefix(s, "labels->>") then ReadField(Labels, s[9..])
    else if HasPrefix(s, "attributes->>") then ReadField(Attributes, s[13..])
    else if HasPrefix(s, "trace_stream = ") then ReadStream(s[15..])
    else if HasPrefix(s, "message ") then ReadMessage(s[8..])
    else None
  }

  function ReadConds(s: string): Option<seq<Cond>>
    decreases |s|
  {
    match ReadCond(s)
    case None => None
    case Some((c, rest)) =>
      if rest == [] then Some([c])
      else if !HasPrefix(rest, " AND ") then None
      else
        match ReadConds(rest[5..])
        case None => None
        case Some(more) => Some([c] + more)
  }

  function ReadWhere(s: string): Option<seq<Cond>> {
    if s == "1=1" then Some([]) else ReadConds(s)
  }

  /** The table and the conditions of a SELECT. */
  function ReadSelect(s: string): Option<(string, seq<Cond>)> {
    if !HasPrefix(s, "SELECT * FROM ") then None
    else
      match ReadName(s[14..])
      case None => None
      case Some((table, t)) =>
        if !HasPrefix(t, " WHERE ") then None
        else
          match ReadWhere(t[7..])
          case None => None
          case Some(conds) => Some((table, conds))
  }

  // ------------------------------------------------- what is read, and what not

  /** The key of a field is written between quotes as it is, and a comparison without any. */
  ghost predicate Readable(c: Cond) {
    && (c.Field? ==> '\'' !in c.key)
    && (c.Compare? ==> IsOperand(c.key) && IsOperand(c.val))
  }

  lemma ReadFieldText(column: Column, key: string, equal: bool, val: string, rest: string)
    requires '\'' !in key && Follower(rest)
    ensures ReadField(column, FieldText(key, equal, val) + rest) == Some((Field(column, key, equal, val), rest))
  {
    var sep, tail := if equal then " = " else " <> ", Quoted(Doubled(val)) + rest;
    Regroup(Quoted(key), sep + Quoted(Doubled(val)), rest);
    Regroup(sep, Quoted(Doubled(val)), rest);
    ReadPlain(key, sep + tail);
    DropPrefix(sep, tail);
    assert (sep + tail)[1] == sep[1];
    ReadQuoted(val, rest);
  }

  lemma ReadOpText(op: Op, tail: string)
    ensures ReadOp(OpText(op) + tail) == Some(op) && (OpText(op) + tail)[|OpText(op)|..] == tail
  {
    DropPrefix(OpText(op), tail);
    assert (OpText(op) + tail)[0] == OpText(op)[0];
  }

  lemma UnpatternOf(op: Op, val: string)
    ensures Unpattern(op, Pattern(op, val)) == Some(val)
  {
    assert ("%" + val + "%")[1..|val| + 1] == val;
  }

  lemma ReadMessageText(op: Op, val: string, rest: string)
    requires Follower(rest)
    ensures ReadMessage(OpText(op) + Quoted(Doubled(Pattern(op, val))) + rest) == Some((Message(op, val), rest))
  {
    var literal := Quoted(Doubled(Pattern(op, val)));
    Regroup(OpText(op), literal, rest);
    ReadOpText(op, literal + rest);
    ReadQuoted(Pattern(op, val), rest);
    UnpatternOf(op, val);
  }

  lemma ReadCompareText(key: string, greater: bool, val: string, rest: string)
    requires IsOperand(key) && IsOperand(val) && Follower(rest)
    ensures ReadCompare(key + ((if greater then " > " else " < ") + val) + rest)
         == Some((Compare(key, greater, val), rest))
  {
    var sep := if greater then " > " else " < ";
    Regroup(key, sep + val, rest);
    Regroup(sep, val, rest);
    ReadOperandOf(key, sep + (val + rest));
    DropPrefix(sep, val + rest);
    assert (sep + (val + rest))[1] == sep[1];
    ReadOperandOf(val, rest);
  }

  lemma ReadWord(word: string, rest: string)
    requires IsPart(word) && Ends(rest)
    ensures ReadOperand(word + rest) == Some((word, rest))
  {
    OnePart(word);
    ReadOperandOf(word, rest);
  }

  /** No other condition is taken for a comparison. */
  lemma NoCompare(word: string, rest: string)
    requires IsPart(word) && |rest| >= 2 && Ends(rest)
    requires rest[0] == ' ' ==> |rest| >= 3 && (rest[1] !in {'>', '<'} || rest[2] != ' ')
    ensures ReadCompare(word + rest).None?
  {
    ReadWord(word, rest);
  }

  lemma NoCompareField(column: Column, text: string)
    ensures ReadCompare(ColumnText(column) + text).None?
  {
    var word := if column.Labels? then "labels" else "attributes";
    assert ColumnText(column) == word + "->>";
    Regroup(word, "->>", text);
    NoCompare(word, "->>" + text);
  }

  lemma DispatchField(column: Column, text: string)
    ensures ReadCond(ColumnText(column) + text) == ReadField(column, text)
  {
    NoCompareField(column, text);
    DropPrefix(ColumnText(column), text);
    assert (ColumnText(column) + text)[0] == ColumnText(column)[0];
  }

  lemma ReadRenderedField(c: Cond, rest: string)
    requires c.Field?
    ensures ReadCond(Render(c) + rest) == ReadField(c.column, FieldText(c.key, c.equal, c.val) + rest)
  {
    Regroup(ColumnText(c.column), FieldText(c.key, c.equal, c.val), rest);
    DispatchField(c.column, FieldText(c.key, c.equal, c.val) + rest);
  }

  lemma NoCompareMessage(op: Op, tail: string)
    requires HasPrefix(tail, OpText(op))
    ensures ReadCompare("message " + tail).None?
  {
    assert "message" + " " == "message ";
    Regroup("message", " ", tail);
    assert tail[0] == OpText(op)[0] && tail[1] == OpText(op)[1];
    NoCompare("message", " " + tail);
  }

  lemma DispatchMessage(op: Op, text: string)
    ensures ReadCond("message " + (OpText(op) + text)) == ReadMessage(OpText(op) + text)
  {
    var tail := OpText(op) + text;
    DropPrefix(OpText(op), text);
    NoCompareMessage(op, tail);
    DropPrefix("message ", tail);
    assert ("message " + tail)[0] == 'm';
  }

  lemma ReadRenderedMessage(op: Op, val: string, rest: string)
    requires Follower(rest)
    ensures ReadCond(Render(Message(op, val)) + rest) == Some((Message(op, val), rest))
  {
    var text := Quoted(Doubled(Pattern(op, val)));
    Regroup("message ", OpText(op) + text, rest);
    Regroup(OpText(op), text, rest);
    DispatchMessage(op, text + rest);
    ReadMessageText(op, val, rest);
  }

  lemma DispatchStream(text: string)
    ensures ReadCond("trace_stream = " + text) == ReadStream(text)
  {
    DropPrefix("trace_stream = ", text);
    assert "trace_stream = " + text == "trace_stream" + (" = " + text);
    NoCompare("trace_stream", " = " + text);
    assert ("trace_stream = " + text)[0] == 't';
  }

  lemma ReadRenderedStream(val: string, rest: string)
    requires Follower(rest)
    ensures ReadCond(Render(Stream(val)) + rest) == Some((Stream(val), rest))
  {
    Regroup("trace_stream = ", Quoted(Doubled(val)), rest);
    DispatchStream(Quoted(Doubled(val)) + rest);
    ReadQuoted(val, rest);
  }

  lemma ReadRendered(c: Cond, rest: string)
    requires Readable(c) && Follower(rest)
    ensures ReadCond(Render(c) + rest) == Some((c, rest))
  {
    match c
    case Field(column, key, equal, val) =>
      ReadRenderedField(c, rest);
      ReadFieldText(column, key, equal, val, rest);
    case Message(op, val) => ReadRenderedMessage(op, val, rest);
    case Stream(val) => ReadRenderedStream(val, rest);
    case Compare(key, greater, val) => ReadCompareText(key, greater, val, rest);
  }

  lemma ReadSpoiltField(column: Column, key: string, equal: bool, val: string, rest: string)
    requires '\'' in key
    ensures var r := ReadField(column, FieldText(key, equal, val) + rest); r.Some? ==> r.value.0.key != key
  {
    var after := (if equal then " = " else " <> ") + Quoted(Doubled(val));
    Regroup(Quoted(key), after, rest);
    assert (after + rest)[0] == ' ';
    SpoiltLiteral(key, after + rest);
  }

  lemma ComparesOperands(s: string)
    ensures ReadCompare(s).Some? ==> IsOperand(ReadCompare(s).value.0.key) && IsOperand(ReadCompare(s).value.0.val)
  {
    ReadsOperands(s);
    if ReadCompare(s).Some? { ReadsOperands(ReadOperand(s).value.1[3..]); }
  }

  lemma ReadsCompare(s: string)
    ensures ReadCond(s).Some? && ReadCond(s).value.0.Compare? ==> ReadCond(s) == ReadCompare(s)
  {
  }

  /** A field key with a quote inside ends its literal early, and a text that is no operand
      ends before its end or does not begin: what is not readable is never read back. */
  lemma ReadUnreadable(c: Cond, rest: string)
    requires !Readable(c)
    ensures ReadCond(Render(c) + rest).Some? ==> ReadCond(Render(c) + rest).value.0 != c
  {
    if c.Field? {
      ReadRenderedField(c, rest);
      ReadSpoiltField(c.column, c.key, c.equal, c.val, rest);
    } else {
      ReadsCompare(Render(c) + rest);
      ComparesOperands(Render(c) + rest);
    }
  }

  lemma JoinedCons(c: Cond, more: seq<Cond>)
    ensures Joined([c] + more) == Render(c) + if more == [] then [] else " AND " + Joined(more)
  {
    var all := [c] + more;
    assert all[1..] == more;
    assert Rendered(all)[1..] == Rendered(more);
  }

  lemma ReadNext(c: Cond, more: seq<Cond>)
    requires Readable(c)
    ensures ReadConds(Joined([c] + more)) == if more == [] then Some([c])
                                             else match ReadConds(Joined(more))
                                                  case None => None
                                                  case Some(x) => Some([c] + x)
  {
    JoinedCons(c, more);
    var rest := if more == [] then [] else " AND " + Joined(more);
    ReadRendered(c, rest);
    if more != [] { DropPrefix(" AND ", Joined(more)); }
  }

  lemma ConsSame(c: Cond, r: Option<seq<Cond>>, more: seq<Cond>)
    ensures (match r case None => None case Some(x) => Some([c] + x)) == Some([c] + more) <==> r == Some(more)
  {
    if r.Some? && [c] + r.value == [c] + more {
      assert ([c] + r.value)[1..] == r.value && ([c] + more)[1..] == more;
    }
  }

  lemma {:induction false} ReadJoined(conds: seq<Cond>)
    requires conds != []
    ensures ReadConds(Joined(conds)) == Some(conds) <==> forall c :: c in conds ==> Readable(c)
  {
    var c, more := conds[0], conds[1..];
    assert conds == [c] + more;
    if Readable(c) {
      ReadNext(c, more);
      assert forall d :: d in conds <==> d == c || d in more;
      if more == [] {
        assert conds == [c];
      } else {
        ReadJoined(more);
        ConsSame(c, ReadConds(Joined(more)), more);
      }
    } else {
      JoinedCons(c, more);
      ReadUnreadable(c, if more == [] then [] else " AND " + Joined(more));
    }
  }

  lemma NeverTrue(conds: seq<Cond>)
    requires conds != []
    ensures Joined(conds) != "1=1"
  {
    var c := conds[0];
    if c.Compare? { assert Render(c)[|c.key|] == ' '; }
    assert conds == [conds[0]] + conds[1..];
    JoinedCons(conds[0], conds[1..]);
  }

  lemma ReadFrom(table: string, clause: string)
    requires IsName(table)
    ensures ReadSelect("SELECT * FROM " + (table + " WHERE " + clause))
         == match ReadWhere(clause) case None => None case Some(conds) => Some((table, conds))
  {
    Regroup(table, " WHERE ", clause);
    DropPrefix("SELECT * FROM ", table + (" WHERE " + clause));
    ReadNameOf(table, " WHERE " + clause);
    DropPrefix(" WHERE ", clause);
  }

  lemma ReadsTables(s: string)
    ensures ReadSelect(s).Some? ==> IsName(ReadSelect(s).value.0)
  {
    if HasPrefix(s, "SELECT * FROM ") { ReadsNames(s[14..]); }
  }

  /** The SELECT that is written from any table text and any list of conditions is read
      back as that table and that list, if and only if the table is a name, no field key
      has an apostrophe in it, and both sides of every comparison are operands. */
  lemma SelectRoundTrip(table: string, conds: seq<Cond>)
    ensures ReadSelect(Select(table, conds)) == Some((table, conds))
            <==> IsName(table) && forall c :: c in conds ==> Readable(c)
  {
    if IsName(table) {
      ReadFrom(table, Where(conds));
      if conds != [] {
        ReadJoined(conds);
        NeverTrue(conds);
      }
    } else {
      ReadsTables(Select(table, conds));
    }
  }

  /** The SELECT of a translator, which takes its default for a table that is not given. */
  lemma DefaultedRoundTrip(table: string, default: string, name: string, conds: seq<Cond>, sql: string)
    requires IsPart(default) && name == TableOr(table, default) && sql == Select(name, conds)
    ensures ReadSelect(sql) == Some((name, conds))
            <==> NamedTable(table) && forall c :: c in conds ==> Readable(c)
  {
    TableIsName(table, default);
    SelectRoundTrip(name, conds);
  }
}
