/** What the trace translation means, where its slicing is safe, and that extraction
    undoes printing. */
module TraceQlTheorems {
  import opened Wrappers
  import opened GoStrings
  import opened SqlText
  import opened SqlConds
  import opened SqlTokens
  import opened LogQlTheorems
  import opened TraceQl

  // ----------------------------------------- the SQL says what was extracted

  /** For every query at all: the SQL is read back as the table and exactly the conditions
      of the query, if and only if the given table is none or a name, no attribute key,
      once trimmed, has an apostrophe inside, and both sides of every comparison are
      operands. */
  lemma TranslationReadsBack(query: string, table: string, toLower: string -> string)
    requires TraceSql(query, table, toLower).Success?
    ensures var conds := TraceQl.Conditions(TrimSpace(query), toLower(TrimSpace(query))).value;
            ReadSelect(TraceSql(query, table, toLower).value) == Some((TableOr(table, "traces"), conds))
            <==> NamedTable(table) && forall c :: c in conds ==> Readable(c)
  {
    var conds := TraceQl.Conditions(TrimSpace(query), toLower(TrimSpace(query))).value;
    var name, sql := TableOr(table, "traces"), TraceSql(query, table, toLower).value;
    Translated(query, table, toLower, name, conds, sql);
    ReadsTraces(table, name, conds, sql);
  }

  lemma ReadsTraces(table: string, name: string, conds: seq<Cond>, sql: string)
    requires name == TableOr(table, "traces") && sql == Select(name, conds)
    ensures ReadSelect(sql) == Some((name, conds)) <==> NamedTable(table) && forall c :: c in conds ==> Readable(c)
  {
    DefaultedRoundTrip(table, "traces", name, conds, sql);
  }

  lemma Written(query: string, table: string, toLower: string -> string, name: string, conds: seq<Cond>, sql: string)
    requires TraceQl.Conditions(TrimSpace(query), toLower(TrimSpace(query))) == Success(conds)
    requires name == TableOr(table, "traces") && sql == Select(name, conds)
    ensures TraceSql(query, table, toLower) == Success(sql)
  {
  }

  lemma Translated(query: string, table: string, toLower: string -> string,
                   name: string, conds: seq<Cond>, sql: string)
    requires TraceQl.Conditions(TrimSpace(query), toLower(TrimSpace(query))) == Success(conds)
    requires name == TableOr(table, "traces") && TraceSql(query, table, toLower) == Success(sql)
    ensures sql == Select(name, conds)
  {
  }

  // ------------------------------------------------------------ the slicing

  lemma WhereMeans(s: string, j: nat)
    requires At(s, " where ", j)
    ensures j + 7 <= |s| && s[j] == ' ' && s[j + 6] == ' '
    ensures s[j + 1] == 'w' && s[j + 2] == 'h' && s[j + 3] == 'e' && s[j + 4] == 'r' && s[j + 5] == 'e'
  {
    var w := s[j..j + 7];
    assert s[j] == w[0] && s[j + 1] == w[1] && s[j + 2] == w[2] && s[j + 3] == w[3];
    assert s[j + 4] == w[4] && s[j + 5] == w[5] && s[j + 6] == w[6];
  }

  /** Behind from and a stream, the first " where " is the one after the stream, unless
      the stream itself is the word where. */
  lemma WhereAfterStream(s: string, stream: string, rest: string)
    requires s == "from " + (stream + (" where " + rest)) && Lacks(stream, ' ') && stream != "where"
    ensures Index(s, " where ") == 5 + |stream|
  {
    var n := 5 + |stream|;
    assert s[n..n + 7] == " where ";
    assert forall k :: 0 <= k < |stream| ==> s[5 + k] == stream[k];
    assert forall m :: 5 <= m < n ==> s[m] == stream[m - 5];
    forall j | 0 <= j < n ensures !At(s, " where ", j) {
      if At(s, " where ", j) {
        WhereMeans(s, j);
        FourthOnly(s, stream, j);
      }
    }
    IndexIs(s, " where ", n);
  }

  lemma FourthOnly(s: string, stream: string, j: nat)
    requires |s| >= 6 + |stream| && s[..5] == "from " && s[5 + |stream|] == ' '
    requires forall k :: 0 <= k < |stream| ==> s[5 + k] == stream[k]
    requires j < 5 + |stream| && forall m :: 5 <= m < 5 + |stream| ==> s[m] != ' '
    requires j + 7 <= |s| && s[j] == ' ' && s[j + 6] == ' '
    requires s[j + 1] == 'w' && s[j + 2] == 'h' && s[j + 3] == 'e' && s[j + 4] == 'r' && s[j + 5] == 'e'
    ensures stream == "where"
  {
    assert s[0] == s[..5][0] && s[1] == s[..5][1] && s[2] == s[..5][2] && s[3] == s[..5][3];
    assert j == 4;
    assert s[5] == 'w' && s[6] == 'h' && s[7] == 'e' && s[8] == 'r' && s[9] == 'e';
    assert |stream| == 5;
  }

  // -------------------------------------- a copy of another length

  lemma LowerSpace(c: char)
    ensures IsSpace(c) ==> LowerChar(c) == c
    ensures LowerChar(c) == ' ' ==> c == ' '
  {
  }

  /** The keyword in any case: blanks at its ends, and its last letter is none. */
  lemma SpelledWhere(where: string)
    requires AsciiLower(where) == " where "
    ensures |where| == 7 && where[0] == ' ' && where[6] == ' ' && !IsSpace(where[5])
  {
    var low := AsciiLower(where);
    assert low[0] == ' ' && low[5] == 'e' && low[6] == ' ';
    LowerSpace(where[0]);
    LowerSpace(where[5]);
    LowerSpace(where[6]);
  }

  lemma AllBlank(x: string)
    requires TrimLeft(x, IsSpace) == []
    ensures All(x, IsSpace)
  {
    var pre := TrimLeftSplits(x, IsSpace);
    assert x == pre;
  }

  /** With text in front that is not all blank, trimming gives something longer. */
  lemma TrimLonger(x: string, body: string)
    requires !All(x, IsSpace) && body != [] && !IsSpace(body[0])
    ensures |TrimSpace(x + body)| > |TrimSpace(body)|
  {
    var pre := TrimLeftSplits(x, IsSpace);
    var x', body' := TrimLeft(x, IsSpace), TrimSpace(body);
    TrimmedFront(body);
    var post := body[|body'|..];
    if x' == [] { AllBlank(x); }
    assert x + body == pre + (x' + body') + post;
    TrimOf(pre, x' + body', post, IsSpace);
  }

  /** A text that starts with no blank is trimmed at its end only. */
  lemma TrimmedFront(body: string)
    requires body != [] && !IsSpace(body[0])
    ensures var t := TrimSpace(body); t != [] && t <= body && All(body[|t|..], IsSpace) && Edges(t, IsSpace)
  {
    var pre, post := TrimSplits(body, IsSpace);
    assert body[0] == (pre + TrimSpace(body) + post)[0];
    assert body == TrimSpace(body) + post;
  }

  lemma TrimBlanksBefore(blanks: string, body: string)
    requires All(blanks, IsSpace) && body != [] && !IsSpace(body[0])
    ensures TrimSpace(blanks + body) == TrimSpace(body)
  {
    TrimmedFront(body);
    var t := TrimSpace(body);
    assert blanks + body == blanks + t + body[|t|..];
    TrimOf(blanks, t, body[|t|..], IsSpace);
  }

  /** Without its first characters, one of them no blank, a text is trimmed to less. */
  lemma TrimShorterRest(body: string, n: nat)
    requires body != [] && !IsSpace(body[0]) && 0 < n <= |body|
    ensures |TrimSpace(body[n..])| < |TrimSpace(body)|
  {
    TrimmedFront(body);
    var t := TrimSpace(body);
    if n < |t| {
      TrimShorter(body[n..|t|], IsSpace);
      var pre, post := TrimSplits(body[n..], IsSpace);
      TailTrimmed(body[n..], |t| - n);
    } else {
      assert forall k :: 0 <= k < |body[n..]| ==> body[n..][k] == body[|t|..][n - |t| + k];
      BlankOrNot(body[n..]);
    }
  }

  /** What is blank from some place on is trimmed to no more than what is before it. */
  lemma TailTrimmed(s: string, n: nat)
    requires n <= |s| && All(s[n..], IsSpace)
    ensures |TrimSpace(s)| <= n
  {
    var pre, post := TrimSplits(s, IsSpace);
    var t := TrimSpace(s);
    assert forall m :: n <= m < |s| ==> s[m] == s[n..][m - n];
    if t != [] { assert s[|pre| + |t| - 1] == t[|t| - 1]; }
  }

  /** A query with the keyword where, and the lower-cased copy in which it is found at
      some other place. */
  ghost predicate Moved(q: string, front: string, where: string, blanks: string, body: string, lower: string, at: nat) {
    && AsciiLower(where) == " where " && q == front + (where + (blanks + body))
    && All(blanks, IsSpace) && body != [] && !IsSpace(body[0])
    && Index(lower, " where ") == at
  }

  /** For every query with a where clause: the slice is in bounds if and only if the copy
      has the keyword no further back than the query has text around it, and it gives the
      text behind the keyword if and only if the keyword has not moved back by more than
      the blanks behind it, nor forward by more than the blank at its own end. */
  lemma SliceExactly(q: string, front: string, where: string, blanks: string, body: string, lower: string, at: nat)
    requires Moved(q, front, where, blanks, body, lower, at)
    ensures Clause(q, lower).Some? <==> at <= |front| + |blanks| + |body|
    ensures Clause(q, lower) == Some(TrimSpace(blanks + body)) <==> |front| - 1 <= at <= |front| + |blanks|
  {
    SpelledWhere(where);
    TrimBlanksBefore(blanks, body);
    if at < |front| {
      SliceEarly(q, front, where, blanks, body, at);
    } else if at <= |front| + |blanks| {
      var kept := blanks[at - |front|..];
      assert q[at + 7..] == kept + body;
      TrimBlanksBefore(kept, body);
    } else if at <= |front| + |blanks| + |body| {
      var n := at - |front| - |blanks|;
      assert q[at + 7..] == body[n..];
      TrimShorterRest(body, n);
    }
  }

  lemma SliceEarly(q: string, front: string, where: string, blanks: string, body: string, at: nat)
    requires q == front + (where + (blanks + body)) && All(blanks, IsSpace) && body != [] && !IsSpace(body[0])
    requires |where| == 7 && where[6] == ' ' && !IsSpace(where[5]) && at < |front|
    ensures TrimSpace(q[at + 7..]) == TrimSpace(body) <==> at == |front| - 1
  {
    var head := front + where;
    var x := head[at + 7..];
    assert q == head + (blanks + body);
    assert q[at + 7..] == (x + blanks) + body by { Regroup(x, blanks, body); }
    if at == |front| - 1 {
      assert x == " ";
      TrimBlanksBefore(x + blanks, body);
    } else {
      assert (x + blanks)[|x| - 2] == where[5];
      TrimLonger(x + blanks, body);
    }
  }

  /** In UTF-8 the letter U+023A takes two bytes and its lower case, U+2C65, three. */
  const UPPER := "\U{C8}\U{BA}"
  const LOWER := "\U{E2}\U{B1}\U{A5}"

  lemma LongerCopy(upper: string, lower: string)
    requires (upper == UPPER && lower == LOWER) || (upper == UPPER + UPPER && lower == LOWER + LOWER)
    ensures Moved("from " + (upper + " where a"), "from " + upper, " where ", [], "a",
                  "from " + (lower + " where a"), 5 + |lower|)
  {
    var q := "from " + (upper + " where a");
    assert " where " + "a" == " where a";
    assert [] + "a" == "a";
    assert q == ("from " + upper) + (" where " + ([] + "a"));
    WhereAfterStream("from " + (lower + " where a"), lower, "a");
    assert AsciiLower(" where ") == " where ";
  }

  lemma LostClause(q: string, lower: string)
    requires q == "from " + (UPPER + " where a") && lower == "from " + (LOWER + " where a")
    ensures Clause(q, lower) == Some([])
  {
    assert " where " + "a" == " where a";
    WhereAfterStream(lower, LOWER, "a");
    assert q[15..] == [];
  }

  lemma BadSlice(q: string, lower: string)
    requires q == "from " + (UPPER + UPPER + " where a") && lower == "from " + (LOWER + LOWER + " where a")
    ensures Clause(q, lower) == None
  {
    LongerCopy(UPPER + UPPER, LOWER + LOWER);
    SliceExactly(q, "from " + (UPPER + UPPER), " where ", [], "a", lower, 5 + |LOWER + LOWER|);
  }

  /** One such letter in the stream name and the whole condition is lost ... */
  lemma LongerCopyLosesClause(q: string, table: string, toLower: string -> string)
    requires q == "from " + (UPPER + " where a") && toLower(q) == "from " + (LOWER + " where a")
    ensures TraceSql(q, table, toLower) == Success(Select(TableOr(table, "traces"), [Stream(UPPER)]))
  {
    LongerQuery(UPPER, LOWER, toLower);
    LostClause(q, toLower(q));
    EmptyClause();
  }

  /** ... and two put the slice out of range. */
  lemma LongerCopyMisses(q: string, table: string, toLower: string -> string)
    requires q == "from " + (UPPER + UPPER + " where a") && toLower(q) == "from " + (LOWER + LOWER + " where a")
    ensures TraceSql(q, table, toLower) == Failure(SliceOutOfRange)
  {
    LongerQuery(UPPER + UPPER, LOWER + LOWER, toLower);
    BadSlice(q, toLower(q));
  }

  /** Up to its slice such a query is in order. */
  lemma LongerQuery(upper: string, lower: string, toLower: string -> string)
    requires (upper == UPPER && lower == LOWER) || (upper == UPPER + UPPER && lower == LOWER + LOWER)
    requires toLower("from " + (upper + " where a")) == "from " + (lower + " where a")
    ensures var q := "from " + (upper + " where a");
            && TrimSpace(q) == q && HasPrefix(toLower(q), "from")
            && |Fields(q)| >= 2 && Fields(q)[1] == upper && Stripped(upper) == upper
  {
    var q := "from " + (upper + " where a");
    assert q[0] == 'f' && q[|q| - 1] == 'a';
    TrimFixed(q, IsSpace);
    LongerStream(upper);
    assert AsciiLower("from ") == "from ";
    StreamToken("from ", upper, " where a", q);
    assert toLower(q)[..4] == "from";
  }

  lemma LongerStream(upper: string)
    requires upper == UPPER || upper == UPPER + UPPER
    ensures CleanStream(upper) && Stripped(upper) == upper
  {
    TrimFixed(upper, IsSpace);
    TrimFixed(upper, IsQuote);
  }

  // --------------------------------------------- printing and extracting

  predicate IsOperator(c: char) {
    c == '!' || c == '=' || c == '>' || c == '<'
  }

  /** A key or a value without blanks, quotes and operator characters. */
  predicate CleanWord(w: string) {
    forall k :: 0 <= k < |w| ==> !IsSpace(w[k]) && !IsQuote(w[k]) && !IsOperator(w[k])
  }

  /** The value of a field may hold anything but blanks, quotation marks at its ends and,
      behind =, a !=; so it may well hold operators. */
  predicate CleanCond(c: Cond) {
    || (c.Compare? && CleanWord(c.key) && CleanWord(c.val))
    || (c.Field? && c.column == Attributes && CleanWord(c.key) && Legible(c)
        && forall k :: 0 <= k < |c.val| ==> !IsSpace(c.val[k]))
  }

  /** A stream name: one word, no quotes around it, and not the word where. */
  predicate CleanStream(s: string) {
    s != [] && (forall k :: 0 <= k < |s| ==> !IsSpace(s[k])) && Edges(s, IsQuote) && AsciiLower(s) != "where"
  }

  /** key="val" and the like, or key>val and key<val. */
  function PrintCond(c: Cond): string {
    if c.Compare? then c.key + ((if c.greater then ">" else "<") + c.val) else PrintLabel(c)
  }

  function PrintConds(conds: seq<Cond>): (parts: seq<string>)
    ensures |parts| == |conds| && forall k :: 0 <= k < |conds| ==> parts[k] == PrintCond(conds[k])
  {
    if conds == [] then [] else [PrintCond(conds[0])] + PrintConds(conds[1..])
  }

  /** The two keywords of a query with the blanks around them, in any case. */
  datatype Keywords = Keywords(from: string, where: string)

  predicate Spelled(k: Keywords) {
    AsciiLower(k.from) == "from " && AsciiLower(k.where) == " where "
  }

  /** from STREAM where COND and COND ... */
  function Print(k: Keywords, stream: string, conds: seq<Cond>): string {
    k.from + (stream + if conds == [] then [] else k.where + Join(PrintConds(conds), " and "))
  }

  lemma {:induction false} UnderscoredFixed(w: string)
    requires Lacks(w, ' ')
    ensures Underscored(w) == w
  {
  }

  lemma CleanWordKept(w: string)
    requires CleanWord(w)
    ensures TrimSpace(w) == w && Stripped(w) == w && SanitizeSqlIdentifier(w) == w && Lacks(w, ' ')
    ensures OperandKey(w) && Edges(w, IsQuote)
  {
    TrimFixed(w, IsSpace);
    TrimFixed(w, IsQuote);
    UnderscoredFixed(w);
  }

  lemma NoCharNoText(s: string, sub: string)
    requires sub != [] && Lacks(s, sub[0])
    ensures !Contains(s, sub)
  {
    if Contains(s, sub) { FirstCharIn(s, sub); }
  }

  lemma FieldBack(c: Cond)
    requires CleanCond(c) && c.Field?
    ensures TraceQl.PartCond(PrintCond(c)) == [c]
  {
    CleanWordKept(c.key);
    MatcherRoundTrip(c);
    OperatorIn(TrimSpace(PrintCond(c)));
  }

  lemma CompareBack(c: Cond)
    requires CleanCond(c) && c.Compare?
    ensures TraceQl.PartCond(PrintCond(c)) == [c]
  {
    CleanWordKept(c.key);
    CleanWordKept(c.val);
    var s, op := PrintCond(c), if c.greater then ">" else "<";
    assert s == c.key + op + c.val;
    forall k | 0 <= k < |s| ensures !IsSpace(s[k]) && s[k] != '!' && s[k] != '=' && (!c.greater ==> s[k] != '>') {
      if k < |c.key| {
        assert s[k] == c.key[k];
      } else if k > |c.key| {
        assert s[k] == c.val[k - |c.key| - 1];
      }
    }
    TrimFixed(s, IsSpace);
    NoCharNoText(s, "!=");
    NoCharNoText(s, "=");
    if !c.greater { NoCharNoText(s, ">"); }
    CutAt(c.key, op, c.val);
  }

  lemma CondBack(c: Cond)
    requires CleanCond(c)
    ensures TraceQl.PartCond(PrintCond(c)) == [c]
  {
    if c.Field? { FieldBack(c); } else { CompareBack(c); }
  }

  lemma PrintCondsSnoc(front: seq<Cond>, last: Cond)
    ensures PrintConds(front + [last]) == PrintConds(front) + [PrintCond(last)]
  {
  }

  lemma PartCondsSnoc(parts: seq<string>, part: string)
    ensures TraceQl.PartConds(parts + [part]) == TraceQl.PartConds(parts) + TraceQl.PartCond(part)
  {
    assert (parts + [part])[..|parts|] == parts;
  }

  lemma {:induction false} PartsBack(conds: seq<Cond>)
    requires forall k :: 0 <= k < |conds| ==> CleanCond(conds[k])
    ensures TraceQl.PartConds(PrintConds(conds)) == conds
  {
    if conds != [] {
      var front, last := conds[..|conds| - 1], conds[|conds| - 1];
      assert conds == front + [last];
      PartsBack(front);
      PrintCondsSnoc(front, last);
      PartCondsSnoc(PrintConds(front), PrintCond(last));
      CondBack(last);
    }
  }

  /** A printed condition is one word. */
  lemma PrintedWord(c: Cond)
    requires CleanCond(c)
    ensures var s := PrintCond(c); s != [] && forall k :: 0 <= k < |s| ==> !IsSpace(s[k])
  {
    var s := PrintCond(c);
    var op := if c.Compare? then (if c.greater then ">" else "<") else (if c.equal then "=" else "!=") + "\"";
    var rest := if c.Compare? then c.val else c.val + "\"";
    assert s == c.key + (op + rest);
    forall k | 0 <= k < |s| ensures !IsSpace(s[k]) {
      if k < |c.key| {
        assert s[k] == c.key[k];
      } else if k < |c.key| + |op| {
        assert s[k] == op[k - |c.key|];
      } else {
        assert s[k] == rest[k - |c.key| - |op|];
      }
    }
  }

  lemma {:induction false} JoinEdges(parts: seq<string>)
    requires parts != [] && forall k :: 0 <= k < |parts| ==> parts[k] != [] && Edges(parts[k], IsSpace)
    ensures var s := Join(parts, " and "); s != [] && Edges(s, IsSpace)
  {
    if |parts| > 1 {
      JoinEdges(parts[1..]);
      var s := Join(parts, " and ");
      assert s[0] == parts[0][0] && s[|s| - 1] == Join(parts[1..], " and ")[|Join(parts[1..], " and ")| - 1];
    }
  }

  /** The clause of a printed query is split back into its conditions. */
  lemma PrintedClause(conds: seq<Cond>)
    requires conds != [] && forall k :: 0 <= k < |conds| ==> CleanCond(conds[k])
    ensures var expr := Join(PrintConds(conds), " and ");
            expr != [] && Edges(expr, IsSpace) && TraceQl.PartConds(Split(expr, " and ")) == conds
  {
    var parts := PrintConds(conds);
    forall k | 0 <= k < |parts|
      ensures parts[k] != [] && Edges(parts[k], IsSpace) && ' ' !in parts[k]
    {
      PrintedWord(conds[k]);
    }
    JoinEdges(parts);
    SplitJoin(parts, " and ");
    PartsBack(conds);
  }

  lemma {:induction false} WordThenFields(word: string, rest: string, s: string)
    requires s == word + rest && word != [] && (forall k :: 0 <= k < |word| ==> !IsSpace(word[k]))
    requires rest != [] ==> IsSpace(rest[0])
    ensures Fields(s) == [word] + Fields(rest)
  {
    assert s[0] == word[0];
    var n := WordLength(s);
    assert forall k :: 0 <= k < |word| ==> s[k] == word[k];
    assert rest != [] ==> s[|word|] == rest[0];
    assert n == |word|;
    assert s[..n] == word && s[n..] == rest;
  }

  lemma Letters(low: string)
    requires low == "from "
    ensures |low| == 5 && low[4] == ' ' && forall j :: 0 <= j < 4 ==> !IsSpace(low[j])
  {
    assert low[0] == 'f' && low[1] == 'r' && low[2] == 'o' && low[3] == 'm';
  }

  lemma SpelledFrom(from: string)
    requires AsciiLower(from) == "from "
    ensures |from| == 5 && from == from[..4] + " " && forall j :: 0 <= j < 4 ==> !IsSpace(from[j])
  {
    Letters(AsciiLower(from));
    LowerSpace(from[4]);
    assert from[4..] == " ";
    assert from == from[..4] + from[4..];
    forall j | 0 <= j < 4 ensures !IsSpace(from[j]) {
      LowerSpace(from[j]);
      assert !IsSpace(AsciiLower(from)[j]);
    }
  }

  lemma StreamToken(from: string, stream: string, after: string, q: string)
    requires AsciiLower(from) == "from "
    requires CleanStream(stream) && (after != [] ==> after[0] == ' ')
    requires q == from + (stream + after)
    ensures |Fields(q)| >= 2 && Fields(q)[1] == stream
  {
    SpelledFrom(from);
    var t := " " + (stream + after);
    Regroup(from[..4], " ", stream + after);
    WordThenFields(from[..4], t, q);
    assert t[1..] == stream + after;
    WordThenFields(stream, after, t[1..]);
  }

  lemma LowerParts(a: string, b: string)
    ensures AsciiLower(a + b) == AsciiLower(a) + AsciiLower(b)
  {
  }

  lemma LowerKeeps(s: string)
    requires Lacks(s, ' ')
    ensures Lacks(AsciiLower(s), ' ')
  {
  }

  lemma NoWhere(stream: string, s: string)
    requires s == "from " + stream && Lacks(stream, ' ')
    ensures Index(s, " where ") == -1
  {
    assert forall k :: 5 <= k < |s| ==> s[k] == stream[k - 5];
    forall j ensures !At(s, " where ", j) {
      if At(s, " where ", j) {
        WhereMeans(s, j);
      }
    }
    NotFound(s, " where ");
  }

  lemma LowerFrom(from: string, rest: string, q: string)
    requires AsciiLower(from) == "from " && q == from + rest
    ensures HasPrefix(AsciiLower(q), "from")
  {
    LowerParts(from, rest);
    assert AsciiLower(q)[..4] == "from";
  }

  lemma WhereIndex(k: Keywords, stream: string, expr: string, q: string)
    requires Spelled(k) && CleanStream(stream) && q == k.from + (stream + (k.where + expr))
    ensures Index(AsciiLower(q), " where ") == 5 + |stream|
  {
    LowerParts(k.from, stream + (k.where + expr));
    LowerParts(stream, k.where + expr);
    LowerParts(k.where, expr);
    LowerKeeps(stream);
    WhereAfterStream(AsciiLower(q), AsciiLower(stream), AsciiLower(expr));
  }

  lemma BehindWhere(k: Keywords, stream: string, expr: string, q: string)
    requires Spelled(k) && q == k.from + (stream + (k.where + expr))
    ensures 5 + |stream| + 7 <= |q| && q[5 + |stream| + 7..] == expr
  {
    SpelledFrom(k.from);
    SpelledWhere(k.where);
  }

  /** The clause behind a printed stream is found at its place in the lower-cased copy. */
  lemma PrintedWhere(k: Keywords, stream: string, expr: string, q: string)
    requires Spelled(k) && CleanStream(stream) && q == k.from + (stream + (k.where + expr)) && Edges(expr, IsSpace)
    ensures Clause(q, AsciiLower(q)) == Some(expr)
  {
    WhereIndex(k, stream, expr, q);
    BehindWhere(k, stream, expr, q);
    TrimFixed(expr, IsSpace);
  }

  lemma PrintedNoWhere(from: string, stream: string, q: string)
    requires AsciiLower(from) == "from " && CleanStream(stream) && q == from + stream
    ensures HasPrefix(AsciiLower(q), "from") && Clause(q, AsciiLower(q)) == Some([])
  {
    LowerParts(from, stream);
    LowerKeeps(stream);
    NoWhere(AsciiLower(stream), AsciiLower(q));
    assert AsciiLower(q)[..4] == "from";
  }

  lemma EdgesOf(a: string, b: string)
    requires a != [] && b != [] && !IsSpace(a[0]) && !IsSpace(b[|b| - 1])
    ensures !IsSpace((a + b)[0]) && !IsSpace((a + b)[|a + b| - 1])
    ensures Edges(a + b, IsSpace)
  {
  }

  lemma PrintTrimmed(k: Keywords, stream: string, conds: seq<Cond>)
    requires Spelled(k) && CleanStream(stream) && forall j :: 0 <= j < |conds| ==> CleanCond(conds[j])
    ensures TrimSpace(Print(k, stream, conds)) == Print(k, stream, conds)
  {
    var after := if conds == [] then [] else k.where + Join(PrintConds(conds), " and ");
    SpelledFrom(k.from);
    if conds == [] {
      assert stream + after == stream;
    } else {
      PrintedClause(conds);
      LastKept(k.where, Join(PrintConds(conds), " and "));
      EdgesOf(stream, after);
    }
    EdgesOf(k.from, stream + after);
    TrimFixed(k.from + (stream + after), IsSpace);
  }

  lemma LastKept(a: string, b: string)
    requires b != []
    ensures (a + b)[|a + b| - 1] == b[|b| - 1]
  {
  }

  /** Extraction undoes printing: a printed ASCII query, its keywords in any case, has
      exactly the test of its stream and then each comparison with its own operator, in
      order, and its slice is in bounds. */
  lemma ExtractionUndoesPrinting(k: Keywords, stream: string, conds: seq<Cond>)
    requires Spelled(k) && CleanStream(stream) && forall j :: 0 <= j < |conds| ==> CleanCond(conds[j])
    ensures var q := Print(k, stream, conds);
            TrimSpace(q) == q && TraceQl.Conditions(q, AsciiLower(q)) == Success([Stream(stream)] + conds)
  {
    var q := Print(k, stream, conds);
    PrintTrimmed(k, stream, conds);
    TrimFixed(stream, IsSpace);
    TrimFixed(stream, IsQuote);
    if conds == [] {
      assert stream + [] == stream;
      PrintedNoWhere(k.from, stream, q);
      StreamToken(k.from, stream, [], q);
      EmptyClause();
    } else {
      var expr := Join(PrintConds(conds), " and ");
      PrintedClause(conds);
      PrintedWhere(k, stream, expr, q);
      LowerFrom(k.from, stream + (k.where + expr), q);
      SpelledWhere(k.where);
      StreamToken(k.from, stream, k.where + expr, q);
    }
  }

  /** Translate, then read: the SQL of a printed ASCII query is the SELECT of the test of
      the stream and of the source conditions, and it is read back as these, in order and
      nothing else, if and only if the given table is none or a name and both sides of
      every comparison are operands. */
  lemma TranslateThenRead(k: Keywords, stream: string, conds: seq<Cond>, table: string, toLower: string -> string)
    requires Spelled(k) && CleanStream(stream) && forall j :: 0 <= j < |conds| ==> CleanCond(conds[j])
    requires toLower(Print(k, stream, conds)) == AsciiLower(Print(k, stream, conds))
    ensures var all, name := [Stream(stream)] + conds, TableOr(table, "traces");
            && TraceSql(Print(k, stream, conds), table, toLower) == Success(Select(name, all))
            && (ReadSelect(Select(name, all)) == Some((name, all))
                <==> NamedTable(table) && forall j :: 0 <= j < |conds| && conds[j].Compare? ==>
                       IsOperand(conds[j].key) && IsOperand(conds[j].val))
  {
    var all, name := [Stream(stream)] + conds, TableOr(table, "traces");
    ExtractionUndoesPrinting(k, stream, conds);
    Written(Print(k, stream, conds), table, toLower, name, all, Select(name, all));
    ReadsTraces(table, name, all, Select(name, all));
    ReadableConds(stream, conds);
  }

  lemma CleanReadable(c: Cond)
    requires CleanCond(c)
    ensures Readable(c) <==> (c.Compare? ==> IsOperand(c.key) && IsOperand(c.val))
  {
  }

  lemma FirstReadable(first: Cond, conds: seq<Cond>)
    requires Readable(first)
    ensures (forall c :: c in [first] + conds ==> Readable(c)) <==> forall j :: 0 <= j < |conds| ==> Readable(conds[j])
  {
    var all := [first] + conds;
    assert forall c :: c in all <==> c == first || c in conds;
    assert forall j :: 0 <= j < |conds| ==> conds[j] in conds;
  }

  lemma ReadableConds(stream: string, conds: seq<Cond>)
    requires forall j :: 0 <= j < |conds| ==> CleanCond(conds[j])
    ensures (forall c :: c in [Stream(stream)] + conds ==> Readable(c))
            <==> forall j :: 0 <= j < |conds| && conds[j].Compare? ==>
                   IsOperand(conds[j].key) && IsOperand(conds[j].val)
  {
    FirstReadable(Stream(stream), conds);
    forall j | 0 <= j < |conds|
      ensures Readable(conds[j]) <==> (conds[j].Compare? ==> IsOperand(conds[j].key) && IsOperand(conds[j].val))
    {
      CleanReadable(conds[j]);
    }
  }

  // ------------------------------------------------------ a value with a unit

  lemma AndMeans(s: string, j: nat)
    requires At(s, " and ", j)
    ensures j + 5 <= |s| && s[j] == ' ' && s[j + 4] == ' '
  {
    assert s[j..j + 5][0] == ' ' && s[j..j + 5][4] == ' ';
  }

  lemma SpacedEnds(key: string, val: string)
    requires CleanWord(key) && CleanWord(val) && key != [] && val != []
    ensures var s := key + " " + ">" + (" " + val);
            && Edges(s, IsSpace) && !Contains(s, " and ") && !Contains(s, "!=") && !Contains(s, "=")
            && Contains(s, ">") && Cut(s, ">") == (key + " ", " " + val)
  {
    var s := key + " " + ">" + (" " + val);
    forall k | 0 <= k < |s|
      ensures s[k] != '!' && s[k] != '=' && (IsSpace(s[k]) ==> k == |key| || k == |key| + 2)
    {
      if k < |key| {
        assert s[k] == key[k];
      } else if k > |key| + 2 {
        assert s[k] == val[k - |key| - 3];
      }
    }
    assert s[0] == key[0] && s[|s| - 1] == val[|val| - 1];
    forall j ensures !At(s, " and ", j) {
      if At(s, " and ", j) { AndMeans(s, j); }
    }
    NotFound(s, " and ");
    NoCharNoText(s, "!=");
    NoCharNoText(s, "=");
    CutAt(key + " ", ">", " " + val);
  }

  lemma SpacedCompare(key: string, val: string)
    requires CleanWord(key) && CleanWord(val) && key != [] && val != []
    ensures var s := key + " " + ">" + (" " + val);
            Edges(s, IsSpace) && TraceQl.PartConds(Split(s, " and ")) == [Compare(key, true, val)]
  {
    var s := key + " " + ">" + (" " + val);
    SpacedEnds(key, val);
    CleanWordKept(key);
    CleanWordKept(val);
    TrimFixed(s, IsSpace);
    assert [] + key + " " == key + " ";
    TrimOf([], key, " ", IsSpace);
    assert " " + val + [] == " " + val;
    TrimOf(" ", val, [], IsSpace);
    assert TraceQl.PartCond(s) == [Compare(key, true, val)];
    PartCondsSnoc([], s);
    assert [] + [s] == [s];
  }

  lemma QueryTrimmed(k: Keywords, stream: string, expr: string, q: string)
    requires Spelled(k) && CleanStream(stream) && q == k.from + (stream + (k.where + expr))
    requires expr != [] && Edges(expr, IsSpace)
    ensures TrimSpace(q) == q
  {
    SpelledFrom(k.from);
    assert q[0] == k.from[0] && q[|q| - 1] == expr[|expr| - 1];
    TrimFixed(q, IsSpace);
  }

  lemma OneClause(k: Keywords, stream: string, expr: string, q: string, conds: seq<Cond>)
    requires Spelled(k) && CleanStream(stream) && q == k.from + (stream + (k.where + expr))
    requires expr != [] && Edges(expr, IsSpace) && TraceQl.PartConds(Split(expr, " and ")) == conds
    ensures TrimSpace(q) == q && TraceQl.Conditions(q, AsciiLower(q)) == Success([Stream(stream)] + conds)
  {
    SpelledWhere(k.where);
    PrintedWhere(k, stream, expr, q);
    LowerFrom(k.from, stream + (k.where + expr), q);
    StreamToken(k.from, stream, k.where + expr, q);
    QueryTrimmed(k, stream, expr, q);
    TrimFixed(stream, IsSpace);
    TrimFixed(stream, IsQuote);
  }

  lemma SpacedQuery(k: Keywords, stream: string, expr: string, key: string, val: string, q: string)
    requires Spelled(k) && CleanStream(stream) && CleanWord(key) && CleanWord(val) && key != [] && val != []
    requires expr == key + " " + ">" + (" " + val) && q == k.from + (stream + (k.where + expr))
    ensures TrimSpace(q) == q
    ensures TraceQl.Conditions(q, AsciiLower(q)) == Success([Stream(stream)] + [Compare(key, true, val)])
  {
    SpacedCompare(key, val);
    OneClause(k, stream, expr, q, [Compare(key, true, val)]);
  }

  lemma UnitIsNotReadable(key: string, digits: string, unit: string, val: string, conds: seq<Cond>)
    requires digits != [] && All(digits, IsDigit) && val == digits + unit
    requires unit != [] && IsLetter(unit[0]) && unit[0] != 'e' && unit[0] != 'E'
    requires Compare(key, true, val) in conds
    ensures exists c :: c in conds && !Readable(c)
  {
    UnitIsNoOperand(digits, unit);
    assert !Readable(Compare(key, true, val));
  }

  /** A comparison of a key with a number and its unit, 100ms say, is written as it stands,
      and the SQL is not read back as that comparison, whatever the table. */
  lemma UnitIsNotRead(k: Keywords, stream: string, key: string, digits: string, unit: string, val: string,
                      conds: seq<Cond>, q: string, table: string, toLower: string -> string)
    returns (sql: string)
    requires Spelled(k) && CleanStream(stream) && CleanWord(key) && key != []
    requires digits != [] && All(digits, IsDigit) && val == digits + unit
    requires unit != [] && CleanWord(unit) && IsLetter(unit[0]) && unit[0] != 'e' && unit[0] != 'E'
    requires q == k.from + (stream + (k.where + (key + " " + ">" + (" " + val)))) && toLower(q) == AsciiLower(q)
    requires conds == [Stream(stream)] + [Compare(key, true, val)]
    ensures TraceSql(q, table, toLower) == Success(sql) && sql == Select(TableOr(table, "traces"), conds)
    ensures ReadSelect(sql) != Some((TableOr(table, "traces"), conds))
  {
    var name := TableOr(table, "traces");
    SpacedQuery(k, stream, key + " " + ">" + (" " + val), key, val, q);
    UnitIsNotReadable(key, digits, unit, val, conds);
    sql := Select(name, conds);
    Written(q, table, toLower, name, conds, sql);
    ReadsTraces(table, name, conds, sql);
  }

  lemma DurationWords(stream: string, key: string, digits: string, unit: string)
    requires stream == "s" && key == "duration" && digits == "100" && unit == "ms"
    ensures CleanStream(stream) && key != [] && CleanWord(key) && digits != [] && All(digits, IsDigit)
    ensures unit != [] && CleanWord(unit) && IsLetter(unit[0]) && unit[0] != 'e' && unit[0] != 'E'
  {
  }

  lemma PlainKeywords() returns (k: Keywords)
    ensures Spelled(k) && k.from == "from " && k.where == " where "
  {
    k := Keywords("from ", " where ");
  }

  lemma DurationQuery(stream: string, key: string, digits: string, unit: string, q: string)
    requires stream == "s" && key == "duration" && digits == "100" && unit == "ms"
    requires q == "from s where duration > 100ms"
    ensures q == "from " + (stream + (" where " + (key + " " + ">" + (" " + (digits + unit)))))
  {
  }

  lemma DurationLower(q: string)
    requires q == "from s where duration > 100ms"
    ensures AsciiLower(q) == q
  {
  }

  /** The query `from s where duration > 100ms` is one of them. */
  lemma DurationIsNotRead(stream: string, key: string, digits: string, unit: string, q: string, conds: seq<Cond>,
                          table: string, toLower: string -> string) returns (sql: string)
    requires stream == "s" && key == "duration" && digits == "100" && unit == "ms"
    requires q == "from s where duration > 100ms" && toLower(q) == q
    requires conds == [Stream(stream)] + [Compare(key, true, digits + unit)]
    ensures TraceSql(q, table, toLower) == Success(sql) && sql == Select(TableOr(table, "traces"), conds)
    ensures ReadSelect(sql) != Some((TableOr(table, "traces"), conds))
  {
    DurationWords(stream, key, digits, unit);
    var k := PlainKeywords();
    DurationQuery(stream, key, digits, unit, q);
    DurationLower(q);
    sql := UnitIsNotRead(k, stream, key, digits, unit, digits + unit, conds, q, table, toLower);
  }
}
