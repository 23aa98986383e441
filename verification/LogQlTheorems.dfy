/** What the log translation means: the SQL holds exactly the extracted conditions, and
    extraction undoes printing. */
module LogQlTheorems {
  import opened Wrappers
  import opened GoStrings
  import opened SqlText
  import opened SqlConds
  import opened SqlTokens
  import opened LogPipeline
  import opened LogQl

  // ----------------------------------------- the SQL says what was extracted

  /** For every query at all: the SQL that is returned is read back as the table and
      exactly the conditions of the query, if and only if the given table is none or a
      name and no label key, once trimmed, has an apostrophe inside. */
  lemma TranslationReadsBack(query: string, table: string)
    requires LogSql(query, table).Success?
    ensures var conds := Conditions(TrimSpace(query)).value;
            ReadSelect(LogSql(query, table).value) == Some((TableOr(table, "logs"), conds))
            <==> NamedTable(table) && forall c :: c in conds && c.Field? ==> '\'' !in c.key
  {
    var q := TrimSpace(query);
    var (selector, pipeline) := Sections(q).value;
    NoComparisons(Split(selector, ","), FindAll(pipeline));
    ReadsLogs(table, TableOr(table, "logs"), Conditions(q).value, LogSql(query, table).value);
  }

  lemma ReadsLogs(table: string, name: string, conds: seq<Cond>, sql: string)
    requires name == TableOr(table, "logs") && sql == Select(name, conds)
    ensures ReadSelect(sql) == Some((name, conds)) <==> NamedTable(table) && forall c :: c in conds ==> Readable(c)
  {
    DefaultedRoundTrip(table, "logs", name, conds, sql);
  }

  /** No query comes back from a table that holds a comment sign. */
  lemma CommentIsNoTable(query: string, table: string)
    requires LogSql(query, table).Success? && table == "logs--"
    ensures ReadSelect(LogSql(query, table).value)
            != Some((TableOr(table, "logs"), Conditions(TrimSpace(query)).value))
  {
    DashIsNoName(table);
    TranslationReadsBack(query, table);
  }

  lemma DashIsNoName(table: string)
    requires table == "logs--"
    ensures !NamedTable(table)
  {
    TrimFixed(table, IsSpace);
    TrimFixed(table, IsQuote);
    assert Underscored(table)[4] == '-';
    if IsName(Underscored(table)) { NameChars(Underscored(table)); }
  }

  /** A log query has no comparisons, which would be written without quotes. */
  lemma NoComparisons(parts: seq<string>, hits: seq<Hit>)
    ensures forall c :: c in PartConds(parts) + HitConds(hits) ==> !c.Compare?
  {
    if parts != [] {
      NoComparisons(parts[..|parts| - 1], hits);
    } else if hits != [] {
      NoComparisons(parts, hits[..|hits| - 1]);
    }
  }

  lemma BlankOrNot(s: string)
    ensures TrimSpace(s) == [] <==> All(s, IsSpace)
  {
    if All(s, IsSpace) {
      assert s + [] + [] == s;
      TrimOf(s, [], [], IsSpace);
    } else {
      var pre, post := TrimSplits(s, IsSpace);
    }
  }

  /** The translator fails on exactly two kinds of query: blank ones, and those whose
      selector is never closed. */
  lemma FailsOnlyOn(query: string, table: string)
    ensures LogSql(query, table) == Failure(EmptyQuery) <==> All(query, IsSpace)
    ensures LogSql(query, table) == Failure(InvalidSelector) <==>
            TrimSpace(query) != [] && TrimSpace(query)[0] == '{' && Lacks(TrimSpace(query), '}')
  {
    BlankOrNot(query);
    IndexChar(TrimSpace(query), '}');
  }

  // --------------------------------------------- printing and extracting

  function PrintLabel(c: Cond): string {
    if c.Field? then c.key + ((if c.equal then "=" else "!=") + ("\"" + (c.val + "\""))) else []
  }

  function PrintOp(op: Op): string {
    match op
    case Has => "="
    case HasNot => "!="
    case Matches => "~"
    case MatchesNot => "!~"
  }

  function HitOf(c: Cond): Hit {
    if c.Message? then Hit(PrintOp(c.op), c.val) else Hit([], [])
  }

  /** One filter after the other, each after a blank. */
  function PrintFilters(filters: seq<Cond>): string {
    if filters == [] then [] else " " + Matched(HitOf(filters[0]), " ", PrintFilters(filters[1..]))
  }

  function PrintLabels(labels: seq<Cond>): (parts: seq<string>)
    ensures |parts| == |labels| && forall k :: 0 <= k < |labels| ==> parts[k] == PrintLabel(labels[k])
  {
    if labels == [] then [] else [PrintLabel(labels[0])] + PrintLabels(labels[1..])
  }

  /** A log query with these label matchers and these filters. */
  function Print(labels: seq<Cond>, filters: seq<Cond>): string {
    "{" + (Join(PrintLabels(labels), ",") + ("}" + PrintFilters(filters)))
  }

  /** A key in front of an operator: no blank or quote that sanitizing would change, and
      nothing of an operator. */
  predicate OperandKey(key: string) {
    SanitizeSqlIdentifier(key) == key && Lacks(key, '=') && Lacks(key, '!')
  }

  /** A key that a matcher can hold. */
  predicate CleanKey(key: string) {
    OperandKey(key) && Lacks(key, ',') && Lacks(key, '}')
  }

  /** A value that a matcher can hold. */
  predicate CleanValue(val: string) {
    Lacks(val, ',') && Lacks(val, '}')
  }

  /** What a matcher's value must not do: begin or end in a quote, or hold != behind =. */
  predicate Legible(c: Cond)
    requires c.Field?
  {
    Edges(c.val, IsQuote) && (c.equal ==> !Contains(c.val, "!="))
  }

  predicate CleanLabel(c: Cond) {
    c.Field? && c.column == Labels && CleanKey(c.key) && CleanValue(c.val) && Legible(c)
  }

  /** A filter text without a double quote, and without blanks or quotes at its ends. */
  predicate CleanFilter(c: Cond) {
    c.Message? && Lacks(c.val, '"') && Stripped(c.val) == c.val
  }

  lemma FixedTrim(s: string, p: char -> bool)
    requires |Trim(s, p)| == |s|
    ensures Trim(s, p) == s && Edges(s, p)
  {
    var pre, post := TrimSplits(s, p);
    assert pre == [] && post == [];
  }

  lemma TrimShorter(s: string, p: char -> bool)
    ensures |Trim(s, p)| <= |s|
  {
    var pre, post := TrimSplits(s, p);
  }

  lemma CleanKeyEdges(key: string)
    requires SanitizeSqlIdentifier(key) == key
    ensures TrimSpace(key) == key && Edges(key, IsSpace) && Stripped(key) == key
  {
    TrimShorter(key, IsSpace);
    TrimShorter(TrimSpace(key), IsQuote);
    FixedTrim(key, IsSpace);
    FixedTrim(key, IsQuote);
  }

  /** A quoted value loses its quotes, and more only if it starts or ends in some. */
  lemma UnquotedValue(val: string)
    ensures Stripped("\"" + (val + "\"")) == val <==> Edges(val, IsQuote)
  {
    var s := "\"" + (val + "\"");
    TrimFixed(s, IsSpace);
    if Edges(val, IsQuote) {
      assert s == "\"" + val + "\"";
      TrimOf("\"", val, "\"", IsQuote);
    } else {
      var pre, post := TrimSplits(s, IsQuote);
    }
  }

  lemma LabelEdges(c: Cond)
    requires c.Field? && OperandKey(c.key)
    ensures TrimSpace(PrintLabel(c)) == PrintLabel(c)
  {
    CleanKeyEdges(c.key);
    var s := PrintLabel(c);
    assert s[|s| - 1] == '"';
    assert s[0] == if c.key != [] then c.key[0] else if c.equal then '=' else '!';
    TrimFixed(s, IsSpace);
  }

  lemma AtBang(s: string, k: nat)
    requires k + 1 < |s|
    ensures At(s, "!=", k) <==> s[k] == '!' && s[k + 1] == '='
  {
    assert s[k..k + 2] == [s[k], s[k + 1]];
  }

  /** What a printed = matcher holds at each place. */
  ghost predicate Laid(key: string, val: string, s: string) {
    var n := |key| + 2;
    && |s| == n + |val| + 1 && s[|key|] == '=' && s[|key| + 1] == '"' && s[|s| - 1] == '"'
    && (forall k :: 0 <= k < |key| ==> s[k] != '!')
    && (forall k :: 0 <= k < |val| ==> s[n + k] == val[k])
  }

  lemma BangInValue(key: string, val: string, s: string)
    requires Laid(key, val, s) && Contains(s, "!=")
    ensures Contains(val, "!=")
  {
    IndexFirst(s, "!=");
    var r, n := Index(s, "!="), |key| + 2;
    AtBang(s, r);
    assert r >= n && r - n + 1 < |val|;
    assert s[n + (r - n)] == val[r - n] && s[n + (r - n + 1)] == val[r - n + 1];
    AtBang(val, r - n);
    IndexFirst(val, "!=");
  }

  lemma BangFromValue(key: string, val: string, s: string)
    requires Laid(key, val, s) && Contains(val, "!=")
    ensures Contains(s, "!=")
  {
    IndexFirst(val, "!=");
    var r, n := Index(val, "!="), |key| + 2;
    AtBang(val, r);
    assert s[n + r] == val[r] && s[n + (r + 1)] == val[r + 1];
    AtBang(s, n + r);
    IndexFirst(s, "!=");
  }

  /** Behind a key with =, only the value can hold a !=. */
  lemma BangOnlyInValue(key: string, val: string, s: string)
    requires Lacks(key, '!') && s == key + ("=" + ("\"" + (val + "\"")))
    ensures Contains(s, "!=") <==> Contains(val, "!=")
  {
    assert forall k :: 0 <= k < |key| ==> s[k] == key[k];
    assert Laid(key, val, s);
    if Contains(s, "!=") { BangInValue(key, val, s); }
    if Contains(val, "!=") { BangFromValue(key, val, s); }
  }

  /** Reading a printed matcher gives the matcher back, if and only if its value does
      not begin or end in a quote and, behind an =, holds no !=. */
  lemma MatcherRoundTrip(c: Cond)
    requires c.Field? && OperandKey(c.key)
    ensures FieldCond(c.column, TrimSpace(PrintLabel(c))) == [c] <==> Legible(c)
  {
    LabelEdges(c);
    UnquotedValue(c.val);
    var s, rest := PrintLabel(c), "\"" + (c.val + "\"");
    var op := if c.equal then "=" else "!=";
    assert s == c.key + op + rest;
    if c.equal { BangOnlyInValue(c.key, c.val, s); }
    if !c.equal || !Contains(c.val, "!=") { CutAt(c.key, op, rest); }
  }

  lemma PrintLabelsSnoc(front: seq<Cond>, last: Cond)
    ensures PrintLabels(front + [last]) == PrintLabels(front) + [PrintLabel(last)]
  {
  }

  lemma PartCondsSnoc(parts: seq<string>, part: string)
    ensures PartConds(parts + [part]) == PartConds(parts) + PartCond(part)
  {
    assert (parts + [part])[..|parts|] == parts;
  }

  lemma {:induction false} PrintedParts(labels: seq<Cond>)
    requires forall k :: 0 <= k < |labels| ==> CleanLabel(labels[k])
    ensures PartConds(PrintLabels(labels)) == labels
  {
    if labels != [] {
      var front, last := labels[..|labels| - 1], labels[|labels| - 1];
      assert labels == front + [last];
      PrintedParts(front);
      PrintLabelsSnoc(front, last);
      PartCondsSnoc(PrintLabels(front), PrintLabel(last));
      MatcherRoundTrip(last);
    }
  }

  lemma LacksIn(c: Cond, ch: char)
    requires CleanLabel(c) && (ch == ',' || ch == '}')
    ensures Lacks(PrintLabel(c), ch)
  {
    var s := PrintLabel(c);
    var op := if c.equal then "=" else "!=";
    forall k | 0 <= k < |s| ensures s[k] != ch {
      if k < |c.key| {
        assert s[k] == c.key[k];
      } else if k < |c.key| + |op| {
        assert s[k] == op[k - |c.key|];
      } else if |c.key| + |op| < k < |s| - 1 {
        assert s[k] == c.val[k - |c.key| - |op| - 1];
      }
    }
  }

  lemma {:induction false} JoinLacks(parts: seq<string>, ch: char)
    requires ch != ',' && forall k :: 0 <= k < |parts| ==> Lacks(parts[k], ch)
    ensures Lacks(Join(parts, ","), ch)
  {
    if |parts| > 1 { JoinLacks(parts[1..], ch); }
  }

  /** The selector of a printed query is split back into its matchers. */
  lemma PrintedSelector(labels: seq<Cond>)
    requires forall k :: 0 <= k < |labels| ==> CleanLabel(labels[k])
    ensures var selector := Join(PrintLabels(labels), ",");
            Lacks(selector, '}') && PartConds(Split(selector, ",")) == labels
  {
    var parts := PrintLabels(labels);
    forall k | 0 <= k < |parts| ensures Lacks(parts[k], ',') && Lacks(parts[k], '}') {
      LacksIn(labels[k], ',');
      LacksIn(labels[k], '}');
    }
    JoinLacks(parts, '}');
    if labels == [] {
      EmptySelector();
    } else {
      SplitJoin(parts, ",");
      PrintedParts(labels);
    }
  }

  lemma {:induction false} FiltersEnd(filters: seq<Cond>)
    requires filters != []
    ensures var s := PrintFilters(filters); |s| >= 2 && s[0] == ' ' && s[1] == '|' && s[|s| - 1] == '"'
  {
    var h, rest := HitOf(filters[0]), PrintFilters(filters[1..]);
    if rest != [] { FiltersEnd(filters[1..]); }
    TailEnd(h, rest);
  }

  lemma TailEnd(h: Hit, rest: string)
    ensures var s := Matched(h, " ", rest); s[|s| - 1] == if rest == [] then '"' else rest[|rest| - 1]
  {
  }

  function Hits(filters: seq<Cond>): (hits: seq<Hit>)
    ensures |hits| == |filters| && forall k :: 0 <= k < |filters| ==> hits[k] == HitOf(filters[k])
  {
    if filters == [] then [] else [HitOf(filters[0])] + Hits(filters[1..])
  }

  lemma FilterGroups(c: Cond)
    requires CleanFilter(c)
    ensures Groups(HitOf(c), " ") && HitCond(HitOf(c)) == [c]
  {
  }

  lemma PrintedFilter(c: Cond, rest: string, t: string)
    requires CleanFilter(c) && t == " " + Matched(HitOf(c), " ", rest)
    ensures FindAll(t) == [HitOf(c)] + FindAll(rest)
  {
    FilterGroups(c);
    FindSkips(t);
    var s := t[1..];
    assert s == Matched(HitOf(c), " ", rest);
    FindNext(s, HitOf(c), |s| - |rest|, " ", rest);
  }

  lemma {:induction false} PrintedPipeline(filters: seq<Cond>)
    requires forall k :: 0 <= k < |filters| ==> CleanFilter(filters[k])
    ensures FindAll(PrintFilters(filters)) == Hits(filters)
  {
    if filters != [] {
      PrintedPipeline(filters[1..]);
      PrintedFilter(filters[0], PrintFilters(filters[1..]), PrintFilters(filters));
    }
  }

  lemma HitsSnoc(front: seq<Cond>, last: Cond)
    ensures HitConds(Hits(front + [last])) == HitConds(Hits(front)) + HitCond(HitOf(last))
  {
    assert Hits(front + [last]) == Hits(front) + [HitOf(last)];
    HitCondsSnoc(Hits(front), HitOf(last));
  }

  lemma HitCondsSnoc(hits: seq<Hit>, h: Hit)
    ensures HitConds(hits + [h]) == HitConds(hits) + HitCond(h)
  {
    assert (hits + [h])[..|hits|] == hits;
  }

  lemma {:induction false} HitsBack(filters: seq<Cond>)
    requires forall k :: 0 <= k < |filters| ==> CleanFilter(filters[k])
    ensures HitConds(Hits(filters)) == filters
  {
    if filters != [] {
      var front, last := filters[..|filters| - 1], filters[|filters| - 1];
      assert filters == front + [last];
      HitsBack(front);
      HitsSnoc(front, last);
      FilterGroups(last);
    }
  }

  lemma TrimmedPipeline(filters: seq<Cond>)
    ensures FindAll(TrimSpace(PrintFilters(filters))) == FindAll(PrintFilters(filters))
  {
    var s := PrintFilters(filters);
    if filters == [] {
      TrimFixed(s, IsSpace);
    } else {
      FiltersEnd(filters);
      assert s == " " + s[1..] + [];
      TrimOf(" ", s[1..], [], IsSpace);
      FindSkips(s);
    }
  }

  lemma PrintedTrimmed(selector: string, tail: string, q: string)
    requires q == "{" + (selector + ("}" + tail)) && (tail != [] ==> tail[|tail| - 1] == '"')
    ensures TrimSpace(q) == q
  {
    assert q[0] == '{' && q[|q| - 1] == if tail == [] then '}' else tail[|tail| - 1];
    TrimFixed(q, IsSpace);
  }

  lemma BraceAt(selector: string, tail: string, q: string)
    requires q == "{" + (selector + ("}" + tail)) && Lacks(selector, '}')
    ensures HasPrefix(q, "{") && Index(q, "}") == 1 + |selector|
    ensures q[1..1 + |selector|] == selector && q[|selector| + 2..] == tail
  {
    Regroup("{", selector, "}" + tail);
    CharAfter("{" + selector, '}', tail);
  }

  lemma PrintedSections(labels: seq<Cond>, filters: seq<Cond>)
    requires Lacks(Join(PrintLabels(labels), ","), '}')
    ensures TrimSpace(Print(labels, filters)) == Print(labels, filters)
    ensures Sections(Print(labels, filters)) == Some((Join(PrintLabels(labels), ","), TrimSpace(PrintFilters(filters))))
  {
    var selector, tail := Join(PrintLabels(labels), ","), PrintFilters(filters);
    if filters != [] { FiltersEnd(filters); }
    PrintedTrimmed(selector, tail, Print(labels, filters));
    BraceAt(selector, tail, Print(labels, filters));
  }

  /** Extraction undoes printing: a query printed from any number of clean matchers and
      any number of clean filters has exactly these conditions, in order. */
  lemma ExtractionUndoesPrinting(labels: seq<Cond>, filters: seq<Cond>)
    requires forall k :: 0 <= k < |labels| ==> CleanLabel(labels[k])
    requires forall k :: 0 <= k < |filters| ==> CleanFilter(filters[k])
    ensures Conditions(TrimSpace(Print(labels, filters))) == Success(labels + filters)
  {
    PrintedSelector(labels);
    PrintedSections(labels, filters);
    TrimmedPipeline(filters);
    PrintedPipeline(filters);
    HitsBack(filters);
  }

  /** Translate, then read: the SQL of a printed query is the SELECT of its source
      conditions, and it is read back as all of them, in order and nothing else (1=1 when
      there are none), if and only if the given table is none or a name and no label key
      has an apostrophe inside. */
  lemma TranslateThenRead(labels: seq<Cond>, filters: seq<Cond>, table: string)
    requires forall k :: 0 <= k < |labels| ==> CleanLabel(labels[k])
    requires forall k :: 0 <= k < |filters| ==> CleanFilter(filters[k])
    ensures LogSql(Print(labels, filters), table) == Success(Select(TableOr(table, "logs"), labels + filters))
    ensures ReadSelect(Select(TableOr(table, "logs"), labels + filters))
             == Some((TableOr(table, "logs"), labels + filters))
            <==> NamedTable(table) && forall k :: 0 <= k < |labels| && labels[k].Field? ==> '\'' !in labels[k].key
  {
    ExtractionUndoesPrinting(labels, filters);
    var name := TableOr(table, "logs");
    ReadsLogs(table, name, labels + filters, Select(name, labels + filters));
    ReadableLabels(labels, filters);
  }

  lemma ReadableLabels(labels: seq<Cond>, filters: seq<Cond>)
    requires forall k :: 0 <= k < |labels| ==> CleanLabel(labels[k])
    requires forall k :: 0 <= k < |filters| ==> CleanFilter(filters[k])
    ensures (forall c :: c in labels + filters ==> Readable(c))
            <==> forall k :: 0 <= k < |labels| && labels[k].Field? ==> '\'' !in labels[k].key
  {
    var all := labels + filters;
    assert forall k :: 0 <= k < |labels| ==> CleanLabel(labels[k]) && all[k] == labels[k] && labels[k] in all;
    forall c | c in all && (forall k :: 0 <= k < |labels| && labels[k].Field? ==> '\'' !in labels[k].key)
      ensures Readable(c)
    {
      var k :| 0 <= k < |all| && all[k] == c;
      assert k >= |labels| ==> CleanFilter(filters[k - |labels|]);
      assert k < |labels| ==> CleanLabel(labels[k]);
    }
  }
}
