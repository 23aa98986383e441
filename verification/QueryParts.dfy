/** What the parts of log and trace queries mean, whatever blanks, quotation marks and
    operators they hold: matchers, comparisons, filters and sections. */
module QueryParts {
  import opened Wrappers
  import opened GoStrings
  import opened SqlText
  import opened SqlConds
  import opened LogPipeline
  import LogQl
  import opened LogQlTheorems
  import TraceQl

  // ------------------------------------------------ matchers with blanks

  /** Blanks before and after the key and the value of a matcher. */
  datatype Pads = Pads(front: string, before: string, after: string, back: string) {
    predicate Blank() {
      All(front, IsSpace) && All(before, IsSpace) && All(after, IsSpace) && All(back, IsSpace)
    }
  }

  /** key = "val" or key != "val", with these blanks. */
  function PrintPadded(key: string, equal: bool, val: string, pads: Pads): string {
    (pads.front + key + pads.before) + (if equal then "=" else "!=") + (pads.after + ("\"" + val + "\"") + pads.back)
  }

  /** A key without blanks, without quotation marks at its ends, and without an operator. */
  predicate PlainKey(key: string) {
    && key != [] && (forall k :: 0 <= k < |key| ==> !IsSpace(key[k]) && key[k] != '=' && key[k] != '!')
    && NoQuoteEnds(key)
  }

  /** A value without quotation marks at its ends and, behind =, without a !=. */
  predicate PlainValue(val: string, equal: bool) {
    NoQuoteEnds(val) && (equal ==> !Contains(val, "!="))
  }

  lemma NoBangBefore(pre: string, val: string, post: string, s: string)
    requires s == pre + val + post && Lacks(pre, '!') && Lacks(post, '!') && !Contains(val, "!=")
    requires post != [] && post[0] != '='
    ensures forall j :: !At(s, "!=", j)
  {
    assert forall k :: 0 <= k < |pre| ==> s[k] == pre[k];
    assert forall k :: |pre| + |val| <= k < |s| ==> s[k] == post[k - |pre| - |val|];
    forall j ensures !At(s, "!=", j) {
      if At(s, "!=", j) {
        AtBang(s, j);
        BangInside(pre, val, post, s, j);
      }
    }
  }

  lemma BangInside(pre: string, val: string, post: string, s: string, j: nat)
    requires s == pre + val + post && post != [] && post[0] != '='
    requires |pre| <= j < |pre| + |val| && s[j] == '!' && s[j + 1] == '='
    ensures Contains(val, "!=")
  {
    var k := j - |pre|;
    assert val[k] == s[j];
    assert s[|pre| + |val|] == post[0];
    assert s[j + 1] == val[k + 1];
    AtBang(val, k);
    IndexFirst(val, "!=");
  }

  lemma KeyHasNoOperator(key: string, pads: Pads, j: nat)
    requires PlainKey(key) && pads.Blank() && j < |pads.front + key + pads.before|
    ensures var c := (pads.front + key + pads.before)[j]; c != '=' && c != '!'
  {
    var s := pads.front + key + pads.before;
    if j < |pads.front| {
      assert s[j] == pads.front[j];
    } else if j < |pads.front| + |key| {
      assert s[j] == key[j - |pads.front|];
    } else {
      assert s[j] == pads.before[j - |pads.front| - |key|];
    }
  }

  lemma StartsHere(s: string, sub: string, j: nat)
    requires sub != [] && j < |s|
    ensures At(s, sub, j) ==> s[j] == sub[0]
  {
    if At(s, sub, j) { assert s[j..j + |sub|][0] == s[j]; }
  }

  lemma PaddedTests(key: string, equal: bool, val: string, pads: Pads)
    requires PlainKey(key) && PlainValue(val, equal) && pads.Blank()
    ensures Tests(PrintPadded(key, equal, val, pads), pads.front + key + pads.before, equal,
                  pads.after + ("\"" + val + "\"") + pads.back)
  {
    var s, before := PrintPadded(key, equal, val, pads), pads.front + key + pads.before;
    var op, after := if equal then "=" else "!=", pads.after + ("\"" + val + "\"") + pads.back;
    forall j | 0 <= j < |before| ensures !At(s, op, j) {
      KeyHasNoOperator(key, pads, j);
      assert s[j] == before[j];
      StartsHere(s, op, j);
    }
    if equal {
      var pre, post := before + "=" + (pads.after + "\""), "\"" + pads.back;
      forall k | 0 <= k < |pre| ensures pre[k] != '!' {
        if k < |before| { KeyHasNoOperator(key, pads, k); }
      }
      assert s == pre + val + post;
      NoBangBefore(pre, val, post, s);
    }
  }

  /** A test is one in the trimmed text as well. */
  lemma PaddedField(column: Column, key: string, equal: bool, val: string, pads: Pads)
    requires PlainKey(key) && PlainValue(val, equal) && pads.Blank()
    ensures FieldCond(column, PrintPadded(key, equal, val, pads)) == [Field(column, key, equal, val)]
  {
    var before, after := pads.front + key + pads.before, pads.after + ("\"" + val + "\"") + pads.back;
    PaddedTests(key, equal, val, pads);
    PlainNames(pads.front, key, pads.before);
    QuotedStrips(pads.after, val, pads.back);
    FieldIs(column, PrintPadded(key, equal, val, pads), before, equal, after, key, val);
  }

  lemma TrimPads(key: string, equal: bool, val: string, pads: Pads)
    requires PlainKey(key) && pads.Blank()
    ensures TrimSpace(PrintPadded(key, equal, val, pads))
         == PrintPadded(key, equal, val, pads.(front := [], back := []))
  {
    var core := PrintPadded(key, equal, val, pads.(front := [], back := []));
    assert core[0] == key[0] && core[|core| - 1] == '"';
    assert PrintPadded(key, equal, val, pads) == pads.front + core + pads.back;
    TrimOf(pads.front, core, pads.back, IsSpace);
  }

  /** In both translators a matcher printed with any blanks before and after its key and
      its quoted value is extracted as exactly that key and that value. */
  lemma PaddedMatcher(key: string, equal: bool, val: string, pads: Pads)
    requires PlainKey(key) && PlainValue(val, equal) && pads.Blank()
    ensures LogQl.PartCond(PrintPadded(key, equal, val, pads)) == [Field(Labels, key, equal, val)]
    ensures TraceQl.PartCond(PrintPadded(key, equal, val, pads)) == [Field(Attributes, key, equal, val)]
  {
    var inner := pads.(front := [], back := []);
    TrimPads(key, equal, val, pads);
    PaddedField(Labels, key, equal, val, inner);
    PaddedField(Attributes, key, equal, val, inner);
    PaddedTests(key, equal, val, inner);
    TestsOnce(PrintPadded(key, equal, val, inner), [] + key + pads.before, equal,
              pads.after + ("\"" + val + "\"") + []);
  }

  // --------------------------------------------- the operators of a trace part

  /** Which kind of condition a part is, for every part: a test on a field if it holds an =,
      a > comparison if it holds a > and no =, a < comparison if it holds a < and neither, and
      nothing otherwise. */
  lemma PartKinds(part: string)
    ensures var conds := TraceQl.PartCond(part);
            && |conds| <= 1
            && ((exists c :: conds == [c] && c.Field?) <==> '=' in part)
            && ((exists c :: conds == [c] && c.Compare? && c.greater) <==> '>' in part && '=' !in part)
            && ((exists c :: conds == [c] && c.Compare? && !c.greater) <==>
                  '<' in part && '>' !in part && '=' !in part)
            && (conds == [] <==> '=' !in part && '>' !in part && '<' !in part)
  {
    var p := TrimSpace(part);
    TrimKeeps(part, '=');
    TrimKeeps(part, '>');
    TrimKeeps(part, '<');
    OperatorIn(p);
    IndexChar(p, '>');
    IndexChar(p, '<');
    var conds := TraceQl.PartCond(part);
    if '=' in p { FieldKind(p); }
    if conds != [] { assert conds == [conds[0]]; }
  }

  /** The part without a = is cut at its first >, or at its first < when it has no >. */
  ghost predicate Compares(p: string, before: string, greater: bool, after: string) {
    && '=' !in p && p == before + (if greater then ">" else "<") + after
    && (if greater then '>' !in before else '<' !in before && '>' !in p)
  }

  lemma CutOnce(p: string, before: string, greater: bool, after: string)
    requires Compares(p, before, greater, after)
    ensures var op := if greater then ">" else "<";
            && Contains(p, op) && Cut(p, op) == (before, after) && (!greater ==> !Contains(p, ">"))
            && !Contains(p, "=") && !Contains(p, "!=")
  {
    var c := if greater then '>' else '<';
    assert p[|before|] == c;
    CutAt(before, [c], after);
    IndexChar(p, c);
    IndexChar(p, '>');
    OperatorIn(p);
  }

  lemma ComparesAt(p: string, greater: bool) returns (before: string, after: string)
    requires '=' !in p && (if greater then '>' in p else '<' in p && '>' !in p)
    ensures Compares(p, before, greater, after)
  {
    var c := if greater then '>' else '<';
    IndexChar(p, c);
    var n := Index(p, [c]);
    before, after := p[..n], p[n + 1..];
    assert p == before + [c] + after;
    assert forall j :: 0 <= j < n ==> before[j] == p[j];
  }

  /** What a comparison is, for every text: its key is what stands before the operator,
      without the blanks and quotation marks around it, and its value what stands behind,
      without the blanks only. */
  lemma CompareMeans(part: string, key: string, greater: bool, val: string)
    ensures TraceQl.PartCond(part) == [Compare(key, greater, val)] <==>
              exists before, after ::
                Compares(TrimSpace(part), before, greater, after) && Names(before, key) && Trims(after, val)
  {
    var p := TrimSpace(part);
    if TraceQl.PartCond(part) == [Compare(key, greater, val)] {
      IsComparison(part, greater);
      var before, after := ComparesAt(p, greater);
      CutOnce(p, before, greater, after);
      SanitizedIs(before, key);
      TrimmedIs(after, val);
    }
    if before, after :| Compares(p, before, greater, after) && Names(before, key) && Trims(after, val) {
      CutOnce(p, before, greater, after);
      SanitizedIs(before, key);
      TrimmedIs(after, val);
    }
  }

  lemma IsComparison(part: string, greater: bool)
    requires exists key, val :: TraceQl.PartCond(part) == [Compare(key, greater, val)]
    ensures var p := TrimSpace(part);
            '=' !in p && (if greater then '>' in p else '<' in p && '>' !in p)
  {
    PartKinds(part);
    TrimKeeps(part, '=');
    TrimKeeps(part, '>');
    TrimKeeps(part, '<');
  }

  lemma FieldKind(p: string)
    requires '=' in p
    ensures |FieldCond(Attributes, p)| == 1 && FieldCond(Attributes, p)[0].Field?
  {
    OperatorIn(p);
  }

  lemma TrimKeeps(text: string, c: char)
    requires !IsSpace(c)
    ensures c in TrimSpace(text) <==> c in text
  {
    var a, b := TrimSplits(text, IsSpace);
  }

  /** A comparison that is printed with any blanks around its sides is extracted as these. */
  function PrintComparison(key: string, greater: bool, val: string, pads: Pads): string {
    (pads.front + key + pads.before) + (if greater then ">" else "<") + (pads.after + val + pads.back)
  }

  /** A > comparison ends its key at the first >, and a < comparison holds no > at all. */
  predicate PlainSides(key: string, greater: bool, val: string) {
    && key != [] && Edges(key, IsSpace) && NoQuoteEnds(key) && ' ' !in key && val != [] && Edges(val, IsSpace)
    && '=' !in key && '=' !in val && '>' !in key && (!greater ==> '<' !in key && '>' !in val)
  }

  lemma PaddedComparison(key: string, greater: bool, val: string, pads: Pads)
    requires PlainSides(key, greater, val) && pads.Blank()
    ensures TraceQl.PartCond(PrintComparison(key, greater, val, pads)) == [Compare(key, greater, val)]
  {
    var inner := pads.(front := [], back := []);
    var core, op := PrintComparison(key, greater, val, inner), if greater then ">" else "<";
    assert core[0] == key[0] && core[|core| - 1] == val[|val| - 1];
    assert PrintComparison(key, greater, val, pads) == pads.front + core + pads.back;
    TrimOf(pads.front, core, pads.back, IsSpace);
    SidesOnly(key, greater, val, inner);
    OperatorIn(core);
    IndexChar(core, '>');
    CutAt([] + key + pads.before, op, pads.after + val + []);
    PlainNames([], key, pads.before);
    SanitizedIs([] + key + pads.before, key);
    TrimOf(pads.after, val, [], IsSpace);
  }

  lemma SidesOnly(key: string, greater: bool, val: string, pads: Pads)
    requires PlainSides(key, greater, val) && pads.Blank()
    ensures var s := PrintComparison(key, greater, val, pads);
            && '=' !in s && ('>' in s <==> greater)
            && (if greater then '>' else '<') !in pads.front + key + pads.before
  {
    var s, c := PrintComparison(key, greater, val, pads), if greater then '>' else '<';
    assert s[|pads.front + key + pads.before|] == c;
    PiecesLack(key, greater, val, pads, '=');
    if !greater { PiecesLack(key, greater, val, pads, '>'); }
    BeforeLacks(key, pads, c);
  }

  lemma BeforeLacks(key: string, pads: Pads, c: char)
    requires pads.Blank() && !IsSpace(c) && c !in key
    ensures c !in pads.front + key + pads.before
  {
  }

  lemma PiecesLack(key: string, greater: bool, val: string, pads: Pads, c: char)
    requires pads.Blank() && !IsSpace(c) && c !in key && c !in val && c != (if greater then '>' else '<')
    ensures c !in PrintComparison(key, greater, val, pads)
  {
    BeforeLacks(key, pads, c);
    assert c !in pads.after + val + pads.back;
  }

  // ------------------------------------------------------- whole log queries

  /** A matcher that can stand in a selector with any blanks in it. */
  predicate PlainLabel(c: Cond) {
    && c.Field? && c.column == Labels && PlainKey(c.key) && PlainValue(c.val, c.equal)
    && ',' !in c.key && ',' !in c.val && '}' !in c.key && '}' !in c.val
  }

  lemma PaddedLacks(c: Cond, pads: Pads, ch: char)
    requires PlainLabel(c) && pads.Blank() && (ch == ',' || ch == '}')
    ensures Lacks(PrintPadded(c.key, c.equal, c.val, pads), ch)
  {
    assert ch !in pads.front + c.key + pads.before;
    assert ch !in pads.after + ("\"" + c.val + "\"") + pads.back;
    var s := PrintPadded(c.key, c.equal, c.val, pads);
    assert ch !in s;
    forall k | 0 <= k < |s| ensures s[k] != ch {
      assert s[k] in s;
    }
  }

  /** The texts are these matchers, printed with these blanks. */
  ghost predicate Printed(labels: seq<Cond>, pads: seq<Pads>, texts: seq<string>) {
    && |texts| == |pads| == |labels|
    && forall k :: 0 <= k < |labels| ==>
         && PlainLabel(labels[k]) && pads[k].Blank()
         && texts[k] == PrintPadded(labels[k].key, labels[k].equal, labels[k].val, pads[k])
  }

  lemma EachPart(labels: seq<Cond>, pads: seq<Pads>, texts: seq<string>)
    requires Printed(labels, pads, texts)
    ensures forall k :: 0 <= k < |texts| ==> LogQl.PartCond(texts[k]) == [labels[k]]
  {
    forall k | 0 <= k < |texts| ensures LogQl.PartCond(texts[k]) == [labels[k]] {
      PaddedMatcher(labels[k].key, labels[k].equal, labels[k].val, pads[k]);
    }
  }

  /** What is put together from the parts one by one, when each part gives one condition. */
  lemma {:induction false} OneEach(part: string -> seq<Cond>, all: seq<string> -> seq<Cond>, texts: seq<string>,
                                   labels: seq<Cond>)
    requires all([]) == [] && forall front, text :: all(front + [text]) == all(front) + part(text)
    requires |texts| == |labels| && forall k :: 0 <= k < |texts| ==> part(texts[k]) == [labels[k]]
    ensures all(texts) == labels
  {
    if texts == [] {
      assert texts == [] && labels == [];
    } else {
      var n := |texts| - 1;
      OneEach(part, all, texts[..n], labels[..n]);
      assert texts == texts[..n] + [texts[n]];
      assert labels == labels[..n] + [labels[n]];
    }
  }

  lemma PartsInOrder(texts: seq<string>, labels: seq<Cond>)
    requires |texts| == |labels| && forall k :: 0 <= k < |texts| ==> LogQl.PartCond(texts[k]) == [labels[k]]
    ensures LogQl.PartConds(texts) == labels
  {
    forall front, text
      ensures LogQl.PartConds(front + [text]) == LogQl.PartConds(front) + LogQl.PartCond(text)
    {
      PartCondsSnoc(front, text);
    }
    OneEach(LogQl.PartCond, LogQl.PartConds, texts, labels);
  }

  lemma PrintedLack(labels: seq<Cond>, pads: seq<Pads>, texts: seq<string>, ch: char)
    requires Printed(labels, pads, texts) && (ch == ',' || ch == '}')
    ensures forall k :: 0 <= k < |texts| ==> Lacks(texts[k], ch)
  {
    forall k | 0 <= k < |texts| ensures Lacks(texts[k], ch) {
      PaddedLacks(labels[k], pads[k], ch);
    }
  }

  lemma PaddedSelector(labels: seq<Cond>, pads: seq<Pads>, texts: seq<string>)
    requires Printed(labels, pads, texts)
    ensures Lacks(Join(texts, ","), '}') && LogQl.PartConds(Split(Join(texts, ","), ",")) == labels
  {
    PrintedLack(labels, pads, texts, ',');
    PrintedLack(labels, pads, texts, '}');
    JoinLacks(texts, '}');
    if labels == [] {
      LogQl.EmptySelector();
    } else {
      SplitJoin(texts, ",");
      EachPart(labels, pads, texts);
      PartsInOrder(texts, labels);
    }
  }

  /** A log query with any blanks around the keys and values of its matchers has exactly
      these matchers and then its filters. */
  lemma PaddedExtraction(labels: seq<Cond>, pads: seq<Pads>, texts: seq<string>, filters: seq<Cond>, q: string)
    requires Printed(labels, pads, texts) && forall k :: 0 <= k < |filters| ==> CleanFilter(filters[k])
    requires q == "{" + (Join(texts, ",") + ("}" + PrintFilters(filters)))
    ensures LogQl.Conditions(TrimSpace(q)) == Success(labels + filters)
  {
    PaddedSelector(labels, pads, texts);
    if filters != [] { FiltersEnd(filters); }
    PrintedHits(filters);
    TwoSections(Join(texts, ","), PrintFilters(filters), q, labels, filters);
  }

  lemma PrintedHits(filters: seq<Cond>)
    requires forall k :: 0 <= k < |filters| ==> CleanFilter(filters[k])
    ensures LogQl.HitConds(FindAll(PrintFilters(filters))) == filters
    ensures LogQl.HitConds(FindAll(TrimSpace(PrintFilters(filters)))) == filters
  {
    TrimmedPipeline(filters);
    PrintedPipeline(filters);
    HitsBack(filters);
  }

  lemma TwoSections(selector: string, tail: string, q: string, labels: seq<Cond>, filters: seq<Cond>)
    requires q == "{" + (selector + ("}" + tail)) && (tail != [] ==> tail[|tail| - 1] == '"') && Lacks(selector, '}')
    requires LogQl.PartConds(Split(selector, ",")) == labels && LogQl.HitConds(FindAll(TrimSpace(tail))) == filters
    ensures LogQl.Conditions(TrimSpace(q)) == Success(labels + filters)
  {
    PrintedTrimmed(selector, tail, q);
    BraceAt(selector, tail, q);
  }

  // ----------------------------------------------------------------- filters

  /** What a match of the pipeline means: one of four operators, and the text without the
      blanks and quotation marks around it; any other operator says nothing. */
  lemma FilterMeans(h: Hit, op: Op, val: string)
    ensures LogQl.HitCond(h) == [Message(op, val)] <==> h.op == PrintOp(op) && Strips(h.text, val)
    ensures LogQl.HitCond(h) == [] <==> h.op !in {"=", "!=", "~", "!~"}
  {
    StrippedIs(h.text, val);
  }

  lemma {:induction false} FindSkipsAll(text: string, rest: string)
    requires Lacks(text, '|')
    ensures FindAll(text + rest) == FindAll(rest)
  {
    if text == [] {
      assert text + rest == rest;
    } else {
      FindSkips(text + rest);
      assert (text + rest)[1..] == text[1..] + rest;
      FindSkipsAll(text[1..], rest);
    }
  }

  /** A query without a selector: whatever stands before its filters says nothing. */
  lemma NoSelector(text: string, filters: seq<Cond>)
    requires text != [] && !IsSpace(text[0]) && text[0] != '{' && Lacks(text, '|') && filters != []
    requires forall k :: 0 <= k < |filters| ==> CleanFilter(filters[k])
    ensures LogQl.Conditions(TrimSpace(text + PrintFilters(filters))) == Success(filters)
  {
    FiltersEnd(filters);
    FindSkipsAll(text, PrintFilters(filters));
    PrintedHits(filters);
    PipelineOnly(text, PrintFilters(filters), text + PrintFilters(filters), filters);
  }

  lemma PipelineOnly(text: string, tail: string, q: string, conds: seq<Cond>)
    requires q == text + tail && text != [] && !IsSpace(text[0]) && text[0] != '{'
    requires tail != [] && tail[|tail| - 1] == '"' && LogQl.HitConds(FindAll(q)) == conds
    ensures LogQl.Conditions(TrimSpace(q)) == Success(conds)
  {
    assert q[0] == text[0] && q[|q| - 1] == tail[|tail| - 1];
    TrimFixed(q, IsSpace);
    LogQl.EmptySelector();
    assert [] + conds == conds;
  }

  // ----------------------------------------------------- stream of a trace query

  predicate Word(s: string) {
    s != [] && forall k :: 0 <= k < |s| ==> !IsSpace(s[k])
  }

  /** The second word of the text, whatever blanks there are around it. */
  ghost predicate SecondWord(q: string, first: string, blanks: string, word: string, rest: string) {
    && q == first + (blanks + (word + rest)) && Word(first) && Word(word)
    && blanks != [] && All(blanks, IsSpace) && (rest != [] ==> IsSpace(rest[0]))
  }

  lemma {:induction false} WordLengthOf(word: string, rest: string)
    requires (forall k :: 0 <= k < |word| ==> !IsSpace(word[k])) && (rest != [] ==> IsSpace(rest[0]))
    ensures TraceQl.WordLength(word + rest) == |word|
  {
    if word == [] {
      assert word + rest == rest;
    } else {
      assert (word + rest)[1..] == word[1..] + rest;
      WordLengthOf(word[1..], rest);
    }
  }

  lemma FieldsOfWord(word: string, rest: string)
    requires Word(word) && (rest != [] ==> IsSpace(rest[0]))
    ensures TraceQl.Fields(word + rest) == [word] + TraceQl.Fields(rest)
  {
    WordLengthOf(word, rest);
    assert (word + rest)[0] == word[0];
  }

  lemma {:induction false} FieldsOfBlanks(blanks: string, rest: string)
    requires All(blanks, IsSpace)
    ensures TraceQl.Fields(blanks + rest) == TraceQl.Fields(rest)
  {
    if blanks == [] {
      assert blanks + rest == rest;
    } else {
      assert (blanks + rest)[1..] == blanks[1..] + rest;
      FieldsOfBlanks(blanks[1..], rest);
    }
  }

  lemma FieldsHaveWord(q: string, first: string, blanks: string, word: string, rest: string)
    requires SecondWord(q, first, blanks, word, rest)
    ensures |TraceQl.Fields(q)| >= 2 && TraceQl.Fields(q)[1] == word
  {
    FieldsOfWord(first, blanks + (word + rest));
    FieldsOfBlanks(blanks, word + rest);
    FieldsOfWord(word, rest);
  }

  /** The first condition of every trace query that is translated tests its stream, which is
      the second word without the quotation marks around it. */
  lemma StreamMeans(q: string, lower: string, first: string, blanks: string, word: string, rest: string, name: string)
    requires SecondWord(q, first, blanks, word, rest) && TraceQl.Conditions(q, lower).Success?
    ensures TraceQl.Conditions(q, lower).value != []
    ensures TraceQl.Conditions(q, lower).value[0] == Stream(name) <==> Strips(word, name)
  {
    FieldsHaveWord(q, first, blanks, word, rest);
    StrippedIs(word, name);
  }

  // ---------------------------------------------------- errors of a trace query

  lemma {:induction false} OneWord(q: string)
    requires q != [] && !IsSpace(q[0]) && !IsSpace(q[|q| - 1])
    ensures |TraceQl.Fields(q)| < 2 <==> forall k :: 0 <= k < |q| ==> !IsSpace(q[k])
  {
    var n := TraceQl.WordLength(q);
    if n < |q| {
      SomeField(q[n..]);
      assert q[n..][|q[n..]| - 1] == q[|q| - 1];
    } else {
      assert q[n..] == [];
    }
  }

  lemma {:induction false} SomeField(s: string)
    requires s != [] && !IsSpace(s[|s| - 1])
    ensures TraceQl.Fields(s) != []
  {
    if IsSpace(s[0]) { SomeField(s[1..]); }
  }

  /** The four errors of the trace translator: a blank query; a copy that does not begin with
      from; a query of one word; and a keyword that the lower-cased copy has too far back. */
  lemma TraceFailsOnlyOn(query: string, table: string, toLower: string -> string)
    ensures var q := TrimSpace(query);
            var r := TraceQl.TraceSql(query, table, toLower);
            && (r == Failure(TraceQl.EmptyQuery) <==> All(query, IsSpace))
            && (r == Failure(TraceQl.NoFrom) <==> q != [] && !("from" <= toLower(q)))
            && (r == Failure(TraceQl.NoStream) <==>
                  q != [] && "from" <= toLower(q) && forall k :: 0 <= k < |q| ==> !IsSpace(q[k]))
            && (r == Failure(TraceQl.SliceOutOfRange) <==>
                  && q != [] && "from" <= toLower(q) && (exists k :: 0 <= k < |q| && IsSpace(q[k]))
                  && Index(toLower(q), " where ") + 7 > |q| && Contains(toLower(q), " where "))
  {
    var q := TrimSpace(query);
    BlankOrNot(query);
    var a, b := TrimSplits(query, IsSpace);
    if q != [] { OneWord(q); }
  }
}
