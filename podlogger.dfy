/** cmd/podlogger.go: the per-chunk work of `regexLogs`. A chunk of log
    bytes is split into lines, each line is trimmed, and every rule of the
    filter order makes its own pass over ALL the lines of the chunk,
    appending each line it keeps followed by a line feed. A non-empty
    result is handed downstream under the same pod name.

    Regular-expression matching is a parameter: `matchString(pattern, text)`
    stands for compiling `pattern` and calling `MatchString(text)`. */
module PodLogger {
  import opened Wrappers
  import opened GoText
  import opened Regex
  import KubeTail

  /** A chunk of log bytes attributed to one pod. */
  datatype PodLogs = PodLogs(pod: GoString, logs: Bytes)

  type Matcher = (GoString, GoString) -> bool

  /** What handling one chunk leads to: one record put downstream, nothing
      put, or a panic because a black- or white-list rule had an empty list
      and therefore a nil regular expression. */
  datatype Outcome = Put(logs: PodLogs) | NotPut | NilRegexpPanic

  /** `logDefaults(tl)` of this file: follow the log from the last `tl`
      lines. */
  function LogDefaults(tl: KubeTail.int64): (o: KubeTail.PodLogOptions)
    ensures o.follow && o.tailLines == Some(tl)
  {
    KubeTail.PodLogOptions(true, Some(tl))
  }

  // ---------------------------------------------------------------------
  // Specification of the filter
  // ---------------------------------------------------------------------

  /** Whether a pass of a rule of type `typ` with compiled pattern `find`
      keeps the trimmed line `l`. A black-list pass keeps non-empty lines
      the pattern does not match, a white-list pass non-empty lines it
      matches; any other type keeps nothing. */
  predicate Keeps(typ: RegexType, find: Option<GoString>, matchString: Matcher, l: Bytes)
  {
    match find
    case None => false
    case Some(pattern) =>
      if typ == Black then !matchString(pattern, l) && |l| > 0
      else if typ == White then matchString(pattern, l) && |l| > 0
      else false
  }

  /** The trimmed lines that a pass of type `typ` with compiled pattern
      `find` keeps, in line order. */
  function KeptLines(typ: RegexType, find: Option<GoString>, matchString: Matcher, lines: seq<Bytes>): seq<Bytes>
  {
    if |lines| == 0 then []
    else
      var l := TrimSpace(lines[|lines| - 1]);
      KeptLines(typ, find, matchString, lines[..|lines| - 1])
        + (if Keeps(typ, find, matchString, l) then [l] else [])
  }

  /** The trimmed lines the pass of `rule` keeps. */
  function RuleLines(rule: RegexList, matchString: Matcher, lines: seq<Bytes>): seq<Bytes>
  {
    KeptLines(rule.typ, Pattern(rule.list), matchString, lines)
  }

  /** The lines the whole filter order emits: each rule's kept lines, rule
      after rule, every rule applied to the same full list of lines. */
  function OrderLines(order: seq<RegexList>, matchString: Matcher, lines: seq<Bytes>): seq<Bytes>
  {
    if |order| == 0 then []
    else OrderLines(order[..|order| - 1], matchString, lines) + RuleLines(order[|order| - 1], matchString, lines)
  }

  /** A rule whose pass dereferences a nil regular expression. */
  predicate Panics(rule: RegexList)
  {
    |rule.list| == 0 && (rule.typ == Black || rule.typ == White)
  }

  /** The effect of handling chunk `p` with the filter order `order`. */
  function FilterChunk(p: PodLogs, order: seq<RegexList>, matchString: Matcher): Outcome
  {
    if exists k :: 0 <= k < |order| && Panics(order[k]) then NilRegexpPanic
    else
      var parsedLogs := Terminated(OrderLines(order, matchString, Split(p.logs, LineFeed)), LineFeed);
      if |parsedLogs| > 0 then Put(PodLogs(p.pod, parsedLogs)) else NotPut
  }

  // ---------------------------------------------------------------------
  // The per-chunk body of regexLogs
  // ---------------------------------------------------------------------

  /** Handles one chunk taken from the log pool: splits it on byte 10 and
      runs every rule, in order, over all of its lines. */
  method RegexLogs(p: PodLogs, regexOrder: seq<RegexList>, matchString: Matcher) returns (res: Outcome)
    ensures res == FilterChunk(p, regexOrder, matchString)
    ensures res.Put? ==> res.logs.pod == p.pod && |res.logs.logs| > 0
  {
    var parsedLogs: Bytes := [];
    var lines := Split(p.logs, LineFeed);
    for i := 0 to |regexOrder|
      invariant forall k :: 0 <= k < i ==> !Panics(regexOrder[k])
      invariant parsedLogs == Terminated(OrderLines(regexOrder[..i], matchString, lines), LineFeed)
    {
      var regex := regexOrder[i];
      var find := GetRegex(regex);
      var next := ApplyRule(regex, find, lines, matchString);
      if next.None? {
        assert Panics(regexOrder[i]);
        return NilRegexpPanic;
      }
      parsedLogs := parsedLogs + next.value;
      assert KeptLines(regex.typ, find, matchString, lines) == RuleLines(regex, matchString, lines);
      assert regexOrder[..i + 1][..i] == regexOrder[..i];
      TerminatedAppend(OrderLines(regexOrder[..i], matchString, lines), RuleLines(regex, matchString, lines), LineFeed);
    }
    assert regexOrder[..|regexOrder|] == regexOrder;
    if |parsedLogs| > 0 {
      res := Put(PodLogs(p.pod, parsedLogs));
    } else {
      res := NotPut;
    }
  }

  /** The switch on the rule's type: a black-list or white-list pass over
      all the lines of a chunk, giving the bytes the pass appends; a rule of
      any other type appends nothing. None stands for the panic of a pass
      whose regular expression is nil. */
  method ApplyRule(regex: RegexList, find: Option<GoString>, lines: seq<Bytes>, matchString: Matcher)
    returns (next: Option<Bytes>)
    requires find.None? <==> |regex.list| == 0
    requires |lines| > 0
    ensures next.None? <==> Panics(regex)
    ensures next.Some? ==> next.value == Terminated(KeptLines(regex.typ, find, matchString, lines), LineFeed)
  {
    if regex.typ == Black {
      next := BlackPass(find, lines, matchString);
    } else if regex.typ == White {
      next := WhitePass(find, lines, matchString);
    } else {
      KeptLinesOtherType(regex.typ, find, matchString, lines);
      next := Some([]);
    }
  }

  /** A black-list pass: appends each non-empty trimmed line that the
      pattern does not match, followed by a line feed. */
  method BlackPass(find: Option<GoString>, lines: seq<Bytes>, matchString: Matcher) returns (next: Option<Bytes>)
    requires |lines| > 0
    ensures next.None? <==> find.None?
    ensures next.Some? ==> next.value == Terminated(KeptLines(Black, find, matchString, lines), LineFeed)
  {
    var out: Bytes := [];
    for j := 0 to |lines|
      invariant j > 0 ==> find.Some?
      invariant out == Terminated(KeptLines(Black, find, matchString, lines[..j]), LineFeed)
    {
      var l := TrimSpace(lines[j]);
      if find.None? {
        return None;
      }
      if !matchString(find.value, l) && |l| > 0 {
        out := out + l + [LineFeed];
      }
      KeptLinesStep(Black, find, matchString, lines, j);
    }
    assert lines[..|lines|] == lines;
    return Some(out);
  }

  /** A white-list pass: appends each non-empty trimmed line that the
      pattern matches, followed by a line feed. */
  method WhitePass(find: Option<GoString>, lines: seq<Bytes>, matchString: Matcher) returns (next: Option<Bytes>)
    requires |lines| > 0
    ensures next.None? <==> find.None?
    ensures next.Some? ==> next.value == Terminated(KeptLines(White, find, matchString, lines), LineFeed)
  {
    var out: Bytes := [];
    for j := 0 to |lines|
      invariant j > 0 ==> find.Some?
      invariant out == Terminated(KeptLines(White, find, matchString, lines[..j]), LineFeed)
    {
      var l := TrimSpace(lines[j]);
      if find.None? {
        return None;
      }
      if matchString(find.value, l) && |l| > 0 {
        out := out + l + [LineFeed];
      }
      KeptLinesStep(White, find, matchString, lines, j);
    }
    assert lines[..|lines|] == lines;
    return Some(out);
  }

  /** One step of a pass: one more line adds that trimmed line and a line
      feed to the terminated output if the rule keeps it, and nothing
      otherwise. */
  lemma KeptLinesStep(typ: RegexType, find: Option<GoString>, matchString: Matcher, lines: seq<Bytes>, j: nat)
    requires j < |lines|
    ensures
      var l := TrimSpace(lines[j]);
      var before := Terminated(KeptLines(typ, find, matchString, lines[..j]), LineFeed);
      Terminated(KeptLines(typ, find, matchString, lines[..j + 1]), LineFeed)
        == if Keeps(typ, find, matchString, l) then before + l + [LineFeed] else before
  {
    var l := TrimSpace(lines[j]);
    var kept := KeptLines(typ, find, matchString, lines[..j]);
    assert lines[..j + 1][..j] == lines[..j];
    if Keeps(typ, find, matchString, l) {
      assert KeptLines(typ, find, matchString, lines[..j + 1]) == kept + [l];
      assert (kept + [l])[..|kept|] == kept;
    } else {
      assert KeptLines(typ, find, matchString, lines[..j + 1]) == kept + [];
      assert kept + [] == kept;
    }
  }

  /** A rule of any type other than black or white keeps no line. */
  lemma {:induction false} KeptLinesOtherType(typ: RegexType, find: Option<GoString>, matchString: Matcher, lines: seq<Bytes>)
    requires typ != Black && typ != White
    ensures KeptLines(typ, find, matchString, lines) == []
    decreases |lines|
  {
    if |lines| > 0 {
      KeptLinesOtherType(typ, find, matchString, lines[..|lines| - 1]);
    }
  }

  // ---------------------------------------------------------------------
  // Properties of the filter
  // ---------------------------------------------------------------------

  /** A line as it leaves the filter: non-empty, with no whitespace at
      either end and no line feed inside. */
  predicate WellFormedLine(x: Bytes)
  {
    |x| > 0 && Trimmed(x) && LineFeed !in x
  }

  /** A pass keeps lines in input order: the lines kept from a
      concatenation are those kept from each part, in turn. */
  lemma {:induction false} KeptLinesAppend(typ: RegexType, find: Option<GoString>, matchString: Matcher, a: seq<Bytes>, b: seq<Bytes>)
    ensures KeptLines(typ, find, matchString, a + b)
         == KeptLines(typ, find, matchString, a) + KeptLines(typ, find, matchString, b)
    decreases |b|
  {
    if |b| == 0 {
      assert a + b == a;
    } else {
      var init := b[..|b| - 1];
      assert (a + b)[..|a + b| - 1] == a + init;
      assert (a + b)[|a + b| - 1] == b[|b| - 1];
      KeptLinesAppend(typ, find, matchString, a, init);
    }
  }

  /** Exactly the trimmed input lines that the pass keeps are emitted. */
  lemma {:induction false} KeptLinesMembers(typ: RegexType, find: Option<GoString>, matchString: Matcher, lines: seq<Bytes>, x: Bytes)
    ensures x in KeptLines(typ, find, matchString, lines)
        <==> exists k :: 0 <= k < |lines| && x == TrimSpace(lines[k]) && Keeps(typ, find, matchString, x)
  {
    if x in KeptLines(typ, find, matchString, lines) {
      KeptLinesSound(typ, find, matchString, lines, x);
    }
    if exists k :: 0 <= k < |lines| && x == TrimSpace(lines[k]) && Keeps(typ, find, matchString, x) {
      var k :| 0 <= k < |lines| && x == TrimSpace(lines[k]) && Keeps(typ, find, matchString, x);
      KeptLinesComplete(typ, find, matchString, lines, k);
    }
  }

  /** Every kept line comes from some input line. */
  lemma {:induction false} KeptLinesSound(typ: RegexType, find: Option<GoString>, matchString: Matcher, lines: seq<Bytes>, x: Bytes)
    requires x in KeptLines(typ, find, matchString, lines)
    ensures exists k :: 0 <= k < |lines| && x == TrimSpace(lines[k]) && Keeps(typ, find, matchString, x)
    decreases |lines|
  {
    var n := |lines| - 1;
    var init := lines[..n];
    var l := TrimSpace(lines[n]);
    var tail := if Keeps(typ, find, matchString, l) then [l] else [];
    assert KeptLines(typ, find, matchString, lines) == KeptLines(typ, find, matchString, init) + tail;
    if x in tail {
      assert x == TrimSpace(lines[n]) && Keeps(typ, find, matchString, x);
    } else {
      KeptLinesSound(typ, find, matchString, init, x);
      var k :| 0 <= k < |init| && x == TrimSpace(init[k]) && Keeps(typ, find, matchString, x);
      assert lines[k] == init[k];
    }
  }

  /** Every input line whose trimmed form the pass keeps is emitted. */
  lemma {:induction false} KeptLinesComplete(typ: RegexType, find: Option<GoString>, matchString: Matcher, lines: seq<Bytes>, k: int)
    requires 0 <= k < |lines| && Keeps(typ, find, matchString, TrimSpace(lines[k]))
    ensures TrimSpace(lines[k]) in KeptLines(typ, find, matchString, lines)
    decreases |lines|
  {
    var n := |lines| - 1;
    var init := lines[..n];
    var l := TrimSpace(lines[n]);
    var tail := if Keeps(typ, find, matchString, l) then [l] else [];
    assert KeptLines(typ, find, matchString, lines) == KeptLines(typ, find, matchString, init) + tail;
    if k < n {
      assert init[k] == lines[k];
      KeptLinesComplete(typ, find, matchString, init, k);
    } else {
      assert TrimSpace(lines[k]) in tail;
    }
  }

  /** A black-list rule emits exactly the non-empty trimmed lines that its
      pattern does not match. */
  lemma BlackRuleLines(rule: RegexList, matchString: Matcher, lines: seq<Bytes>, x: Bytes)
    requires rule.typ == Black && |rule.list| > 0
    ensures x in RuleLines(rule, matchString, lines)
        <==> exists k :: 0 <= k < |lines| && x == TrimSpace(lines[k]) && |x| > 0
                         && !matchString(Join(rule.list, Bar), x)
  {
    KeptLinesMembers(rule.typ, Pattern(rule.list), matchString, lines, x);
  }

  /** A white-list rule emits exactly the non-empty trimmed lines that its
      pattern matches. */
  lemma WhiteRuleLines(rule: RegexList, matchString: Matcher, lines: seq<Bytes>, x: Bytes)
    requires rule.typ == White && |rule.list| > 0
    ensures x in RuleLines(rule, matchString, lines)
        <==> exists k :: 0 <= k < |lines| && x == TrimSpace(lines[k]) && |x| > 0
                         && matchString(Join(rule.list, Bar), x)
  {
    KeptLinesMembers(rule.typ, Pattern(rule.list), matchString, lines, x);
  }

  /** Rules do not form a chain: the lines of an order made of two parts are
      the lines of each part, each applied to the same full input. */
  lemma {:induction false} OrderLinesAppend(o1: seq<RegexList>, o2: seq<RegexList>, matchString: Matcher, lines: seq<Bytes>)
    ensures OrderLines(o1 + o2, matchString, lines)
         == OrderLines(o1, matchString, lines) + OrderLines(o2, matchString, lines)
    decreases |o2|
  {
    if |o2| == 0 {
      assert o1 + o2 == o1;
    } else {
      var init := o2[..|o2| - 1];
      var r := RuleLines(o2[|o2| - 1], matchString, lines);
      assert (o1 + o2)[..|o1 + o2| - 1] == o1 + init;
      assert (o1 + o2)[|o1 + o2| - 1] == o2[|o2| - 1];
      OrderLinesAppend(o1, init, matchString, lines);
      var a, b := OrderLines(o1, matchString, lines), OrderLines(init, matchString, lines);
      assert OrderLines(o1 + o2, matchString, lines) == (a + b) + r;
      assert OrderLines(o2, matchString, lines) == b + r;
      assert (a + b) + r == a + (b + r);
    }
  }

  /** Every line a pass keeps from line-feed-free input is well formed. */
  lemma {:induction false} KeptLinesWellFormed(typ: RegexType, find: Option<GoString>, matchString: Matcher, lines: seq<Bytes>)
    requires forall k :: 0 <= k < |lines| ==> LineFeed !in lines[k]
    ensures forall k :: 0 <= k < |KeptLines(typ, find, matchString, lines)| ==>
      WellFormedLine(KeptLines(typ, find, matchString, lines)[k])
    decreases |lines|
  {
    if |lines| > 0 {
      KeptLinesWellFormed(typ, find, matchString, lines[..|lines| - 1]);
    }
  }

  /** Every line the whole order emits from line-feed-free input is well
      formed. */
  lemma {:induction false} OrderLinesWellFormed(order: seq<RegexList>, matchString: Matcher, lines: seq<Bytes>)
    requires forall k :: 0 <= k < |lines| ==> LineFeed !in lines[k]
    ensures forall k :: 0 <= k < |OrderLines(order, matchString, lines)| ==>
      WellFormedLine(OrderLines(order, matchString, lines)[k])
    decreases |order|
  {
    if |order| > 0 {
      var last := order[|order| - 1];
      OrderLinesWellFormed(order[..|order| - 1], matchString, lines);
      KeptLinesWellFormed(last.typ, Pattern(last.list), matchString, lines);
    }
  }

  /** What is put downstream is, line by line, the emitted lines, each
      non-empty, trimmed and ended by exactly one line feed, under the pod
      name of the chunk; nothing is put exactly when no line is emitted. */
  lemma EmittedLines(p: PodLogs, order: seq<RegexList>, matchString: Matcher)
    requires forall k :: 0 <= k < |order| ==> !Panics(order[k])
    ensures
      var emitted := OrderLines(order, matchString, Split(p.logs, LineFeed));
      && (forall k :: 0 <= k < |emitted| ==> WellFormedLine(emitted[k]))
      && (FilterChunk(p, order, matchString).NotPut? <==> |emitted| == 0)
      && (FilterChunk(p, order, matchString).Put? ==>
            && FilterChunk(p, order, matchString).logs.pod == p.pod
            && Split(FilterChunk(p, order, matchString).logs.logs, LineFeed) == emitted + [[]])
  {
    var emitted := OrderLines(order, matchString, Split(p.logs, LineFeed));
    OrderLinesWellFormed(order, matchString, Split(p.logs, LineFeed));
    SplitTerminated(emitted, LineFeed);
    TerminatedLength(emitted, LineFeed);
  }

  /** A terminated list of lines is empty exactly when the list is. */
  lemma {:induction false} TerminatedLength(parts: seq<Bytes>, sep: char)
    ensures |Terminated(parts, sep)| == 0 <==> |parts| == 0
  {
  }

  /** Kept lines are kept again, unchanged, by the same pass. */
  lemma {:induction false} KeptLinesIdempotent(typ: RegexType, find: Option<GoString>, matchString: Matcher, lines: seq<Bytes>)
    ensures KeptLines(typ, find, matchString, KeptLines(typ, find, matchString, lines))
         == KeptLines(typ, find, matchString, lines)
    decreases |lines|
  {
    if |lines| > 0 {
      var init := lines[..|lines| - 1];
      var l := TrimSpace(lines[|lines| - 1]);
      var before := KeptLines(typ, find, matchString, init);
      KeptLinesIdempotent(typ, find, matchString, init);
      if Keeps(typ, find, matchString, l) {
        assert KeptLines(typ, find, matchString, lines) == before + [l];
        KeptLinesAppend(typ, find, matchString, before, [l]);
        assert [l][..0] == [];
        assert TrimSpace(l) == l;
        assert KeptLines(typ, find, matchString, [l]) == [l];
      } else {
        assert KeptLines(typ, find, matchString, lines) == before + [];
        assert before + [] == before;
      }
    }
  }

  /** Feeding what one rule put downstream back through the same rule puts
      the same bytes downstream again. */
  lemma SingleRuleIdempotent(p: PodLogs, rule: RegexList, matchString: Matcher)
    requires FilterChunk(p, [rule], matchString).Put?
    ensures FilterChunk(FilterChunk(p, [rule], matchString).logs, [rule], matchString)
         == FilterChunk(p, [rule], matchString)
  {
    var lines := Split(p.logs, LineFeed);
    var find := Pattern(rule.list);
    var kept := KeptLines(rule.typ, find, matchString, lines);
    OrderLinesSingle(rule, matchString, lines);
    KeptLinesWellFormed(rule.typ, find, matchString, lines);
    var q := FilterChunk(p, [rule], matchString).logs;
    assert q == PodLogs(p.pod, Terminated(kept, LineFeed));
    SplitTerminated(kept, LineFeed);
    var tail: seq<Bytes> := [[]];
    KeptLinesAppend(rule.typ, find, matchString, kept, tail);
    assert tail[..0] == [];
    assert TrimSpace([]) == [];
    assert KeptLines(rule.typ, find, matchString, tail) == [];
    KeptLinesIdempotent(rule.typ, find, matchString, lines);
    assert kept + [] == kept;
    OrderLinesSingle(rule, matchString, kept + tail);
    assert OrderLines([rule], matchString, Split(q.logs, LineFeed)) == kept;
  }

  /** An order of one rule emits that rule's lines. */
  lemma OrderLinesSingle(rule: RegexList, matchString: Matcher, lines: seq<Bytes>)
    ensures OrderLines([rule], matchString, lines) == RuleLines(rule, matchString, lines)
  {
    assert [rule][..0] == [];
  }

  /** A pass over a single line. */
  lemma KeptLinesSingle(typ: RegexType, find: Option<GoString>, matchString: Matcher, x: Bytes)
    ensures KeptLines(typ, find, matchString, [x])
         == if Keeps(typ, find, matchString, TrimSpace(x)) then [TrimSpace(x)] else []
  {
    assert [x][..0] == [];
  }

  /** Literal substring search, which is what matching a pattern without
      regular-expression operators amounts to. */
  const SubstringMatch: Matcher := (pattern: GoString, text: GoString) => Contains(text, pattern)

  /** The lines of the chunk of the scenario below. */
  lemma ScenarioLines(chunk: Bytes)
    requires chunk == "GET /x" + "\n" + "POST /y" + "\n" + "foo bar" + "\n"
    ensures Split(chunk, LineFeed) == ["GET /x", "POST /y", "foo bar", ""]
  {
    var a, b, c: Bytes := "GET /x", "POST /y", "foo bar";
    TerminatedThree(a, b, c);
    assert forall k :: 0 <= k < 3 ==> LineFeed !in [a, b, c][k];
    SplitTerminated([a, b, c], LineFeed);
    assert [a, b, c] + [[]] == [a, b, c, []];
  }

  /** A pass over four lines is the passes over each line, in turn. */
  lemma KeptLinesFour(typ: RegexType, find: Option<GoString>, matchString: Matcher, a: Bytes, b: Bytes, c: Bytes, d: Bytes)
    ensures KeptLines(typ, find, matchString, [a, b, c, d])
         == KeptLines(typ, find, matchString, [a]) + KeptLines(typ, find, matchString, [b])
          + KeptLines(typ, find, matchString, [c]) + KeptLines(typ, find, matchString, [d])
  {
    KeptLinesAppend(typ, find, matchString, [a, b, c], [d]);
    KeptLinesAppend(typ, find, matchString, [a, b], [c]);
    KeptLinesAppend(typ, find, matchString, [a], [b]);
    assert [a, b] + [c] == [a, b, c] && [a] + [b] == [a, b] && [a, b, c] + [d] == [a, b, c, d];
  }

  /** A trimmed line that does not contain the pattern: a black-list pass
      keeps it when it is non-empty, a white-list pass drops it. */
  lemma SubstringMiss(pattern: GoString, x: Bytes)
    requires Trimmed(x) && !Contains(x, pattern)
    ensures |x| > 0 ==> KeptLines(Black, Some(pattern), SubstringMatch, [x]) == [x]
    ensures KeptLines(White, Some(pattern), SubstringMatch, [x]) == []
  {
    KeptLinesSingle(Black, Some(pattern), SubstringMatch, x);
    KeptLinesSingle(White, Some(pattern), SubstringMatch, x);
  }

  /** A trimmed line that starts with the pattern: a black-list pass drops
      it, a white-list pass keeps it. */
  lemma SubstringHit(pattern: GoString, x: Bytes)
    requires Trimmed(x) && |x| > 0 && pattern <= x
    ensures KeptLines(Black, Some(pattern), SubstringMatch, [x]) == []
    ensures KeptLines(White, Some(pattern), SubstringMatch, [x]) == [x]
  {
    KeptLinesSingle(Black, Some(pattern), SubstringMatch, x);
    KeptLinesSingle(White, Some(pattern), SubstringMatch, x);
    assert pattern <= x[0..];
  }

  /** Facts about the scenario's first line. */
  lemma GetLineFacts(a: Bytes)
    requires a == "GET /x"
    ensures Trimmed(a) && |a| > 0 && 'P' !in a && 'f' !in a
  {
  }

  /** Facts about the scenario's second line. */
  lemma PostLineFacts(b: Bytes)
    requires b == "POST /y"
    ensures Trimmed(b) && |b| > 0 && "POST" <= b && 'f' !in b
  {
  }

  /** Facts about the scenario's third line. */
  lemma FooLineFacts(c: Bytes)
    requires c == "foo bar"
    ensures Trimmed(c) && |c| > 0 && 'P' !in c && "foo" <= c
  {
  }

  /** The exclude pass of the scenario below keeps "GET /x" and "foo bar". */
  lemma ScenarioExcludePass(a: Bytes, b: Bytes, c: Bytes, e: Bytes)
    requires a == "GET /x" && b == "POST /y" && c == "foo bar" && e == ""
    ensures RuleLines(RegexList(Black, ["POST"]), SubstringMatch, [a, b, c, e]) == [a, c]
  {
    assert [a] + [] + [c] + [] == [a, c];
    GetLineFacts(a);
    PostLineFacts(b);
    FooLineFacts(c);
    var find: Option<GoString> := Some("POST");
    NotContainsWithoutFirst(a, "POST");
    SubstringMiss("POST", a);
    NotContainsWithoutFirst(c, "POST");
    SubstringMiss("POST", c);
    SubstringHit("POST", b);
    KeptLinesSingle(Black, find, SubstringMatch, e);
    assert Pattern(["POST"]) == find;
    KeptLinesFour(Black, find, SubstringMatch, a, b, c, e);
  }

  /** The include pass of the scenario below keeps "foo bar" only. */
  lemma ScenarioIncludePass(a: Bytes, b: Bytes, c: Bytes, e: Bytes)
    requires a == "GET /x" && b == "POST /y" && c == "foo bar" && e == ""
    ensures RuleLines(RegexList(White, ["foo"]), SubstringMatch, [a, b, c, e]) == [c]
  {
    assert [] + [] + [c] + [] == [c];
    GetLineFacts(a);
    PostLineFacts(b);
    FooLineFacts(c);
    var find: Option<GoString> := Some("foo");
    NotContainsWithoutFirst(a, "foo");
    SubstringMiss("foo", a);
    NotContainsWithoutFirst(b, "foo");
    SubstringMiss("foo", b);
    SubstringHit("foo", c);
    KeptLinesSingle(White, find, SubstringMatch, e);
    assert Pattern(["foo"]) == find;
    KeptLinesFour(White, find, SubstringMatch, a, b, c, e);
  }

  /** Three terminated lines, spelled out. */
  lemma TerminatedThree(x: Bytes, y: Bytes, z: Bytes)
    ensures Terminated([x, y, z], LineFeed) == x + [LineFeed] + y + [LineFeed] + z + [LineFeed]
  {
    assert [x, y, z][..2] == [x, y] && [x, y][..1] == [x] && [x][..0] == [];
    assert Terminated([x], LineFeed) == x + [LineFeed];
    assert Terminated([x, y], LineFeed) == x + [LineFeed] + y + [LineFeed];
  }

  /** A chunk handled by two rules that cannot panic: the first rule's
      lines and then the second's, each over all the lines of the chunk. */
  lemma FilterTwo(p: PodLogs, r1: RegexList, r2: RegexList, matchString: Matcher)
    requires !Panics(r1) && !Panics(r2)
    ensures
      var lines := Split(p.logs, LineFeed);
      var out := Terminated(RuleLines(r1, matchString, lines) + RuleLines(r2, matchString, lines), LineFeed);
      FilterChunk(p, [r1, r2], matchString) == if |out| > 0 then Put(PodLogs(p.pod, out)) else NotPut
  {
    var lines := Split(p.logs, LineFeed);
    OrderLinesSingle(r1, matchString, lines);
    OrderLinesSingle(r2, matchString, lines);
    OrderLinesAppend([r1], [r2], matchString, lines);
    assert [r1] + [r2] == [r1, r2];
    assert !exists k :: 0 <= k < |[r1, r2]| && Panics([r1, r2][k]);
  }

  /** With an exclude rule for "POST" followed by an include rule for "foo",
      a chunk of the lines "GET /x", "POST /y" and "foo bar" yields "GET /x"
      and "foo bar" from the first pass and "foo bar" from the second, so
      "foo bar" is emitted twice and "GET /x", which the include rule
      rejects, still comes out. Swapping the rules swaps the two passes. */
  lemma ExcludeThenIncludeScenario(p: PodLogs)
    requires p.logs == "GET /x" + "\n" + "POST /y" + "\n" + "foo bar" + "\n"
    ensures FilterChunk(p, [RegexList(Black, ["POST"]), RegexList(White, ["foo"])], SubstringMatch)
         == Put(PodLogs(p.pod, "GET /x" + "\n" + "foo bar" + "\n" + "foo bar" + "\n"))
    ensures FilterChunk(p, [RegexList(White, ["foo"]), RegexList(Black, ["POST"])], SubstringMatch)
         == Put(PodLogs(p.pod, "foo bar" + "\n" + "GET /x" + "\n" + "foo bar" + "\n"))
  {
    var dropPost := RegexList(Black, ["POST"]);
    var keepFoo := RegexList(White, ["foo"]);
    ScenarioLines(p.logs);
    var lines := Split(p.logs, LineFeed);
    var a, b, c, e := lines[0], lines[1], lines[2], lines[3];
    assert lines == [a, b, c, e];
    ScenarioExcludePass(a, b, c, e);
    ScenarioIncludePass(a, b, c, e);
    FilterTwo(p, dropPost, keepFoo, SubstringMatch);
    FilterTwo(p, keepFoo, dropPost, SubstringMatch);
    assert [a, c] + [c] == [a, c, c] && [c] + [a, c] == [c, a, c];
    TerminatedThree(a, c, c);
    TerminatedThree(c, a, c);
  }

}
