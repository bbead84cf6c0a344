/** cmd/regex.go: a filter rule is a type (black list or white list) and a
    list of patterns; `GetRegex` joins the list into one alternation
    pattern. Compiling the pattern is not modelled: the rest of the model
    applies the pattern string through an abstract matcher. */
module Regex {
  import opened Wrappers
  import opened GoText

  /** Go's `type RegexType int`: any integer is a value of the type; only
      the two constants below select a filtering pass. */
  type RegexType = int

  const Black: RegexType := 1
  const White: RegexType := 2

  datatype RegexList = RegexList(typ: RegexType, list: seq<GoString>)

  /** The pattern `GetRegex` compiles: nil for an empty list, otherwise the
      elements joined with `|`. */
  function Pattern(list: seq<GoString>): Option<GoString>
  {
    if |list| == 0 then None else Some(Join(list, Bar))
  }

  /** Builds the alternation pattern by appending `|` and the next element
      to the first element, one element at a time. The result depends on
      the list alone, not on the rule's type. */
  method GetRegex(r: RegexList) returns (pattern: Option<GoString>)
    ensures pattern == Pattern(r.list)
  {
    if |r.list| < 1 {
      return None;
    }
    var regexString: GoString := [];
    if |r.list| > 1 {
      var first := r.list[0];
      var rest := r.list[1..];
      regexString := regexString + first;
      assert r.list[..1] == [first];
      for i := 0 to |rest|
        invariant regexString == Join(r.list[..i + 1], Bar)
      {
        regexString := regexString + [Bar] + rest[i];
        assert r.list[..i + 2][..i + 1] == r.list[..i + 1];
      }
      assert r.list[..|rest| + 1] == r.list;
    } else {
      regexString := r.list[0];
    }
    return Some(regexString);
  }

  /** An empty list gives no pattern, one element is the pattern itself, and
      n elements give a pattern as long as the elements together plus the
      n - 1 separators. */
  lemma PatternShape(list: seq<GoString>)
    ensures Pattern(list).None? <==> |list| == 0
    ensures |list| == 1 ==> Pattern(list) == Some(list[0])
    ensures Pattern(list).Some? ==> |Pattern(list).value| == TotalLength(list) + |list| - 1
  {
  }

  /** A pattern built from elements that contain no `|` splits back into
      exactly those elements, in order. */
  lemma PatternRoundTrip(list: seq<GoString>)
    requires forall k :: 0 <= k < |list| ==> Bar !in list[k]
    ensures Pattern(list).Some? ==> Split(Pattern(list).value, Bar) == list
  {
    if |list| > 0 {
      SplitJoin(list, Bar);
    }
  }

}
