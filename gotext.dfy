/** The parts of Go's `strings` and `bytes` packages that the line-selection
    logic relies on: substring search, splitting on a one-byte separator,
    joining with a one-byte separator and whitespace trimming.

    A Go `string` and a `[]byte` are both sequences of bytes, and the
    conversions between them copy the bytes unchanged, so both are modelled
    by the same sequence type, one `char` per byte. Every operation below
    only compares symbols, so what is proved holds for byte strings. */
module GoText {

  type Bytes = seq<char>
  type GoString = seq<char>

  /** Byte 10, the separator `regexLogs` splits a chunk on. */
  const LineFeed: char := '\n'
  /** The alternation operator `GetRegex` puts between patterns. */
  const Bar: char := '|'

  // ---------------------------------------------------------------------
  // strings.Contains / bytes.Contains
  // ---------------------------------------------------------------------

  /** `sub` occurs in `s` at offset `i`. */
  ghost predicate OccursAt(s: Bytes, sub: Bytes, i: int)
  {
    0 <= i <= |s| && sub <= s[i..]
  }

  /** `sub` occurs in `s`. The search tries each offset from the left. */
  function Contains(s: Bytes, sub: Bytes): (b: bool)
    ensures b <==> exists i :: OccursAt(s, sub, i)
    decreases |s|
  {
    if sub <= s then
      assert OccursAt(s, sub, 0);
      true
    else if |s| == 0 then
      assert forall i :: OccursAt(s, sub, i) ==> i == 0;
      false
    else
      var found := Contains(s[1..], sub);
      assert found ==> exists i :: OccursAt(s, sub, i) by {
        if found {
          var i :| OccursAt(s[1..], sub, i);
          assert s[1..][i..] == s[i + 1..];
          assert OccursAt(s, sub, i + 1);
        }
      }
      assert (exists i :: OccursAt(s, sub, i)) ==> found by {
        if exists i :: OccursAt(s, sub, i) {
          var i :| OccursAt(s, sub, i);
          assert i != 0;
          assert s[1..][i - 1..] == s[i..];
          assert OccursAt(s[1..], sub, i - 1);
        }
      }
      found
  }

  /** The empty string occurs in every string. */
  lemma {:induction false} ContainsEmpty(s: Bytes)
    ensures Contains(s, [])
  {
    assert OccursAt(s, [], 0);
  }

  /** A string that lacks the first byte of `sub` cannot contain `sub`. */
  lemma {:induction false} NotContainsWithoutFirst(s: Bytes, sub: Bytes)
    requires |sub| > 0 && sub[0] !in s
    ensures !Contains(s, sub)
  {
    forall i | 0 <= i <= |s|
      ensures !OccursAt(s, sub, i)
    {
      if i < |s| {
        assert s[i] in s;
      }
    }
  }

  // ---------------------------------------------------------------------
  // bytes.Split with a one-byte separator, and its inverse
  // ---------------------------------------------------------------------

  /** The pieces of `s` between occurrences of `sep`: with n separators in
      `s` there are n + 1 pieces, so the empty input gives one empty piece. */
  function Split(s: Bytes, sep: char): (parts: seq<Bytes>)
    ensures |parts| >= 1
    ensures forall k :: 0 <= k < |parts| ==> sep !in parts[k]
  {
    if |s| == 0 then
      [[]]
    else if s[0] == sep then
      [[]] + Split(s[1..], sep)
    else
      var rest := Split(s[1..], sep);
      [[s[0]] + rest[0]] + rest[1..]
  }

  /** The first piece followed by `sep` and each later piece in turn, as the
      loop in `GetRegex` accumulates it. */
  function Join(parts: seq<Bytes>, sep: char): (s: Bytes)
    requires |parts| >= 1
    ensures |s| == TotalLength(parts) + |parts| - 1
  {
    if |parts| == 1 then
      parts[0]
    else
      var init := parts[..|parts| - 1];
      assert TotalLength(parts) == TotalLength(init) + |parts[|parts| - 1]|;
      Join(init, sep) + [sep] + parts[|parts| - 1]
  }

  /** The sum of the lengths of `parts`. */
  function TotalLength(parts: seq<Bytes>): nat
  {
    if |parts| == 0 then 0 else TotalLength(parts[..|parts| - 1]) + |parts[|parts| - 1]|
  }

  /** Every piece followed by one `sep`, in order: what appending
      `l + sep` piece by piece to an empty buffer builds. */
  function Terminated(parts: seq<Bytes>, sep: char): Bytes
  {
    if |parts| == 0 then [] else Terminated(parts[..|parts| - 1], sep) + parts[|parts| - 1] + [sep]
  }

  /** Splitting at one separator splits the two sides independently. */
  lemma {:induction false} SplitAround(a: Bytes, b: Bytes, sep: char)
    ensures Split(a + [sep] + b, sep) == Split(a, sep) + Split(b, sep)
    decreases |a|
  {
    if |a| == 0 {
      assert a + [sep] + b == [sep] + b;
      assert ([sep] + b)[1..] == b;
    } else {
      assert (a + [sep] + b)[1..] == a[1..] + [sep] + b;
      SplitAround(a[1..], b, sep);
    }
  }

  /** A string without the separator is a single piece. */
  lemma {:induction false} SplitWithoutSeparator(x: Bytes, sep: char)
    requires sep !in x
    ensures Split(x, sep) == [x]
    decreases |x|
  {
    if |x| > 0 {
      assert x[0] in x;
      assert forall c :: c in x[1..] ==> c in x;
      SplitWithoutSeparator(x[1..], sep);
      assert [x[0]] + x[1..] == x;
    }
  }

  /** Round trip: splitting a joined list of separator-free pieces gives the
      list back. */
  lemma {:induction false} SplitJoin(parts: seq<Bytes>, sep: char)
    requires |parts| >= 1
    requires forall k :: 0 <= k < |parts| ==> sep !in parts[k]
    ensures Split(Join(parts, sep), sep) == parts
    decreases |parts|
  {
    var last := parts[|parts| - 1];
    if |parts| == 1 {
      SplitWithoutSeparator(last, sep);
    } else {
      var init := parts[..|parts| - 1];
      SplitAround(Join(init, sep), last, sep);
      SplitJoin(init, sep);
      SplitWithoutSeparator(last, sep);
      assert init + [last] == parts;
    }
  }

  /** Round trip the other way: joining the pieces of `s` gives `s` back. */
  lemma {:induction false} JoinSplit(s: Bytes, sep: char)
    ensures Join(Split(s, sep), sep) == s
    decreases |s|
  {
    if |s| > 0 {
      var rest := Split(s[1..], sep);
      JoinSplit(s[1..], sep);
      assert [s[0]] + s[1..] == s;
      if s[0] == sep {
        assert Split(s, sep) == [[]] + rest;
        JoinPrepend(rest, sep);
      } else {
        assert Split(s, sep) == [[s[0]] + rest[0]] + rest[1..];
        JoinCons(s[0], rest, sep);
      }
    }
  }

  /** Prepending an empty piece puts a separator in front. */
  lemma {:induction false} JoinPrepend(parts: seq<Bytes>, sep: char)
    requires |parts| >= 1
    ensures Join([[]] + parts, sep) == [sep] + Join(parts, sep)
    decreases |parts|
  {
    var all := [[]] + parts;
    var last := parts[|parts| - 1];
    assert all[..|all| - 1] == [[]] + parts[..|parts| - 1];
    if |parts| > 1 {
      JoinPrepend(parts[..|parts| - 1], sep);
    }
  }

  /** Prepending a byte to the first piece prepends it to the joined string. */
  lemma {:induction false} JoinCons(c: char, parts: seq<Bytes>, sep: char)
    requires |parts| >= 1
    ensures Join([[c] + parts[0]] + parts[1..], sep) == [c] + Join(parts, sep)
    decreases |parts|
  {
    var all := [[c] + parts[0]] + parts[1..];
    if |parts| > 1 {
      var init := parts[..|parts| - 1];
      assert all[..|all| - 1] == [[c] + init[0]] + init[1..];
      JoinCons(c, init, sep);
    }
  }

  /** Terminating every piece is joining them with one empty piece added. */
  lemma {:induction false} TerminatedIsJoin(parts: seq<Bytes>, sep: char)
    ensures Terminated(parts, sep) == Join(parts + [[]], sep)
    decreases |parts|
  {
    var all := parts + [[]];
    assert all[..|all| - 1] == parts;
    if |parts| == 1 {
      assert parts[..0] == [];
    } else if |parts| > 1 {
      var init := parts[..|parts| - 1];
      TerminatedIsJoin(init, sep);
      assert (init + [[]])[..|init|] == init;
    }
  }

  /** The pieces of a terminated list are the list and one empty tail. */
  lemma SplitTerminated(parts: seq<Bytes>, sep: char)
    requires forall k :: 0 <= k < |parts| ==> sep !in parts[k]
    ensures Split(Terminated(parts, sep), sep) == parts + [[]]
  {
    TerminatedIsJoin(parts, sep);
    SplitJoin(parts + [[]], sep);
  }

  /** Terminating a concatenation terminates each side. */
  lemma {:induction false} TerminatedAppend(xs: seq<Bytes>, ys: seq<Bytes>, sep: char)
    ensures Terminated(xs + ys, sep) == Terminated(xs, sep) + Terminated(ys, sep)
    decreases |ys|
  {
    if |ys| == 0 {
      assert xs + ys == xs;
    } else {
      var init := ys[..|ys| - 1];
      assert (xs + ys)[..|xs + ys| - 1] == xs + init;
      TerminatedAppend(xs, init, sep);
    }
  }

  // ---------------------------------------------------------------------
  // bytes.TrimSpace, restricted to ASCII whitespace
  // ---------------------------------------------------------------------

  /** The ASCII whitespace bytes: tab, line feed, vertical tab, form feed,
      carriage return (9 to 13) and space (32). */
  predicate IsSpace(c: char)
  {
    c == ' ' || '\t' <= c <= '\r'
  }

  /** Neither end of `x` is whitespace. */
  predicate Trimmed(x: Bytes)
  {
    |x| == 0 || (!IsSpace(x[0]) && !IsSpace(x[|x| - 1]))
  }

  /** `s` without its leading whitespace. */
  function TrimLeft(s: Bytes): Bytes
  {
    if |s| > 0 && IsSpace(s[0]) then TrimLeft(s[1..]) else s
  }

  /** `s` without its trailing whitespace. */
  function TrimRight(s: Bytes): Bytes
  {
    if |s| > 0 && IsSpace(s[|s| - 1]) then TrimRight(s[..|s| - 1]) else s
  }

  /** TrimLeft drops exactly the longest all-whitespace prefix. */
  lemma {:induction false} TrimLeftSuffix(s: Bytes)
    ensures var r := TrimLeft(s);
      && |r| <= |s| && r == s[|s| - |r|..]
      && (|r| == 0 || !IsSpace(r[0]))
      && (forall k :: 0 <= k < |s| - |r| ==> IsSpace(s[k]))
    decreases |s|
  {
    if |s| > 0 && IsSpace(s[0]) {
      TrimLeftSuffix(s[1..]);
    }
  }

  /** TrimRight drops exactly the longest all-whitespace suffix. */
  lemma {:induction false} TrimRightPrefix(s: Bytes)
    ensures var r := TrimRight(s);
      && |r| <= |s| && r == s[..|r|]
      && (|r| == 0 || !IsSpace(r[|r| - 1]))
      && (forall k :: |r| <= k < |s| ==> IsSpace(s[k]))
    decreases |s|
  {
    if |s| > 0 && IsSpace(s[|s| - 1]) {
      TrimRightPrefix(s[..|s| - 1]);
    }
  }

  /** `r` is what is left of `s` once all its leading and all its trailing
      whitespace is cut off: a slice of `s` with only whitespace before and
      after it. */
  ghost predicate SpaceAround(s: Bytes, r: Bytes)
  {
    exists i, j ::
      && 0 <= i <= j <= |s| && r == s[i..j]
      && (forall k :: 0 <= k < i ==> IsSpace(s[k]))
      && (forall k :: j <= k < |s| ==> IsSpace(s[k]))
  }

  /** `s` without leading and trailing whitespace: the result is the slice
      of `s` left once every leading and every trailing whitespace byte is
      cut off, it has no whitespace at either end, and it is `s` itself when
      `s` is already trimmed. */
  function TrimSpace(s: Bytes): (r: Bytes)
    ensures SpaceAround(s, r)
    ensures Trimmed(r)
    ensures |r| <= |s|
    ensures forall c :: c in r ==> c in s
    ensures Trimmed(s) ==> r == s
  {
    TrimmedSlice(s);
    TrimmedEnds(s);
    TrimRight(TrimLeft(s))
  }

  /** Cutting the whitespace prefix off `s` and then the whitespace suffix
      off what is left gives a slice of `s` with whitespace on both sides. */
  lemma TrimmedSlice(s: Bytes)
    ensures SpaceAround(s, TrimRight(TrimLeft(s)))
    ensures forall c :: c in TrimRight(TrimLeft(s)) ==> c in s
  {
    TrimLeftSuffix(s);
    var left := TrimLeft(s);
    TrimRightPrefix(left);
    var r := TrimRight(left);
    var i := |s| - |left|;
    var j := i + |r|;
    assert r == s[i..j];
    assert forall k :: j <= k < |s| ==> s[k] == left[k - i];
    forall c | c in r
      ensures c in s
    {
      var n :| 0 <= n < |r| && r[n] == c;
      assert s[i + n] == c;
    }
  }

  /** Since the prefix and the suffix cut off are the longest whitespace
      runs, the result is trimmed, and it is `s` itself when `s` is. */
  lemma TrimmedEnds(s: Bytes)
    ensures Trimmed(TrimRight(TrimLeft(s)))
    ensures |TrimRight(TrimLeft(s))| <= |s|
    ensures Trimmed(s) ==> TrimRight(TrimLeft(s)) == s
  {
    TrimLeftSuffix(s);
    var left := TrimLeft(s);
    TrimRightPrefix(left);
    var r := TrimRight(left);
    assert |r| > 0 ==> r[0] == left[0];
    if Trimmed(s) && |s| > 0 {
      assert left == s;
      assert |r| == |left|;
    }
  }

}
