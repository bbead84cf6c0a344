/** cmd/root.go: the root command's line-selection logic. From the listed
    pod records it selects, for each command-line argument in turn, every
    record whose name contains that argument. Then, for every string it
    receives from the pods' log streams, it decides from the white and
    black lists whether to print it.

    Client creation, the spinner, signals, the channel router and the
    idle counter are not modelled: the received strings are a parameter. */
module Root {
  import opened Wrappers
  import opened GoText
  import opened KubeTail

  // ---------------------------------------------------------------------
  // Target selection
  // ---------------------------------------------------------------------

  /** The records of `urls`, in order, whose name contains `u`. */
  function NameMatches(u: GoString, urls: seq<K8sSelfLink>): seq<K8sSelfLink>
  {
    if |urls| == 0 then []
    else
      var i := urls[|urls| - 1];
      NameMatches(u, urls[..|urls| - 1]) + (if Contains(i.name, u) then [i] else [])
  }

  /** The targets: argument after argument, the records each one selects. */
  function Targets(args: seq<GoString>, urls: seq<K8sSelfLink>): seq<K8sSelfLink>
  {
    if |args| == 0 then []
    else Targets(args[..|args| - 1], urls) + NameMatches(args[|args| - 1], urls)
  }

  /** How many of `args` occur in `name`. */
  function ArgCount(name: GoString, args: seq<GoString>): nat
  {
    if |args| == 0 then 0
    else ArgCount(name, args[..|args| - 1]) + (if Contains(name, args[|args| - 1]) then 1 else 0)
  }

  /** The search for targets. Without any argument the command prints its
      usage and exits with status 1 (None); otherwise every argument is
      compared, in order, with every record, in order, and a record is
      appended once per argument its name contains. */
  method SelectTargets(args: seq<GoString>, urls: seq<K8sSelfLink>) returns (targets: Option<seq<K8sSelfLink>>)
    ensures targets.None? <==> |args| < 1
    ensures targets.Some? ==> targets.value == Targets(args, urls)
  {
    if |args| < 1 {
      return None;
    }
    var str := args;
    var found: seq<K8sSelfLink> := [];
    for k := 0 to |str|
      invariant found == Targets(str[..k], urls)
    {
      var u := str[k];
      assert str[..k + 1][..k] == str[..k];
      for j := 0 to |urls|
        invariant found == Targets(str[..k], urls) + NameMatches(u, urls[..j])
      {
        var i := urls[j];
        assert urls[..j + 1][..j] == urls[..j];
        if Contains(i.name, u) {
          found := found + [i];
        }
      }
      assert urls[..|urls|] == urls;
    }
    assert str[..|str|] == str;
    return Some(found);
  }

  /** A record occurs in the matches of `u` as often as in `urls` when its
      name contains `u`, and not at all otherwise. */
  lemma {:induction false} NameMatchesCount(u: GoString, urls: seq<K8sSelfLink>, t: K8sSelfLink)
    ensures multiset(NameMatches(u, urls))[t] == if Contains(t.name, u) then multiset(urls)[t] else 0
    decreases |urls|
  {
    if |urls| > 0 {
      var init := urls[..|urls| - 1];
      var last := urls[|urls| - 1];
      var tail := if Contains(last.name, u) then [last] else [];
      var prev := NameMatches(u, init);
      NameMatchesCount(u, init, t);
      assert NameMatches(u, urls) == prev + tail;
      assert multiset(prev + tail)[t] == multiset(prev)[t] + multiset(tail)[t];
      assert urls == init + [last];
      assert multiset(urls) == multiset(init) + multiset([last]);
      if t == last {
        assert multiset([last])[t] == 1;
        assert multiset(tail)[t] == if Contains(t.name, u) then 1 else 0;
      } else {
        assert multiset([last])[t] == 0;
        assert multiset(tail)[t] == 0;
      }
    }
  }

  /** Completeness and multiplicity: every pair of an argument and a record
      whose name contains it contributes exactly one target, so a record is
      selected as many times as there are arguments in its name, times the
      number of times it is listed. */
  lemma {:induction false} TargetsCount(args: seq<GoString>, urls: seq<K8sSelfLink>, t: K8sSelfLink)
    ensures multiset(Targets(args, urls))[t] == ArgCount(t.name, args) * multiset(urls)[t]
    decreases |args|
  {
    if |args| > 0 {
      var init := args[..|args| - 1];
      var u := args[|args| - 1];
      var earlier := Targets(init, urls);
      var now := NameMatches(u, urls);
      var c := ArgCount(t.name, init);
      var m := multiset(urls)[t];
      TargetsCount(init, urls, t);
      NameMatchesCount(u, urls, t);
      var hit := Contains(t.name, u);
      assert Targets(args, urls) == earlier + now;
      assert multiset(earlier + now) == multiset(earlier) + multiset(now);
      assert multiset(Targets(args, urls))[t] == multiset(earlier)[t] + multiset(now)[t];
      assert ArgCount(t.name, args) == c + (if hit then 1 else 0);
      CountStep(multiset(earlier)[t], multiset(now)[t], c, m, hit, ArgCount(t.name, args));
    }
  }

  /** One more argument adds `m` occurrences when it hits and none when it
      does not. */
  lemma CountStep(before: int, added: int, c: nat, m: nat, hit: bool, count: nat)
    requires before == c * m && added == (if hit then m else 0)
    requires count == c + (if hit then 1 else 0)
    ensures before + added == count * m
  {
    if hit {
      MulSucc(c, m);
    }
  }

  lemma MulSucc(c: nat, m: nat)
    ensures (c + 1) * m == c * m + m
  {
  }

  lemma {:induction false} MulPositive(c: nat, m: nat)
    ensures c * m > 0 <==> c > 0 && m > 0
    decreases c
  {
    if c > 0 {
      MulPositive(c - 1, m);
      MulSucc(c - 1, m);
    }
  }

  /** Some argument occurs in `name` exactly when the count is positive. */
  lemma {:induction false} ArgCountPositive(name: GoString, args: seq<GoString>)
    ensures ArgCount(name, args) > 0 <==> exists k :: 0 <= k < |args| && Contains(name, args[k])
    decreases |args|
  {
    if |args| > 0 {
      var n := |args| - 1;
      var init := args[..n];
      ArgCountPositive(name, init);
      if Contains(name, args[n]) {
        assert ArgCount(name, args) > 0;
      } else {
        assert ArgCount(name, args) == ArgCount(name, init);
        if exists k :: 0 <= k < |args| && Contains(name, args[k]) {
          var k :| 0 <= k < |args| && Contains(name, args[k]);
          assert k < n && init[k] == args[k];
        }
        if exists k :: 0 <= k < |init| && Contains(name, init[k]) {
          var k :| 0 <= k < |init| && Contains(name, init[k]);
          assert args[k] == init[k];
        }
      }
    }
  }

  /** Soundness and completeness: a record is a target exactly when it is
      listed and its name contains at least one argument. */
  lemma TargetsMembership(args: seq<GoString>, urls: seq<K8sSelfLink>, t: K8sSelfLink)
    ensures t in Targets(args, urls) <==> t in urls && exists k :: 0 <= k < |args| && Contains(t.name, args[k])
  {
    TargetsCount(args, urls, t);
    ArgCountPositive(t.name, args);
    MulPositive(ArgCount(t.name, args), multiset(urls)[t]);
    assert t in Targets(args, urls) <==> multiset(Targets(args, urls))[t] > 0;
    assert t in urls <==> multiset(urls)[t] > 0;
  }

  /** The targets for the arguments "apache" and "1" among pods named
      apache-1, apache-2 and nginx-1, whatever their other fields: first
      both apache pods, then apache-1 again and nginx-1, whose names
      contain "1". */
  lemma SelectionScenario(a1: K8sSelfLink, a2: K8sSelfLink, n1: K8sSelfLink)
    requires a1.name == "apache-1" && a2.name == "apache-2" && n1.name == "nginx-1"
    ensures Targets(["apache", "1"], [a1, a2, n1]) == [a1, a2, a1, n1]
  {
    ScenarioApache(a1, a2, n1);
    ScenarioOne(a1, a2, n1);
    TargetsTwo("apache", "1", [a1, a2, n1]);
    assert [a1, a2] + [a1, n1] == [a1, a2, a1, n1];
  }

  lemma ScenarioApache(a1: K8sSelfLink, a2: K8sSelfLink, n1: K8sSelfLink)
    requires a1.name == "apache-1" && a2.name == "apache-2" && n1.name == "nginx-1"
    ensures NameMatches("apache", [a1, a2, n1]) == [a1, a2]
  {
    assert "apache" <= a1.name[0..] && "apache" <= a2.name[0..];
    NotContainsWithoutFirst(n1.name, "apache");
    NameMatchesThree("apache", a1, a2, n1);
  }

  lemma ScenarioOne(a1: K8sSelfLink, a2: K8sSelfLink, n1: K8sSelfLink)
    requires a1.name == "apache-1" && a2.name == "apache-2" && n1.name == "nginx-1"
    ensures NameMatches("1", [a1, a2, n1]) == [a1, n1]
  {
    assert [a1] + [] + [n1] == [a1, n1];
    NotContainsWithoutFirst(a2.name, "1");
    EndsWith(a1.name, '1');
    EndsWith(n1.name, '1');
    NameMatchesThree("1", a1, a2, n1);
  }

  /** A string contains its own last byte. */
  lemma EndsWith(s: GoString, c: char)
    requires |s| > 0 && s[|s| - 1] == c
    ensures Contains(s, [c])
  {
    assert [c] <= s[|s| - 1..];
  }

  /** The targets for two arguments, the first one's matches first. */
  lemma TargetsTwo(u: GoString, v: GoString, urls: seq<K8sSelfLink>)
    ensures Targets([u, v], urls) == NameMatches(u, urls) + NameMatches(v, urls)
  {
    assert [u, v][..1] == [u] && [u][..0] == [];
    assert Targets([u], urls) == [] + NameMatches(u, urls);
  }

  /** The matches among three records, one record at a time. */
  lemma NameMatchesThree(u: GoString, x: K8sSelfLink, y: K8sSelfLink, z: K8sSelfLink)
    ensures NameMatches(u, [x, y, z])
         == (if Contains(x.name, u) then [x] else [])
          + (if Contains(y.name, u) then [y] else [])
          + (if Contains(z.name, u) then [z] else [])
  {
    assert [x, y, z][..2] == [x, y] && [x, y][..1] == [x] && [x][..0] == [];
    assert NameMatches(u, [x]) == (if Contains(x.name, u) then [x] else []);
    assert NameMatches(u, [x, y]) == NameMatches(u, [x]) + (if Contains(y.name, u) then [y] else []);
  }

  // ---------------------------------------------------------------------
  // The print decision
  // ---------------------------------------------------------------------

  /** Whether a received string is printed. Without filters every string
      is; with only a white list, the strings containing one of its
      elements; with a black list, the strings containing none of its
      elements, whatever the white list says. */
  function Printed(s: GoString, white: seq<GoString>, black: seq<GoString>): (b: bool)
    ensures |white| == 0 && |black| == 0 ==> b
    ensures |black| == 0 && |white| > 0 ==> (b <==> AnyContained(s, white))
    ensures |black| > 0 ==> (b <==> !AnyContained(s, black))
  {
    if |black| == 0 && |white| == 0 then true
    else if |black| > 0 then !MatchBlack(s, black)
    else MatchWhite(s, white)
  }

  /** With a non-empty black list the white list makes no difference. */
  lemma BlacklistOverridesWhitelist(s: GoString, white: seq<GoString>, other: seq<GoString>, black: seq<GoString>)
    requires |black| > 0
    ensures Printed(s, white, black) == Printed(s, other, black)
  {
  }

  /** The strings printed, one after the other, from those received. */
  function Output(received: seq<GoString>, white: seq<GoString>, black: seq<GoString>): GoString
  {
    if |received| == 0 then []
    else
      var s := received[|received| - 1];
      Output(received[..|received| - 1], white, black) + (if Printed(s, white, black) then s else [])
  }

  /** All the received strings, one after the other. */
  function Concat(received: seq<GoString>): GoString
  {
    if |received| == 0 then [] else Concat(received[..|received| - 1]) + received[|received| - 1]
  }

  /** Without filters the output is everything received, unchanged. */
  lemma {:induction false} NoFiltersPrintsAll(received: seq<GoString>)
    ensures Output(received, [], []) == Concat(received)
    decreases |received|
  {
    if |received| > 0 {
      NoFiltersPrintsAll(received[..|received| - 1]);
    }
  }

  /** With a non-empty black list the output is the same whatever the
      white list is. */
  lemma {:induction false} OutputIgnoresWhitelist(received: seq<GoString>, white: seq<GoString>, black: seq<GoString>)
    requires |black| > 0
    ensures Output(received, white, black) == Output(received, [], black)
    decreases |received|
  {
    if |received| > 0 {
      OutputIgnoresWhitelist(received[..|received| - 1], white, black);
      BlacklistOverridesWhitelist(received[|received| - 1], white, [], black);
    }
  }

  /** The root command's filter flags and its per-string state: the white
      and black lists from the command line, `filtering` (the source's
      `match` flag: some filter is set) and `printing` (the source's
      `print` flag: the last decision). */
  class Command {
    const white: seq<GoString>
    const black: seq<GoString>
    var filtering: bool
    var printing: bool

    /** `filtering` is true exactly when some filter is set. */
    ghost predicate Valid()
      reads this
    {
      filtering <==> |black| > 0 || |white| > 0
    }

    /** The flags as the command starts handling strings: `printing` starts
        true, and `filtering` is set when either list is non-empty. */
    constructor (white: seq<GoString>, black: seq<GoString>)
      ensures this.white == white && this.black == black
      ensures Valid() && printing
    {
      this.white := white;
      this.black := black;
      printing := true;
      filtering := false;
      new;
      if |black| > 0 || |white| > 0 {
        filtering := true;
      }
    }

    /** Handles one received string: with filters, recomputes `printing` from
        the white list and then the black list; returns the string when it
        is printed. */
    method Receive(s: GoString) returns (out: Option<GoString>)
      requires Valid()
      modifies this`printing
      ensures Valid()
      ensures out == if Printed(s, white, black) then Some(s) else None
      ensures filtering ==> printing == Printed(s, white, black)
      ensures !filtering ==> printing == old(printing)
    {
      if filtering {
        printing := false;
        if |white| > 0 {
          if MatchWhite(s, white) {
            printing := true;
          }
        }
        if |black| > 0 {
          if MatchBlack(s, black) {
            printing := false;
          } else {
            printing := true;
          }
        }
        if printing {
          out := Some(s);
        } else {
          out := None;
        }
      } else {
        out := Some(s);
      }
    }

    /** Handles the received strings in order and returns what is printed;
        when filtering, `printing` is left at the decision for the last one,
        and otherwise, or when nothing is received, it keeps its value. */
    method Drain(received: seq<GoString>) returns (output: GoString)
      requires Valid()
      modifies this`printing
      ensures Valid()
      ensures output == Output(received, white, black)
      ensures printing == if filtering && |received| > 0 then Printed(received[|received| - 1], white, black) else old(printing)
    {
      output := [];
      for k := 0 to |received|
        invariant Valid()
        invariant output == Output(received[..k], white, black)
        invariant printing == if filtering && k > 0 then Printed(received[k - 1], white, black) else old(printing)
      {
        var out := Receive(received[k]);
        assert received[..k + 1][..k] == received[..k];
        if out.Some? {
          output := output + out.value;
        }
      }
      assert received[..|received|] == received;
    }
  }

}
