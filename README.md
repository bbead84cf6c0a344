# kubetail line selection, in Dafny

kubetail tails the logs of several Kubernetes pods at once. It selects pods
whose name contains one of the command-line arguments. It can filter the
received log text with a white list (`-w`, keep strings containing one of
its elements) and a black list (`-b`, drop strings containing one of its
elements). This project models the deterministic line-selection logic of
the `cmd` package and proves its properties:

- `regex.go` (module `Regex`): a filter rule (`RegexList`, type `Black` = 1
  or `White` = 2) and `GetRegex`, which joins the rule's strings with `|`
  into one alternation pattern, or gives nil for an empty list.
- `podlogger.go` (module `PodLogger`):
  - the per-chunk body of `regexLogs`: split a chunk on byte 10, trim every
    line, let every rule make a pass over the lines, append each kept line
    followed by a line feed, and hand a non-empty result downstream under
    the same pod name;
  - `logDefaults(tl)`.
- `kubetail.go` (module `KubeTail`):
  - the substring matchers `matchWhite`, `matchBlack`, `matchWhiteBytes` and
    `matchBlackBytes`;
  - the record-building loop of `getSelfLinks`, which defaults an empty kind
    to `"Pod"`;
  - `logDefaults()`.
- `root.go` (module `Root`):
  - target selection: for each argument in turn, every listed pod whose name
    contains it;
  - the `match` flag;
  - the per-string print decision, which the black list overrides.

Go strings and byte slices are both sequences of `char`, one per byte
(module `GoText`, which also holds `strings.Contains`, `bytes.Split`, the
`|`-join and `bytes.TrimSpace`). Regular-expression matching is a parameter,
`matchString(pattern, text)`, standing for `regexp.MustCompile(pattern)`
followed by `MatchString(text)`.

Three behaviours of the code are easy to misread, and the model follows
the code in each:

- **Rules do not form a chain.** In `regexLogs` every rule walks the full
  list of the chunk's lines, and the rules' outputs are concatenated. A later
  rule does not act on what survived an earlier one. A line can therefore be
  emitted once per rule. With an exclude rule for `POST` followed by an
  include rule for `foo`, the chunk `GET /x\nPOST /y\nfoo bar\n` gives
  `GET /x\nfoo bar\nfoo bar\n`, not `foo bar\n`
  (`PodLogger.ExcludeThenIncludeScenario`). The two orders give the same
  lines in a different order.
- **Targets are not de-duplicated.** They are not selected through one
  alternation pattern either. The selection loop is argument-major, and a pod
  is selected once for every argument its name contains.
- **No matching pod does not end the run.** With zero targets the command
  still enters its receive loop.

## Model

| member | source | states |
|---|---|---|
| `GoText.Contains` | cmd/kubetail.go:237 | `strings.Contains`: true exactly when `sub` occurs in `s` at some offset |
| `GoText.ContainsEmpty` | cmd/kubetail.go:237 | the empty string occurs in every string |
| `GoText.NotContainsWithoutFirst` | cmd/kubetail.go:237 | a string without the first byte of `sub` does not contain `sub` |
| `GoText.Split` | cmd/podlogger.go:110 | `bytes.Split` on byte 10 gives at least one piece, and no piece holds the separator |
| `GoText.Join` | cmd/regex.go:34-40 | the joined string is as long as the pieces together plus one separator between each two |
| `GoText.SplitAround` | cmd/podlogger.go:110 | splitting at a separator splits the two sides independently |
| `GoText.SplitWithoutSeparator` | cmd/podlogger.go:110 | a string without the separator is one piece |
| `GoText.SplitJoin` | cmd/regex.go:34-40 | separator-free pieces, joined and split again, are the same pieces |
| `GoText.JoinSplit` | cmd/regex.go:34-40 | joining the pieces of a string gives the string back |
| `GoText.JoinPrepend` | cmd/regex.go:34-40 | an empty first piece puts a separator in front of the join |
| `GoText.JoinCons` | cmd/regex.go:34-40 | a byte put in front of the first piece is put in front of the join |
| `GoText.TerminatedIsJoin` | cmd/podlogger.go:118-119 | lines each followed by a line feed are the lines joined with one empty line added |
| `GoText.SplitTerminated` | cmd/podlogger.go:118-119 | splitting line-feed-terminated lines gives the lines and one empty tail |
| `GoText.TerminatedAppend` | cmd/podlogger.go:111-131 | terminating two runs of lines one after the other terminates each run |
| `GoText.TrimLeftSuffix` | cmd/podlogger.go:116 | the left trim drops exactly the longest whitespace prefix |
| `GoText.TrimRightPrefix` | cmd/podlogger.go:116 | the right trim drops exactly the longest whitespace suffix |
| `GoText.TrimSpace` | cmd/podlogger.go:116 | `bytes.TrimSpace`: the result is the slice of the input left once all leading and all trailing whitespace is cut off; it has no whitespace at either end, is no longer than the input, holds only input bytes, and is the input itself when that is already trimmed |
| `GoText.TrimmedSlice` | cmd/podlogger.go:116 | the left trim followed by the right trim leaves a slice of the input with only whitespace before and after it |
| `GoText.TrimmedEnds` | cmd/podlogger.go:116 | the left trim followed by the right trim leaves no whitespace at either end, and leaves an already trimmed input unchanged |
| `Regex.GetRegex` | cmd/regex.go:28-45 | the accumulating loop builds the pattern of the list, whatever the rule's type: nil for an empty list, otherwise the elements in order with a vertical bar between each two |
| `Regex.PatternShape` | cmd/regex.go:30-42 | no pattern exactly for the empty list; one element is the pattern itself; n elements give the element lengths plus n - 1 |
| `Regex.PatternRoundTrip` | cmd/regex.go:34-42 | when no element holds a vertical bar, splitting the pattern at vertical bars gives the list back |
| `KubeTail.GetSelfLinks` | cmd/kubetail.go:31-55 | only the resource `"pods"` gives records; one record per item, in item order, with name, namespace and URL copied and an empty kind replaced by `"Pod"` |
| `KubeTail.LogDefaults` | cmd/kubetail.go:227-233 | `logDefaults()` returns options that follow the log from the last 10 lines; the root command then replaces the tail count with its `--tail-lines` value (cmd/root.go:100-101), which is not modelled |
| `KubeTail.MatchWhite` | cmd/kubetail.go:235-242 | true exactly when some element of the list occurs in `s`, so false for the empty list |
| `KubeTail.MatchWhiteBytes` | cmd/kubetail.go:244-253 | the byte-slice version agrees with `matchWhite` on every input |
| `KubeTail.MatchBlack` | cmd/kubetail.go:255-262 | decides the same predicate as `matchWhite` |
| `KubeTail.MatchBlackBytes` | cmd/kubetail.go:264-273 | the byte-slice version agrees with `matchBlack` on every input |
| `KubeTail.EmptyElementMatchesAll` | cmd/kubetail.go:235-262 | a list holding the empty string matches every string, for both matchers |
| `KubeTail.MatchMonotonic` | cmd/kubetail.go:235-242 | adding elements at either end of a list never turns a match into a non-match |
| `PodLogger.LogDefaults` | cmd/podlogger.go:90-96 | the pod logger's options follow the log from the last `tl` lines |
| `PodLogger.RegexLogs` | cmd/podlogger.go:106-137 | one chunk gives a nil-regexp panic if some black or white rule has an empty list; otherwise it puts one record when the output is non-empty, with the same pod name and the rules' line-feed-terminated lines, rule after rule, and puts nothing when the output is empty |
| `PodLogger.ApplyRule` | cmd/podlogger.go:112-130 | the switch on the rule's type panics exactly for a black or white rule with no pattern; otherwise it appends that rule's kept lines, each with a line feed, and a rule of any other type appends nothing |
| `PodLogger.BlackPass` | cmd/podlogger.go:114-121 | the black-list loop appends, in order, each non-empty trimmed line the pattern does not match, followed by a line feed |
| `PodLogger.WhitePass` | cmd/podlogger.go:122-129 | the white-list loop appends, in order, each non-empty trimmed line the pattern matches, followed by a line feed |
| `PodLogger.KeptLinesStep` | cmd/podlogger.go:115-120 | one more line adds that trimmed line and a line feed when the rule keeps it, and nothing otherwise |
| `PodLogger.KeptLinesOtherType` | cmd/podlogger.go:113-130 | a rule whose type is neither black nor white keeps no line |
| `PodLogger.KeptLinesAppend` | cmd/podlogger.go:115-129 | a pass keeps line order: a pass over two runs of lines is the pass over each, in turn |
| `PodLogger.KeptLinesMembers` | cmd/podlogger.go:115-129 | a line is emitted by a pass exactly when it is the trimmed form of some input line that the pass keeps |
| `PodLogger.KeptLinesSound` | cmd/podlogger.go:115-129 | every line a pass emits is the trimmed form of some input line that the pass keeps |
| `PodLogger.KeptLinesComplete` | cmd/podlogger.go:115-129 | every input line whose trimmed form the pass keeps is emitted by the pass |
| `PodLogger.BlackRuleLines` | cmd/podlogger.go:114-121 | a black rule emits exactly the non-empty trimmed lines that its joined pattern does not match |
| `PodLogger.WhiteRuleLines` | cmd/podlogger.go:122-129 | a white rule emits exactly the non-empty trimmed lines that its joined pattern matches |
| `PodLogger.OrderLinesAppend` | cmd/podlogger.go:111-131 | the rules do not form a chain: an order of two parts emits each part's lines, each part applied to the full line list |
| `PodLogger.KeptLinesWellFormed` | cmd/podlogger.go:116-119 | every line a pass keeps from line-feed-free input is non-empty, trimmed and free of line feeds |
| `PodLogger.OrderLinesWellFormed` | cmd/podlogger.go:111-131 | the same holds for every line the whole rule order emits |
| `PodLogger.EmittedLines` | cmd/podlogger.go:109-137 | without a panic, every emitted line is non-empty and trimmed; nothing is put exactly when no line is emitted; a record that is put has the chunk's pod name and splits on line feeds into the emitted lines plus one empty tail, so each line ends in exactly one line feed |
| `PodLogger.TerminatedLength` | cmd/podlogger.go:132 | the output is empty exactly when no line was emitted |
| `PodLogger.KeptLinesIdempotent` | cmd/podlogger.go:115-129 | a pass over its own output keeps every line, unchanged |
| `PodLogger.SingleRuleIdempotent` | cmd/podlogger.go:106-137 | feeding the record one rule put downstream back through the same rule puts the same bytes again |
| `PodLogger.OrderLinesSingle` | cmd/podlogger.go:111-131 | an order of one rule emits that rule's lines |
| `PodLogger.KeptLinesSingle` | cmd/podlogger.go:115-129 | a pass over one line keeps its trimmed form exactly when the rule keeps it |
| `PodLogger.ScenarioLines` | cmd/podlogger.go:110 | the chunk of the lines `GET /x`, `POST /y` and `foo bar`, each ended by a line feed, splits into those lines and one empty tail |
| `PodLogger.KeptLinesFour` | cmd/podlogger.go:115-129 | a pass over four lines is the four one-line passes, in order |
| `PodLogger.SubstringMiss` | cmd/podlogger.go:117-125 | with literal matching, a trimmed line that does not contain the pattern is kept by a black pass when non-empty and dropped by a white pass |
| `PodLogger.SubstringHit` | cmd/podlogger.go:117-125 | with literal matching, a non-empty trimmed line starting with the pattern is dropped by a black pass and kept by a white pass |
| `PodLogger.ScenarioExcludePass` | cmd/podlogger.go:114-121 | the `POST` black rule keeps `GET /x` and `foo bar` of the scenario lines |
| `PodLogger.ScenarioIncludePass` | cmd/podlogger.go:122-129 | the `foo` white rule keeps only `foo bar` of the scenario lines |
| `PodLogger.FilterTwo` | cmd/podlogger.go:109-137 | two rules that cannot panic put the first rule's lines and then the second's, each over all the chunk's lines, and put nothing when there are none |
| `PodLogger.TerminatedThree` | cmd/podlogger.go:118-119 | three terminated lines are the lines, each followed by a line feed |
| `PodLogger.ExcludeThenIncludeScenario` | cmd/podlogger.go:106-137 | for the chunk `GET /x\nPOST /y\nfoo bar\n` of any pod, exclude `POST` then include `foo` puts `GET /x\nfoo bar\nfoo bar\n` under that pod; the reversed order puts `foo bar\nGET /x\nfoo bar\n` |
| `Root.SelectTargets` | cmd/root.go:106-113 | with no argument the command exits through its usage message (lines 76-81); otherwise the nested loop selects, argument by argument, every listed record whose name contains the argument, in list order |
| `Root.NameMatchesCount` | cmd/root.go:107-111 | the records one argument selects are each listed record whose name contains it, as often as it is listed |
| `Root.TargetsCount` | cmd/root.go:106-113 | each (argument, record) pair with containment gives exactly one target: a record is selected as often as it is listed times the number of arguments in its name |
| `Root.ArgCountPositive` | cmd/root.go:106-108 | some argument occurs in a name exactly when the count of such arguments is positive |
| `Root.TargetsMembership` | cmd/root.go:106-113 | soundness and completeness: a record is a target exactly when it is listed and its name contains at least one argument, case-sensitively |
| `Root.SelectionScenario` | cmd/root.go:106-113 | among pods named apache-1, apache-2 and nginx-1, the arguments `apache` and `1` select apache-1, apache-2, apache-1 and nginx-1, in that order |
| `Root.ScenarioApache` | cmd/root.go:107-111 | `apache` selects apache-1 and apache-2 |
| `Root.ScenarioOne` | cmd/root.go:107-111 | `1` selects apache-1 and nginx-1 |
| `Root.EndsWith` | cmd/root.go:108 | a name contains its own last byte |
| `Root.TargetsTwo` | cmd/root.go:106-113 | for two arguments the targets are the first one's records followed by the second one's |
| `Root.NameMatchesThree` | cmd/root.go:107-111 | the records selected among three are each one that matches, in order |
| `Root.Printed` | cmd/root.go:164-183 | without filters every string is printed; with only a white list, exactly the strings containing one of its elements; with a non-empty black list, exactly the strings containing none of its elements |
| `Root.BlacklistOverridesWhitelist` | cmd/root.go:171-177 | with a non-empty black list the white list makes no difference to the decision |
| `Root.NoFiltersPrintsAll` | cmd/root.go:181-183 | without filters the output is every received string, unchanged and in order |
| `Root.OutputIgnoresWhitelist` | cmd/root.go:171-177 | with a non-empty black list the whole output is the same whatever the white list |
| `Root.Command.constructor` | cmd/root.go:83-86 | `match` is set exactly when the black list or the white list is non-empty, and `print` starts true |
| `Root.Command.Receive` | cmd/root.go:164-183 | with filters, `print` is recomputed from the white list and then the black list, and the string comes out exactly when `Printed` holds; without filters the string always comes out and `print` is unchanged; `match` keeps its meaning |
| `Root.Command.Drain` | cmd/root.go:151-193 | the receive loop's output is the received strings that are printed, in order; when filtering and at least one string is received, `print` ends as the decision for the last string; otherwise it keeps its value |

## Left out

- Kubernetes access is left out: client creation, listing pods, `GetLogs` and `Stream`. `GetSelfLinks` and `SelectTargets` take the listed items as a parameter. The panic when listing fails is not modelled.
- `getK8sValue`'s reflection lookup is not modelled: a listed pod is a record of the four fields read from it.
- Goroutines, channels, the channel router, `sync.Pool`, `WaitGroup`, `getPodLogs`, `tailPodLogs`, `logWatch.Watch`, `StartStream` and `processLogs` are all concurrency. The model takes one chunk (`RegexLogs`) or a sequence of received strings (`Drain`) as input, so the pool's ability to drop items and any interleaving are not captured.
- The loop around the body of `regexLogs` is not modelled: its stop channel, polling and `backoff`.
- The receive loop's signals, sleeps and idle counter are not modelled. `Drain` handles a finite sequence of strings.
- `PodLogger.RegexLogs`: the Go type assertion `regex.(*RegexList)` panics for a rule of another type; rules here are always `RegexList`.
- Regular-expression syntax and semantics are not modelled, including the `MustCompile` panic on a bad pattern: matching is a parameter. `SubstringMatch` stands for patterns without operators.
- `GoText.TrimSpace` trims only the ASCII whitespace bytes 9 to 13 and 32, not Unicode spaces such as U+0085 or U+00A0.
- `Root.Command.Receive`: prints with `fmt.Printf(s)`, which reads `s` as a format string. The model prints `s` verbatim, which is what happens only when `s` contains no `%`.
- `append` on a trimmed line in `regexLogs` may overwrite a whitespace byte after the line in the chunk's buffer with byte 10. That byte is whitespace either way, so later passes trim the line the same; the model does not track the buffer.
- The spinner, `rand`, color, the `Found:` and `Filters >` messages, the pod-name header, and cobra flag registration are terminal I/O. The usage exit is `None`.
- `KubeTail.LogDefaults` and `PodLogger.LogDefaults`: only `Follow` and `TailLines` are modelled; every other option keeps its zero value. The two functions have the same Go name in package `cmd`, and Go rejects the second declaration of `logDefaults`; each is modelled on its own.
