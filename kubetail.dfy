/** cmd/kubetail.go: the pod records the tool works with, the default log
    options, and the substring matchers used by the white and black lists.
    Listing pods, creating clients and streaming logs are not modelled. */
module KubeTail {
  import opened Wrappers
  import opened GoText

  newtype int64 = x: int | -0x8000_0000_0000_0000 <= x < 0x8000_0000_0000_0000

  /** The fields of the platform's log options that this tool sets; every
      other field keeps its zero value. `tailLines` is a reference, nil when
      unset. */
  datatype PodLogOptions = PodLogOptions(follow: bool, tailLines: Option<int64>)

  /** The fields read from one listed pod: its name, namespace and self
      link, and the kind from its type metadata, which may be empty. */
  datatype PodItem = PodItem(name: GoString, namespace: GoString, kind: GoString, selfLink: GoString)

  /** A resolved target: one pod and the URL of its resource. */
  datatype K8sSelfLink = K8sSelfLink(name: GoString, namespace: GoString, kind: GoString, url: GoString)

  const PodKind: GoString := "Pod"

  /** The record-building loop of `getSelfLinks` over the already listed
      items. Only the resource "pods" is supported; any other resource makes
      the program print a message and exit with status 1 (None). */
  method GetSelfLinks(resource: GoString, items: seq<PodItem>) returns (links: Option<seq<K8sSelfLink>>)
    ensures links.Some? <==> resource == "pods"
    ensures links.Some? ==> |links.value| == |items|
    ensures links.Some? ==> forall i :: 0 <= i < |items| ==>
      && links.value[i].name == items[i].name
      && links.value[i].namespace == items[i].namespace
      && links.value[i].kind == (if items[i].kind == "" then PodKind else items[i].kind)
      && links.value[i].url == items[i].selfLink
  {
    if resource != "pods" {
      return None;
    }
    var k8sLinks: seq<K8sSelfLink> := [];
    for j := 0 to |items|
      invariant |k8sLinks| == j
      invariant forall i :: 0 <= i < j ==>
        && k8sLinks[i].name == items[i].name
        && k8sLinks[i].namespace == items[i].namespace
        && k8sLinks[i].kind == (if items[i].kind == "" then PodKind else items[i].kind)
        && k8sLinks[i].url == items[i].selfLink
    {
      var item := items[j];
      var sl := K8sSelfLink("", "", "", "");
      sl := sl.(name := item.name);
      sl := sl.(namespace := item.namespace);
      sl := sl.(kind := item.kind);
      if sl.kind == "" {
        sl := sl.(kind := PodKind);
      }
      sl := sl.(url := item.selfLink);
      k8sLinks := k8sLinks + [sl];
    }
    return Some(k8sLinks);
  }

  /** The options the root command starts from: follow the log, starting
      with the last 10 lines. */
  function LogDefaults(): (o: PodLogOptions)
    ensures o.follow && o.tailLines == Some(10)
  {
    PodLogOptions(true, Some(10))
  }

  // ---------------------------------------------------------------------
  // Substring matchers
  // ---------------------------------------------------------------------

  /** Some element of `list` occurs in `s`. */
  ghost predicate AnyContained(s: GoString, list: seq<GoString>)
  {
    exists i :: 0 <= i < |list| && Contains(s, list[i])
  }

  /** `matchWhite`: scans `list` in order and answers true at the first
      element that occurs in `s`. */
  function MatchWhite(s: GoString, list: seq<GoString>): (b: bool)
    ensures b <==> AnyContained(s, list)
  {
    if |list| == 0 then false
    else if Contains(s, list[0]) then true
    else
      var b := MatchWhite(s, list[1..]);
      assert AnyContained(s, list[1..]) ==> AnyContained(s, list) by {
        if AnyContained(s, list[1..]) {
          var i :| 0 <= i < |list[1..]| && Contains(s, list[1..][i]);
          assert list[1..][i] == list[i + 1];
        }
      }
      assert AnyContained(s, list) ==> AnyContained(s, list[1..]) by {
        if AnyContained(s, list) {
          var i :| 0 <= i < |list| && Contains(s, list[i]);
          assert list[1..][i - 1] == list[i];
        }
      }
      b
  }

  /** `matchWhiteBytes`: the same scan over the byte copies of `s` and of
      each element, which hold the same bytes. */
  function MatchWhiteBytes(s: GoString, list: seq<GoString>): (b: bool)
    ensures b == MatchWhite(s, list)
  {
    var sb: Bytes := s;
    if |list| == 0 then false
    else
      var lb: Bytes := list[0];
      if Contains(sb, lb) then true else MatchWhiteBytes(s, list[1..])
  }

  /** `matchBlack`: written out separately in the source with the same body
      as `matchWhite`, so it decides the same predicate. */
  function MatchBlack(s: GoString, list: seq<GoString>): (b: bool)
    ensures b == MatchWhite(s, list)
  {
    if |list| == 0 then false
    else if Contains(s, list[0]) then true
    else MatchBlack(s, list[1..])
  }

  /** `matchBlackBytes`: the byte-slice twin of `matchBlack`. */
  function MatchBlackBytes(s: GoString, list: seq<GoString>): (b: bool)
    ensures b == MatchBlack(s, list)
  {
    var sb: Bytes := s;
    if |list| == 0 then false
    else
      var lb: Bytes := list[0];
      if Contains(sb, lb) then true else MatchBlackBytes(s, list[1..])
  }

  /** A list holding the empty string matches every string. */
  lemma EmptyElementMatchesAll(s: GoString, list: seq<GoString>)
    requires [] in list
    ensures MatchWhite(s, list) && MatchBlack(s, list)
  {
    var i :| 0 <= i < |list| && list[i] == [];
    ContainsEmpty(s);
  }

  /** Adding elements to a list never turns a match into a non-match. */
  lemma MatchMonotonic(s: GoString, list: seq<GoString>, more: seq<GoString>)
    requires MatchWhite(s, list)
    ensures MatchWhite(s, list + more) && MatchWhite(s, more + list)
  {
    var i :| 0 <= i < |list| && Contains(s, list[i]);
    assert (list + more)[i] == list[i];
    assert (more + list)[|more| + i] == list[i];
  }

}
