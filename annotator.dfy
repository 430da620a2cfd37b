/** The annotations the content script adds to a page (content.js,
    `appendLoadingIndicator` and `appendResultsToPage`). The document is
    reduced to the nodes with an `addr_info_<hash>` id: each holds the
    element it was inserted after and its inner HTML. Styling is not part
    of the model. */
module Annotator {
  import opened Wrappers
  import opened Extraction
  import opened Hashing
  import opened Protocol
  import opened JsText

  const LoadingText: string := "Loading information..."

  /** An annotation node: the element it follows and its inner HTML. */
  datatype Node = Node(anchor: Anchor, html: string)

  /** The id of an address's annotation node. */
  function NodeId(a: Address): string {
    "addr_info_" + AddressHash(a)
  }

  function WalkingLine(duration: string): string {
    "🚶 " + duration + "<br>"
  }

  function BikingLine(duration: string): string {
    "🚴 " + duration + "<br>"
  }

  /** The travel lines: walking first, then biking; driving is never shown. */
  function TravelLines(travelTimes: Option<map<string, Leg>>): string {
    match travelTimes
    case None => ""
    case Some(tt) =>
      (if "walking" in tt then WalkingLine(tt["walking"].duration) else "")
      + (if "biking" in tt then BikingLine(tt["biking"].duration) else "")
  }

  /** `data.ftth && data.ftth.IsSuccessful && data.ftth.Status`. */
  predicate ShowsFtth(ftth: Option<FtthResult>) {
    ftth.Some? && Truthy(ftth.value.isSuccessful) && ftth.value.status != ""
  }

  function Glyph(ftth: Option<FtthResult>): string {
    if !ShowsFtth(ftth) then ""
    else if ftth.value.status == "available" then "🛜"
    else "📵"
  }

  /** The inner HTML `appendResultsToPage` leaves in the node. */
  function Rendered(data: LookupResult): string {
    TravelLines(data.travelTimes) + Glyph(data.ftth)
  }

  /** The node map after `appendLoadingIndicator`. */
  function WithLoading(nodes: map<string, Node>, a: Address): map<string, Node> {
    var id := NodeId(a);
    if id in nodes then nodes else nodes[id := Node(a.anchor, LoadingText)]
  }

  /** The node map after `appendResultsToPage`: an existing node keeps its
      place and gets new content, otherwise a node is inserted after the
      address's own element. */
  function WithResults(nodes: map<string, Node>, data: LookupResult, a: Address): map<string, Node> {
    var id := NodeId(a);
    var anchor := if id in nodes then nodes[id].anchor else a.anchor;
    nodes[id := Node(anchor, Rendered(data))]
  }

  /** `addr_info_` followed by the address hash. */
  method UniqueId(a: Address) returns (id: string)
    ensures id == NodeId(a)
    ensures |id| > 10 && id[..10] == "addr_info_"
    ensures AllBase36(id[10..]) && FromBase36(id[10..]) == Abs(HashOfUnits(CodeUnits(AddressString(a))))
  {
    var addressHash := GenerateAddressHash(a);
    id := "addr_info_" + addressHash;
    assert id[10..] == addressHash;
  }

  class Document {
    var nodes: map<string, Node>

    constructor ()
      ensures nodes == map[]
    {
      nodes := map[];
    }

    /** `appendLoadingIndicator`: insert a node with the loading message
        unless the address already has one. */
    method AppendLoadingIndicator(a: Address)
      modifies this
      ensures nodes == WithLoading(old(nodes), a)
    {
      var uniqueId := UniqueId(a);
      if uniqueId !in nodes {
        nodes := nodes[uniqueId := Node(a.anchor, LoadingText)];
      }
    }

    /** `appendResultsToPage`: find or insert the node, clear it and
        append the lines for the result one by one. */
    method AppendResultsToPage(data: LookupResult, a: Address)
      modifies this
      ensures nodes == WithResults(old(nodes), data, a)
    {
      var uniqueId := UniqueId(a);
      var html := "";
      if data.travelTimes.Some? {
        var tt := data.travelTimes.value;
        if "walking" in tt {
          EmptyUnit(WalkingLine(tt["walking"].duration));
          html := html + WalkingLine(tt["walking"].duration);
        }
        if "biking" in tt {
          html := html + BikingLine(tt["biking"].duration);
        } else {
          EmptyUnit(html);
        }
      }
      assert html == TravelLines(data.travelTimes);
      if data.ftth.Some? && Truthy(data.ftth.value.isSuccessful) && data.ftth.value.status != "" {
        html := html + (if data.ftth.value.status == "available" then "🛜" else "📵");
      } else {
        EmptyUnit(html);
      }
      assert html == Rendered(data);
      var anchor := a.anchor;
      if uniqueId in nodes {
        anchor := nodes[uniqueId].anchor;
      }
      nodes := nodes[uniqueId := Node(anchor, html)];
    }
  }

  /** The empty string is a unit of concatenation. */
  lemma EmptyUnit(s: string)
    ensures "" + s == s && s + "" == s
  {
  }

  // ---------------------------------------------------------------- lemmas

  /** The loading indicator never overwrites a node: an existing node is
      left as it is, and otherwise exactly one node is added, after the
      address's element. */
  lemma LoadingSpec(nodes: map<string, Node>, a: Address)
    ensures WithLoading(nodes, a).Keys == nodes.Keys + {NodeId(a)}
    ensures forall id :: id in nodes ==> WithLoading(nodes, a)[id] == nodes[id]
    ensures NodeId(a) !in nodes ==> WithLoading(nodes, a)[NodeId(a)] == Node(a.anchor, LoadingText)
  {
  }

  /** Showing the results touches only the address's node: it ends up
      holding the rendered result, at the place an earlier node had. */
  lemma ResultsSpec(nodes: map<string, Node>, data: LookupResult, a: Address)
    ensures WithResults(nodes, data, a).Keys == nodes.Keys + {NodeId(a)}
    ensures forall id :: id in nodes && id != NodeId(a) ==> WithResults(nodes, data, a)[id] == nodes[id]
    ensures WithResults(nodes, data, a)[NodeId(a)].html == Rendered(data)
    ensures NodeId(a) in nodes ==> WithResults(nodes, data, a)[NodeId(a)].anchor == nodes[NodeId(a)].anchor
    ensures NodeId(a) !in nodes ==> WithResults(nodes, data, a)[NodeId(a)].anchor == a.anchor
  {
  }

  /** Both operations are idempotent: a second call creates no second node
      and leaves the same content. */
  lemma Idempotent(nodes: map<string, Node>, data: LookupResult, a: Address)
    ensures WithLoading(WithLoading(nodes, a), a) == WithLoading(nodes, a)
    ensures WithResults(WithResults(nodes, data, a), data, a) == WithResults(nodes, data, a)
  {
  }

  /** The results replace the loading message without a trace: the node
      is where the indicator put it and holds only the rendered result. */
  lemma ResultsReplaceLoading(nodes: map<string, Node>, data: LookupResult, a: Address)
    ensures WithResults(WithLoading(nodes, a), data, a) == WithResults(nodes, data, a)
  {
  }

  /** The travel lines are empty or end with a line break. */
  lemma TravelLinesEnd(travelTimes: Option<map<string, Leg>>)
    ensures var s := TravelLines(travelTimes); s == "" || s[|s| - 1] == '>'
  {
    if travelTimes.Some? {
      var tt := travelTimes.value;
      var w := if "walking" in tt then WalkingLine(tt["walking"].duration) else "";
      var b := if "biking" in tt then BikingLine(tt["biking"].duration) else "";
      assert TravelLines(travelTimes) == w + b;
      if b != "" {
        assert (w + b)[|w + b| - 1] == b[|b| - 1];
      }
    }
  }

  /** The glyph: 🛜 ends the node exactly when the lookup succeeded and the
      status is "available", 📵 exactly when it succeeded with another
      non-empty status, and with no success or no status the node holds
      only the travel lines. */
  lemma GlyphSpec(data: LookupResult)
    ensures var s := Rendered(data);
      (s != "" && s[|s| - 1] == '🛜') <==> ShowsFtth(data.ftth) && data.ftth.value.status == "available"
    ensures var s := Rendered(data);
      (s != "" && s[|s| - 1] == '📵') <==> ShowsFtth(data.ftth) && data.ftth.value.status != "available"
    ensures !ShowsFtth(data.ftth) ==> Rendered(data) == TravelLines(data.travelTimes)
  {
    TravelLinesEnd(data.travelTimes);
    var t := TravelLines(data.travelTimes);
    var g := Glyph(data.ftth);
    if g == "" {
      assert Rendered(data) == t;
    } else {
      assert Rendered(data)[|Rendered(data)| - 1] == g[0];
    }
  }

  /** The walking line comes first when there is one, and the biking line
      follows it directly; without a walking leg the node does not start
      with the walking sign. */
  lemma LineOrder(data: LookupResult)
    requires data.travelTimes.Some?
    ensures var tt := data.travelTimes.value;
      "walking" in tt ==>
        Rendered(data)[..|WalkingLine(tt["walking"].duration)|] == WalkingLine(tt["walking"].duration)
    ensures var tt := data.travelTimes.value;
      "walking" !in tt ==> Rendered(data) == "" || Rendered(data)[0] != '🚶'
    ensures var tt := data.travelTimes.value;
      var skip := if "walking" in tt then |WalkingLine(tt["walking"].duration)| else 0;
      "biking" in tt ==>
        Rendered(data)[skip..skip + |BikingLine(tt["biking"].duration)|] == BikingLine(tt["biking"].duration)
  {
    var tt := data.travelTimes.value;
    var w := if "walking" in tt then WalkingLine(tt["walking"].duration) else "";
    var b := if "biking" in tt then BikingLine(tt["biking"].duration) else "";
    var g := Glyph(data.ftth);
    assert Rendered(data) == w + (b + g);
    assert (w + (b + g))[..|w|] == w;
    assert (w + (b + g))[|w|..] == b + g;
    assert (b + g)[..|b|] == b;
    if w == "" && Rendered(data) != "" {
      if b != "" {
        assert Rendered(data)[0] == '🚴';
      } else {
        assert Rendered(data) == g;
      }
    }
  }

  /** Only the durations of the walking and biking legs are shown: two
      results that agree on those and on the FTTH part render alike. */
  lemma OnlyWalkingAndBikingShown(ftth: Option<FtthResult>, tt: map<string, Leg>, other: map<string, Leg>)
    requires ("walking" in tt <==> "walking" in other) && ("biking" in tt <==> "biking" in other)
    requires "walking" in tt ==> tt["walking"].duration == other["walking"].duration
    requires "biking" in tt ==> tt["biking"].duration == other["biking"].duration
    ensures Rendered(LookupResult(ftth, Some(tt))) == Rendered(LookupResult(ftth, Some(other)))
  {
  }

  /** The driving leg is never shown. */
  lemma DrivingNotShown(ftth: Option<FtthResult>, tt: map<string, Leg>)
    ensures Rendered(LookupResult(ftth, Some(tt))) == Rendered(LookupResult(ftth, Some(tt - {"driving"})))
  {
    OnlyWalkingAndBikingShown(ftth, tt, tt - {"driving"});
  }
}
