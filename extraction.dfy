/** Address extraction (content.js, `extractAddressFromPage`): the page's
    URL picks the single-item or the listing template, and the heading and
    info-line texts are split into street, house number and city. The DOM
    is reduced to the texts the selectors would find. */
module Extraction {
  import opened Wrappers
  import opened JsText

  const ItemPrefix: string := "https://www.yad2.co.il/realestate/item"
  const RentPrefix: string := "https://www.yad2.co.il/realestate/rent"

  /** The element an address was read from; its annotation is placed right
      after it. */
  datatype Anchor = ItemHeading | ListingHeading(index: nat)

  /** The anchor's heading index, or -1 for the single-item heading. */
  function AnchorIndex(a: Anchor): int {
    if a.ListingHeading? then a.index else -1
  }

  datatype Address = Address(city: string, street: string, houseNum: string, anchor: Anchor)

  /** A listing heading's text and, when its grandparent holds an info
      line, that line's text. */
  datatype HeadingNode = HeadingNode(text: string, infoLine: Option<string>)

  /** What the extractor reads of a page: its URL, the single-item heading
      and address sub-heading if present, and the listing headings in
      document order. */
  datatype PageView = PageView(
    url: string,
    itemHeading: Option<string>,
    itemAddress: Option<string>,
    headings: seq<HeadingNode>)

  /** Street and house number: the trimmed text split on " ", the last
      piece is the house number and the others joined by " " the street. */
  function SplitHeading(text: string): (string, string) {
    var parts := Split(Trim(text), " ");
    (Join(parts[..|parts| - 1], " "), Last(parts))
  }

  /** The city: the last ", "-separated piece of the trimmed text. */
  function CityOf(text: string): string {
    Last(Split(Trim(text), ", "))
  }

  function ItemAddress(heading: string, subHeading: string): Address {
    var (street, houseNum) := SplitHeading(heading);
    Address(CityOf(subHeading), street, houseNum, ItemHeading)
  }

  function HeadingAddress(h: HeadingNode, index: nat): Address
    requires h.infoLine.Some?
  {
    var (street, houseNum) := SplitHeading(h.text);
    Address(CityOf(h.infoLine.value), street, houseNum, ListingHeading(index))
  }

  /** The positions, among the first `i` headings, of those that have an
      info line, in document order. */
  function InfoHeadings(hs: seq<HeadingNode>, i: nat): (idx: seq<nat>)
    requires i <= |hs|
    ensures forall k :: 0 <= k < |idx| ==> idx[k] < i && hs[idx[k]].infoLine.Some?
  {
    if i == 0 then []
    else InfoHeadings(hs, i - 1) + (if hs[i - 1].infoLine.Some? then [i - 1] else [])
  }

  /** The addresses read from the headings at the positions `idx`. */
  function AddressesAt(hs: seq<HeadingNode>, idx: seq<nat>): seq<Address>
    requires forall k :: 0 <= k < |idx| ==> idx[k] < |hs| && hs[idx[k]].infoLine.Some?
  {
    seq(|idx|, k requires 0 <= k < |idx| => HeadingAddress(hs[idx[k]], idx[k]))
  }

  /** The addresses the listing branch pushes, heading by heading. */
  function ListingAddresses(hs: seq<HeadingNode>): seq<Address> {
    AddressesAt(hs, InfoHeadings(hs, |hs|))
  }

  /** The `forEach` over the listing headings: a heading whose
      grandparent holds an info line pushes its address, the others are
      skipped. */
  method CollectListing(hs: seq<HeadingNode>) returns (addresses: seq<Address>)
    ensures addresses == ListingAddresses(hs)
  {
    addresses := [];
    var i := 0;
    while i < |hs|
      invariant 0 <= i <= |hs|
      invariant addresses == AddressesAt(hs, InfoHeadings(hs, i))
    {
      var heading := hs[i];
      if heading.infoLine.Some? {
        AddressesAtPush(hs, InfoHeadings(hs, i), i);
        addresses := addresses + [HeadingAddress(heading, i)];
      }
      i := i + 1;
    }
  }

  /** The addresses of a page, as `extractAddressFromPage` finds them. */
  function PageAddresses(page: PageView): Option<seq<Address>> {
    if StartsWith(page.url, ItemPrefix) then
      if page.itemHeading.Some? && page.itemAddress.Some?
      then Some([ItemAddress(page.itemHeading.value, page.itemAddress.value)])
      else None
    else if StartsWith(page.url, RentPrefix) then
      if ListingAddresses(page.headings) == [] then None else Some(ListingAddresses(page.headings))
    else None
  }

  /** `extractAddressFromPage`: null (None) for an unsupported URL, for a
      single-item page whose heading or sub-heading is missing, and for a
      listing page that yields no address; never an empty list. */
  method ExtractAddressFromPage(page: PageView) returns (r: Option<seq<Address>>)
    ensures r == PageAddresses(page)
    ensures StartsWith(page.url, ItemPrefix) ==>
      r == if page.itemHeading.Some? && page.itemAddress.Some?
           then Some([ItemAddress(page.itemHeading.value, page.itemAddress.value)])
           else None
    ensures !StartsWith(page.url, ItemPrefix) && StartsWith(page.url, RentPrefix) ==>
      r == if ListingAddresses(page.headings) == [] then None else Some(ListingAddresses(page.headings))
    ensures !StartsWith(page.url, ItemPrefix) && !StartsWith(page.url, RentPrefix) ==> r == None
    ensures r.Some? ==> r.value != []
  {
    if StartsWith(page.url, ItemPrefix) {
      if page.itemHeading.Some? && page.itemAddress.Some? {
        r := Some([ItemAddress(page.itemHeading.value, page.itemAddress.value)]);
      } else {
        r := None;
      }
    } else if StartsWith(page.url, RentPrefix) {
      var addresses := CollectListing(page.headings);
      if |addresses| > 0 {
        r := Some(addresses);
      } else {
        r := None;
      }
    } else {
      r := None;
    }
  }

  // ---------------------------------------------------------------- lemmas

  /** The house number holds no space; with a space in the trimmed heading,
      street + " " + house number gives the trimmed heading back; without
      one, the street is empty and the house number is the whole heading. */
  lemma HeadingSplitSpec(text: string)
    ensures !Contains(SplitHeading(text).1, " ")
    ensures Contains(Trim(text), " ") ==> SplitHeading(text).0 + " " + SplitHeading(text).1 == Trim(text)
    ensures !Contains(Trim(text), " ") ==> SplitHeading(text).0 == "" && SplitHeading(text).1 == Trim(text)
  {
    var t := Trim(text);
    var parts := Split(t, " ");
    SplitLastFree(t, " ");
    SplitCount(t, " ");
    SplitJoin(t, " ");
    if |parts| >= 2 {
      assert Join(parts, " ") == Join(parts[..|parts| - 1], " ") + " " + Last(parts);
    }
  }

  /** The city is the piece of the trimmed text after its last ", ": a
      ", "-free suffix that is either the whole text or follows a ", ". */
  lemma CitySpec(text: string)
    ensures !Contains(CityOf(text), ", ")
    ensures |CityOf(text)| <= |Trim(text)| && CityOf(text) == Trim(text)[|Trim(text)| - |CityOf(text)|..]
    ensures AfterLastComma(CityOf(text), Trim(text))
  {
    var t := Trim(text);
    var parts := Split(t, ", ");
    SplitLastFree(t, ", ");
    SplitLastSuffix(t, ", ");
    SplitJoin(t, ", ");
    SplitCount(t, ", ");
    if |parts| >= 2 {
      assert t == Join(parts[..|parts| - 1], ", ") + ", " + Last(parts);
    }
  }

  /** `city` is all of `t`, or `t` has ", " just before it. */
  predicate AfterLastComma(city: string, t: string) {
    city == t || (|city| + 2 <= |t| && t[|t| - |city| - 2..|t| - |city|] == ", ")
  }

  /** What an address read from a heading and a line under it holds: the
      house number is the trimmed heading's last space-free word and the
      street the words before it, and the city is the piece of the
      trimmed line after its last ", " (all of it when there is none). */
  predicate ReadFrom(a: Address, heading: string, line: string) {
    && !Contains(a.houseNum, " ")
    && (Contains(Trim(heading), " ") ==> a.street + " " + a.houseNum == Trim(heading))
    && (!Contains(Trim(heading), " ") ==> a.street == "" && a.houseNum == Trim(heading))
    && !Contains(a.city, ", ")
    && |a.city| <= |Trim(line)| && a.city == Trim(line)[|Trim(line)| - |a.city|..]
    && AfterLastComma(a.city, Trim(line))
  }

  /** The address of the item page is read from its heading and the
      address line under it, and anchored at the heading. */
  lemma ItemAddressSpec(heading: string, subHeading: string)
    ensures ReadFrom(ItemAddress(heading, subHeading), heading, subHeading)
    ensures ItemAddress(heading, subHeading).anchor == ItemHeading
  {
    HeadingSplitSpec(heading);
    CitySpec(subHeading);
  }

  /** The address of a listing heading is read from the heading and its
      info line, and anchored at that heading. */
  lemma HeadingAddressSpec(h: HeadingNode, index: nat)
    requires h.infoLine.Some?
    ensures ReadFrom(HeadingAddress(h, index), h.text, h.infoLine.value)
    ensures HeadingAddress(h, index).anchor == ListingHeading(index)
  {
    HeadingSplitSpec(h.text);
    CitySpec(h.infoLine.value);
  }

  /** Pushing the address of heading `j`. */
  lemma AddressesAtPush(hs: seq<HeadingNode>, idx: seq<nat>, j: nat)
    requires forall k :: 0 <= k < |idx| ==> idx[k] < |hs| && hs[idx[k]].infoLine.Some?
    requires j < |hs| && hs[j].infoLine.Some?
    ensures AddressesAt(hs, idx + [j]) == AddressesAt(hs, idx) + [HeadingAddress(hs[j], j)]
  {
    var longer := idx + [j];
    assert forall k :: 0 <= k < |idx| ==> longer[k] == idx[k];
  }

  /** The positions are increasing: document order is kept. */
  lemma {:induction false} InfoHeadingsIncreasing(hs: seq<HeadingNode>, i: nat)
    requires i <= |hs|
    ensures forall k, l :: 0 <= k < l < |InfoHeadings(hs, i)| ==> InfoHeadings(hs, i)[k] < InfoHeadings(hs, i)[l]
  {
    if i > 0 {
      InfoHeadingsIncreasing(hs, i - 1);
      var before := InfoHeadings(hs, i - 1);
      var after := InfoHeadings(hs, i);
      forall k, l | 0 <= k < l < |after|
        ensures after[k] < after[l]
      {
        assert after[k] == before[k];
        if l < |before| {
          assert after[l] == before[l];
        } else {
          assert after[l] == i - 1;
        }
      }
    }
  }

  /** No heading with an info line is skipped. */
  lemma {:induction false} InfoHeadingsComplete(hs: seq<HeadingNode>, i: nat)
    requires i <= |hs|
    ensures forall j :: 0 <= j < i && hs[j].infoLine.Some? ==> j in InfoHeadings(hs, i)
  {
    if i > 0 {
      InfoHeadingsComplete(hs, i - 1);
    }
  }

  /** The `k`-th listing address is read from the `k`-th heading with an
      info line and anchored at it. */
  lemma ListingAt(hs: seq<HeadingNode>)
    ensures |ListingAddresses(hs)| == |InfoHeadings(hs, |hs|)|
    ensures forall k :: 0 <= k < |ListingAddresses(hs)| ==>
      var j := InfoHeadings(hs, |hs|)[k];
      ListingAddresses(hs)[k] == HeadingAddress(hs[j], j) && ListingAddresses(hs)[k].anchor == ListingHeading(j)
  {
  }

  /** The listing branch yields one address per heading that has an info
      line, built from that heading and anchored at it, in heading order;
      the headings without one are skipped. */
  lemma ListingSpec(hs: seq<HeadingNode>)
    ensures forall k :: 0 <= k < |ListingAddresses(hs)| ==>
      var a := ListingAddresses(hs)[k];
      && a.anchor.ListingHeading? && a.anchor.index < |hs|
      && hs[a.anchor.index].infoLine.Some?
      && a == HeadingAddress(hs[a.anchor.index], a.anchor.index)
    ensures forall k, l :: 0 <= k < l < |ListingAddresses(hs)| ==>
      AnchorIndex(ListingAddresses(hs)[k].anchor) < AnchorIndex(ListingAddresses(hs)[l].anchor)
    ensures forall j :: 0 <= j < |hs| && hs[j].infoLine.Some? ==>
      exists k :: 0 <= k < |ListingAddresses(hs)| && ListingAddresses(hs)[k].anchor == ListingHeading(j)
  {
    var idx := InfoHeadings(hs, |hs|);
    var all := ListingAddresses(hs);
    ListingAt(hs);
    InfoHeadingsIncreasing(hs, |hs|);
    InfoHeadingsComplete(hs, |hs|);
    forall j | 0 <= j < |hs| && hs[j].infoLine.Some?
      ensures exists k :: 0 <= k < |all| && all[k].anchor == ListingHeading(j)
    {
      var k :| 0 <= k < |idx| && idx[k] == j;
      assert all[k].anchor == ListingHeading(j);
    }
  }

  /** The listing branch finds nothing exactly when no heading has an info line. */
  lemma ListingEmptySpec(hs: seq<HeadingNode>)
    ensures ListingAddresses(hs) == [] <==> forall i :: 0 <= i < |hs| ==> hs[i].infoLine.None?
  {
    ListingSpec(hs);
    if ListingAddresses(hs) != [] {
      var a := ListingAddresses(hs)[0];
      assert hs[a.anchor.index].infoLine.Some?;
    }
  }

  /** A heading of two words splits into them. */
  lemma TwoWordHeading(street: string, houseNum: string)
    requires street != [] && houseNum != []
    requires forall j :: 0 <= j < |street| ==> !IsJsSpace(street[j])
    requires forall j :: 0 <= j < |houseNum| ==> !IsJsSpace(houseNum[j])
    ensures SplitHeading(street + " " + houseNum) == (street, houseNum)
  {
    var t := street + " " + houseNum;
    assert t[0] == street[0] && t[|t| - 1] == houseNum[|houseNum| - 1];
    TrimUnpadded(t);
    SplitPair(street, " ", houseNum);
    var parts := Split(t, " ");
    assert parts[..|parts| - 1] == [street];
  }

  /** An info line "region, city" names the city. */
  lemma TwoPartInfoLine(region: string, city: string)
    requires region != [] && city != []
    requires !IsJsSpace(region[0]) && !IsJsSpace(city[|city| - 1])
    requires forall j :: 0 <= j < |region| ==> region[j] != ','
    requires forall j :: 0 <= j < |city| ==> city[j] != ','
    ensures CityOf(region + ", " + city) == city
  {
    var t := region + ", " + city;
    assert t[0] == region[0] && t[|t| - 1] == city[|city| - 1];
    TrimUnpadded(t);
    SplitPair(region, ", ", city);
  }

  /** A single-item page headed "Herzl 12" over "Tel Aviv District, Tel Aviv". */
  lemma HerzlExample(heading: string, subHeading: string)
    requires heading == "Herzl 12" && subHeading == "Tel Aviv District, Tel Aviv"
    ensures ItemAddress(heading, subHeading) == Address("Tel Aviv", "Herzl", "12", ItemHeading)
  {
    HerzlHeading(heading);
    TelAvivInfoLine(subHeading);
  }

  lemma HerzlHeading(heading: string)
    requires heading == "Herzl 12"
    ensures SplitHeading(heading) == ("Herzl", "12")
  {
    TwoWordHeading("Herzl", "12");
    assert "Herzl" + " " + "12" == heading;
  }

  lemma TelAvivInfoLine(subHeading: string)
    requires subHeading == "Tel Aviv District, Tel Aviv"
    ensures CityOf(subHeading) == "Tel Aviv"
  {
    TwoPartInfoLine("Tel Aviv District", "Tel Aviv");
    assert "Tel Aviv District" + ", " + "Tel Aviv" == subHeading;
  }
}
