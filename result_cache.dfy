/** The content script's lookup of an address (content.js,
    `sendAddressToServer`) and the pass over a page (`processAddresses`).
    `localStorage` is a string-keyed map; the stored JSON text is held in
    the shape `JSON.parse` gives back. The clock and the network are
    parameters: `now` is what `Date.now()` reads when the cache is checked,
    and a `Fetch` is what the POST to `/process_address` resolves to,
    together with the clock reading after the response was decoded. */
module ResultCache {
  import opened Wrappers
  import opened Extraction
  import opened Protocol
  import opened Annotator
  import opened JsText

  /** Seven days in milliseconds. */
  const TtlMs: int := 7 * 24 * 60 * 60 * 1000

  /** A `localStorage` value: `{data, timestamp}` as written by a
      successful lookup (either field may be missing), or text that does
      not parse as such an object. */
  datatype StoredValue =
    | Entry(data: Option<LookupResult>, timestamp: Option<int>)
    | Opaque(text: string)

  /** `data && data.ftth && data.ftth.IsSuccessful`. */
  predicate HasFtth(data: Option<LookupResult>) {
    data.Some? && data.value.ftth.Some? && Truthy(data.value.ftth.value.isSuccessful)
  }

  /** `Date.now() - timestamp < ttlMs`; a missing timestamp gives NaN,
      which is never less. */
  predicate IsFresh(timestamp: Option<int>, now: int) {
    timestamp.Some? && now - timestamp.value < TtlMs
  }

  /** What the cache check decides: serve the cached data, remove the
      entry, or find nothing (`getItem` gave null or ""). */
  datatype CacheRead = Serve(data: LookupResult) | Evict | Miss

  function ReadCache(stored: Option<StoredValue>, now: int): CacheRead {
    match stored
    case None => Miss
    case Some(Opaque(text)) => if text == "" then Miss else Evict
    case Some(Entry(data, timestamp)) =>
      if IsFresh(timestamp, now) && HasFtth(data) then Serve(data.value) else Evict
  }

  /** How the request ended: `fetch` rejected, or a response with its
      status code and its decoded body (None when `response.json()`
      rejects). */
  datatype FetchOutcome =
    | NetworkError
    | Response(status: int, body: Option<LookupResult>)

  /** A request's outcome and the `Date.now()` reading taken for the cache
      entry. */
  datatype Fetch = Fetch(outcome: FetchOutcome, doneAt: int)

  /** `response.ok` and a body that decodes. */
  predicate Fetched(outcome: FetchOutcome) {
    outcome.Response? && 200 <= outcome.status <= 299 && outcome.body.Some?
  }

  function Lookup(items: map<string, StoredValue>, key: string): Option<StoredValue> {
    if key in items then Some(items[key]) else None
  }

  /** The store after `sendAddressToServer`. */
  function StoreAfterSend(items: map<string, StoredValue>, a: Address, now: int, fetch: Fetch): map<string, StoredValue> {
    var key := NodeId(a);
    var read := ReadCache(Lookup(items, key), now);
    if read.Serve? then items
    else
      var kept := if read.Evict? then items - {key} else items;
      if Fetched(fetch.outcome) then kept[key := Entry(fetch.outcome.body, Some(fetch.doneAt))] else kept
  }

  /** What `sendAddressToServer` resolves to: the cached or fetched data,
      or null. */
  function SendResult(items: map<string, StoredValue>, a: Address, now: int, fetch: Fetch): Option<LookupResult> {
    var read := ReadCache(Lookup(items, NodeId(a)), now);
    if read.Serve? then Some(read.data)
    else if Fetched(fetch.outcome) then fetch.outcome.body
    else None
  }

  /** The annotation nodes after `sendAddressToServer`: the data it
      resolves to is shown, and a failed lookup shows nothing new. */
  function NodesAfterSend(nodes: map<string, Node>, items: map<string, StoredValue>, a: Address, now: int, fetch: Fetch): map<string, Node> {
    var r := SendResult(items, a, now, fetch);
    if r.Some? then WithResults(nodes, r.value, a) else nodes
  }

  class Storage {
    var items: map<string, StoredValue>

    constructor (initial: map<string, StoredValue>)
      ensures items == initial
    {
      items := initial;
    }

    /** `localStorage.getItem`. */
    function GetItem(key: string): Option<StoredValue>
      reads this
    {
      Lookup(items, key)
    }

    /** `localStorage.setItem`. */
    method SetItem(key: string, value: StoredValue)
      modifies this
      ensures items == old(items)[key := value]
    {
      items := items[key := value];
    }

    /** `localStorage.removeItem`. */
    method RemoveItem(key: string)
      modifies this
      ensures items == old(items) - {key}
    {
      items := items - {key};
    }
  }

  /** `sendAddressToServer`: serve a fresh, successful cached entry without
      a request; otherwise drop any unusable entry, ask the server, and on
      an ok response store `{data, timestamp}` and show the data. */
  method SendAddressToServer(store: Storage, doc: Document, a: Address, now: int, fetch: Fetch)
    returns (r: Option<LookupResult>)
    modifies store, doc
    ensures r == SendResult(old(store.items), a, now, fetch)
    ensures store.items == StoreAfterSend(old(store.items), a, now, fetch)
    ensures doc.nodes == NodesAfterSend(old(doc.nodes), old(store.items), a, now, fetch)
  {
    var uniqueId := UniqueId(a);
    var cachedRaw := store.GetItem(uniqueId);
    if cachedRaw.Some? && cachedRaw.value != Opaque("") {
      match cachedRaw.value
      case Entry(data, timestamp) =>
        var isFresh := timestamp.Some? && now - timestamp.value < TtlMs;
        var hasFtth := data.Some? && data.value.ftth.Some? && Truthy(data.value.ftth.value.isSuccessful);
        if isFresh && hasFtth {
          doc.AppendResultsToPage(data.value, a);
          return data;
        }
        store.RemoveItem(uniqueId);
      case Opaque(_) =>
        // JSON.parse or the destructuring threw
        store.RemoveItem(uniqueId);
    }
    match fetch.outcome
    case NetworkError =>
      r := None;
    case Response(status, body) =>
      if !(200 <= status <= 299) {
        r := None;
      } else if body.None? {
        r := None;
      } else {
        store.SetItem(uniqueId, Entry(body, Some(fetch.doneAt)));
        doc.AppendResultsToPage(body.value, a);
        r := body;
      }
  }

  // -------------------------------------------------- processAddresses

  /** `address.city && address.street && address.houseNum`. */
  predicate Complete(a: Address) {
    a.city != "" && a.street != "" && a.houseNum != ""
  }

  /** The complete addresses among the first `i`, in order. */
  function CompleteUpTo(list: seq<Address>, i: nat): seq<Address>
    requires i <= |list|
  {
    if i == 0 then []
    else CompleteUpTo(list, i - 1) + (if Complete(list[i - 1]) then [list[i - 1]] else [])
  }

  /** The store and the annotation nodes together. */
  datatype ClientState = ClientState(items: map<string, StoredValue>, nodes: map<string, Node>)

  /** One address of the `forEach` in `processAddresses`: a complete one
      gets the loading indicator, then is looked up. */
  function Visit(st: ClientState, a: Address, now: int, fetch: Fetch): ClientState {
    if Complete(a) then
      ClientState(StoreAfterSend(st.items, a, now, fetch),
                  NodesAfterSend(WithLoading(st.nodes, a), st.items, a, now, fetch))
    else st
  }

  /** The state after visiting the first `i` addresses. */
  function VisitUpTo(st: ClientState, list: seq<Address>, i: nat, now: int, network: Address -> Fetch): ClientState
    requires i <= |list|
  {
    if i == 0 then st
    else Visit(VisitUpTo(st, list, i - 1, now, network), list[i - 1], now, network(list[i - 1]))
  }

  /** The addresses a page yields, or none. */
  function PageList(page: PageView): seq<Address> {
    var found := PageAddresses(page);
    if found.Some? && |found.value| > 0 then found.value else []
  }

  /** `processAddresses`: extract the page's addresses and look up each
      complete one; `sent` lists those looked up, in order. Each lookup
      runs to completion before the next address is visited. */
  method ProcessAddresses(page: PageView, store: Storage, doc: Document, now: int, network: Address -> Fetch)
    returns (sent: seq<Address>)
    modifies store, doc
    ensures sent == CompleteUpTo(PageList(page), |PageList(page)|)
    ensures ClientState(store.items, doc.nodes)
      == VisitUpTo(ClientState(old(store.items), old(doc.nodes)), PageList(page), |PageList(page)|, now, network)
  {
    ghost var start := ClientState(store.items, doc.nodes);
    sent := [];
    var addresses := ExtractAddressFromPage(page);
    if addresses.Some? && |addresses.value| > 0 {
      var list := addresses.value;
      var i := 0;
      while i < |list|
        invariant 0 <= i <= |list| && list == PageList(page)
        invariant sent == CompleteUpTo(list, i)
        invariant ClientState(store.items, doc.nodes) == VisitUpTo(start, list, i, now, network)
      {
        var address := list[i];
        if address.city != "" && address.street != "" && address.houseNum != "" {
          doc.AppendLoadingIndicator(address);
          var result := SendAddressToServer(store, doc, address, now, network(address));
          sent := sent + [address];
        }
        i := i + 1;
      }
    }
  }

  // ---------------------------------------------------------------- lemmas

  /** A cached entry is served exactly when it parsed, is younger than
      seven days (strictly) and records a successful FTTH lookup; then no
      request is made: the result, the store and the nodes do not depend
      on what the network would have answered, and the store is left as
      it is. */
  lemma CacheHit(items: map<string, StoredValue>, a: Address, now: int, f1: Fetch, f2: Fetch)
    ensures ReadCache(Lookup(items, NodeId(a)), now).Serve? <==>
      && NodeId(a) in items && items[NodeId(a)].Entry?
      && items[NodeId(a)].timestamp.Some? && now - items[NodeId(a)].timestamp.value < TtlMs
      && HasFtth(items[NodeId(a)].data)
    ensures ReadCache(Lookup(items, NodeId(a)), now).Serve? ==>
      && StoreAfterSend(items, a, now, f1) == items
      && SendResult(items, a, now, f1) == SendResult(items, a, now, f2) == items[NodeId(a)].data
  {
  }

  /** The seven days are a strict bound: an entry written at `t` is served
      up to `t + TtlMs - 1` and removed from `t + TtlMs` on. */
  lemma FreshnessBoundary(data: LookupResult, t: int)
    requires HasFtth(Some(data))
    ensures ReadCache(Some(Entry(Some(data), Some(t))), t + TtlMs - 1) == Serve(data)
    ensures ReadCache(Some(Entry(Some(data), Some(t))), t + TtlMs) == Evict
  {
  }

  /** A stale, incomplete or unparsable entry is removed: unless a new
      entry is written, the key is gone afterwards. */
  lemma UnusableEntryRemoved(items: map<string, StoredValue>, a: Address, now: int, fetch: Fetch)
    requires NodeId(a) in items && items[NodeId(a)] != Opaque("")
    requires !ReadCache(Lookup(items, NodeId(a)), now).Serve?
    requires !Fetched(fetch.outcome)
    ensures NodeId(a) !in StoreAfterSend(items, a, now, fetch)
  {
  }

  /** A failed request (network error, a status outside 200-299, or a body
      that does not decode) resolves to null when nothing was served and
      writes nothing: the store only loses the entry that was dropped, and
      the nodes are left as they were. */
  lemma FailureWritesNothing(items: map<string, StoredValue>, nodes: map<string, Node>, a: Address, now: int, fetch: Fetch)
    requires !Fetched(fetch.outcome)
    requires !ReadCache(Lookup(items, NodeId(a)), now).Serve?
    ensures SendResult(items, a, now, fetch) == None
    ensures forall k :: k in StoreAfterSend(items, a, now, fetch) ==>
      k in items && StoreAfterSend(items, a, now, fetch)[k] == items[k]
    ensures NodesAfterSend(nodes, items, a, now, fetch) == nodes
  {
  }

  /** An ok response is stored with its timestamp whether or not the FTTH
      lookup succeeded, and becomes the result shown.  */
  lemma SuccessWritesEntry(items: map<string, StoredValue>, nodes: map<string, Node>, a: Address, now: int, fetch: Fetch)
    requires Fetched(fetch.outcome)
    requires !ReadCache(Lookup(items, NodeId(a)), now).Serve?
    ensures StoreAfterSend(items, a, now, fetch)[NodeId(a)] == Entry(fetch.outcome.body, Some(fetch.doneAt))
    ensures SendResult(items, a, now, fetch) == fetch.outcome.body
    ensures NodesAfterSend(nodes, items, a, now, fetch)[NodeId(a)].html == Rendered(fetch.outcome.body.value)
  {
    ResultsSpec(nodes, fetch.outcome.body.value, a);
  }

  /** Keys other than the address's own are never touched. */
  lemma OtherKeysUnchanged(items: map<string, StoredValue>, a: Address, now: int, fetch: Fetch, k: string)
    requires k != NodeId(a)
    ensures k in StoreAfterSend(items, a, now, fetch) <==> k in items
    ensures k in items ==> StoreAfterSend(items, a, now, fetch)[k] == items[k]
  {
  }

  /** Round trip: what a successful lookup stores is served by a later
      check exactly while it is fresh and records a successful FTTH
      lookup. */
  lemma WriteThenRead(items: map<string, StoredValue>, a: Address, now: int, fetch: Fetch, later: int)
    requires Fetched(fetch.outcome)
    requires !ReadCache(Lookup(items, NodeId(a)), now).Serve?
    ensures var again := ReadCache(Lookup(StoreAfterSend(items, a, now, fetch), NodeId(a)), later);
      again.Serve? <==> later - fetch.doneAt < TtlMs && HasFtth(fetch.outcome.body)
    ensures var again := ReadCache(Lookup(StoreAfterSend(items, a, now, fetch), NodeId(a)), later);
      again.Serve? ==> again.data == fetch.outcome.body.value
  {
    SuccessWritesEntry(items, map[], a, now, fetch);
  }

  /** The addresses looked up are exactly the complete ones, in order. */
  lemma {:induction false} CompleteUpToSpec(list: seq<Address>, i: nat)
    requires i <= |list|
    ensures forall k :: 0 <= k < |CompleteUpTo(list, i)| ==>
      Complete(CompleteUpTo(list, i)[k]) && CompleteUpTo(list, i)[k] in list[..i]
    ensures forall j :: 0 <= j < i && Complete(list[j]) ==> list[j] in CompleteUpTo(list, i)
  {
    if i > 0 {
      CompleteUpToSpec(list, i - 1);
      var before := CompleteUpTo(list, i - 1);
      var after := CompleteUpTo(list, i);
      forall k | 0 <= k < |after|
        ensures Complete(after[k]) && after[k] in list[..i]
      {
        if k < |before| {
          assert after[k] == before[k];
          assert before[k] in list[..i - 1];
          assert list[..i - 1] == list[..i][..i - 1];
        } else {
          assert after[k] == list[i - 1] == list[..i][i - 1];
        }
      }
      forall j | 0 <= j < i && Complete(list[j])
        ensures list[j] in after
      {
        if j < i - 1 {
          assert list[j] in before;
        } else {
          assert after[|after| - 1] == list[j];
        }
      }
    }
  }

  /** One visit keeps every node and gives a complete address its node. */
  lemma VisitKeepsNode(st: ClientState, a: Address, now: int, fetch: Fetch)
    ensures st.nodes.Keys <= Visit(st, a, now, fetch).nodes.Keys
    ensures Complete(a) ==> NodeId(a) in Visit(st, a, now, fetch).nodes
  {
    if Complete(a) {
      var loading := WithLoading(st.nodes, a);
      LoadingSpec(st.nodes, a);
      var r := SendResult(st.items, a, now, fetch);
      if r.Some? {
        ResultsSpec(loading, r.value, a);
      }
    }
  }

  /** The same, as a step of `VisitUpTo`: a node present before stays. */
  lemma VisitUpToKeeps(st: ClientState, list: seq<Address>, i: nat, now: int, network: Address -> Fetch, key: string)
    requires 0 < i <= |list| && key in VisitUpTo(st, list, i - 1, now, network).nodes
    ensures key in VisitUpTo(st, list, i, now, network).nodes
  {
    VisitKeepsNode(VisitUpTo(st, list, i - 1, now, network), list[i - 1], now, network(list[i - 1]));
  }

  /** The same, as a step of `VisitUpTo`: the address visited gets its node. */
  lemma VisitUpToAdds(st: ClientState, list: seq<Address>, i: nat, now: int, network: Address -> Fetch)
    requires 0 < i <= |list| && Complete(list[i - 1])
    ensures NodeId(list[i - 1]) in VisitUpTo(st, list, i, now, network).nodes
  {
    VisitKeepsNode(VisitUpTo(st, list, i - 1, now, network), list[i - 1], now, network(list[i - 1]));
  }

  /** A node that exists before a run of visits exists after it. */
  lemma {:induction false} NodeStays(st: ClientState, list: seq<Address>, i: nat, now: int, network: Address -> Fetch, key: string)
    requires i <= |list| && key in st.nodes
    ensures key in VisitUpTo(st, list, i, now, network).nodes
  {
    if i > 0 {
      NodeStays(st, list, i - 1, now, network, key);
      VisitUpToKeeps(st, list, i, now, network, key);
    }
  }

  /** Every complete address visited has a node afterwards. */
  lemma {:induction false} VisitedHasNode(st: ClientState, list: seq<Address>, i: nat, j: nat, now: int, network: Address -> Fetch)
    requires j < i <= |list| && Complete(list[j])
    ensures NodeId(list[j]) in VisitUpTo(st, list, i, now, network).nodes
  {
    if j == i - 1 {
      VisitUpToAdds(st, list, i, now, network);
    } else {
      VisitedHasNode(st, list, i - 1, j, now, network);
      VisitUpToKeeps(st, list, i, now, network, NodeId(list[j]));
    }
  }

  /** The address was read from a heading whose trimmed text holds a
      space. */
  predicate FromSpacedHeading(page: PageView, a: Address) {
    match a.anchor
    case ItemHeading =>
      page.itemHeading.Some? && Contains(Trim(page.itemHeading.value), " ")
    case ListingHeading(j) =>
      j < |page.headings| && Contains(Trim(page.headings[j].text), " ")
  }

  /** A complete address of the page comes from a heading with a space. */
  lemma CompleteIsSpaced(page: PageView, a: Address)
    requires a in PageList(page) && Complete(a)
    ensures FromSpacedHeading(page, a)
  {
    var list := PageList(page);
    if StartsWith(page.url, ItemPrefix) {
      HeadingSplitSpec(page.itemHeading.value);
    } else {
      ListingAt(page.headings);
      var k :| 0 <= k < |list| && list[k] == a;
      var j := InfoHeadings(page.headings, |page.headings|)[k];
      HeadingSplitSpec(page.headings[j].text);
    }
  }

  /** A heading without a space gives an empty street, so its address is
      never looked up: every address looked up on a listing page comes
      from a heading whose trimmed text holds a space, and on a
      single-item page the heading's trimmed text holds one. */
  lemma NoSpaceNeverSent(page: PageView)
    ensures forall k :: 0 <= k < |CompleteUpTo(PageList(page), |PageList(page)|)| ==>
      FromSpacedHeading(page, CompleteUpTo(PageList(page), |PageList(page)|)[k])
  {
    var list := PageList(page);
    var sent := CompleteUpTo(list, |list|);
    CompleteUpToSpec(list, |list|);
    assert list[..|list|] == list;
    forall k | 0 <= k < |sent|
      ensures FromSpacedHeading(page, sent[k])
    {
      CompleteIsSpaced(page, sent[k]);
    }
  }
}
