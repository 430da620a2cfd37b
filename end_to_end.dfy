/** The content script and the server together: the body the script posts
    (content.js, `sendAddressToServer`) is the request `process_address`
    reads (server.py), and the endpoint's reply is the response the script
    decodes. JSON encoding on one side and decoding on the other are taken
    to give back the same value. */
module EndToEnd {
  import opened Wrappers
  import opened Protocol
  import opened Extraction
  import opened Annotator
  import opened ResultCache
  import opened Server

  /** `{city, street, houseNum}`, the body the content script posts. */
  function RequestOf(a: Address): Option<map<string, string>> {
    Some(map["city" := a.city, "street" := a.street, "houseNum" := a.houseNum])
  }

  /** The endpoint's reply as the content script's `fetch` sees it. The
      script never decodes the body of a response that is not ok, so none
      is recorded for the 400 and 500 replies. */
  function AsFetchOutcome(reply: Reply): FetchOutcome {
    match reply
    case Ok(result) => Response(200, Some(result))
    case BadRequest(_) => Response(400, None)
    case ServerError => Response(500, None)
  }

  /** The content script's body always passes the server's check, and the
      server looks up exactly the address extracted from the page. */
  lemma ClientRequestsAreValid(a: Address)
    ensures ValidRequest(RequestOf(a))
    ensures PlaceOf(RequestOf(a).value) == Place(a.city, a.street, a.houseNum)
  {
    assert "city" in RequestOf(a).value;
  }

  /** The script stores and shows a server reply exactly when the server
      answered with status 200, and what it stores and shows is that
      reply's result; after a 400 or 500 reply the address has no entry,
      unless the one it had was the empty text, which is left alone. */
  lemma ClientKeepsServerResult(items: map<string, StoredValue>, nodes: map<string, Node>, a: Address, now: int, reply: Reply, doneAt: int)
    requires !ReadCache(Lookup(items, NodeId(a)), now).Serve?
    ensures Fetched(AsFetchOutcome(reply)) <==> reply.Ok?
    ensures reply.Ok? ==>
      var fetch := Fetch(AsFetchOutcome(reply), doneAt);
      && SendResult(items, a, now, fetch) == Some(reply.result)
      && StoreAfterSend(items, a, now, fetch)[NodeId(a)] == Entry(Some(reply.result), Some(doneAt))
      && NodesAfterSend(nodes, items, a, now, fetch)[NodeId(a)].html == Rendered(reply.result)
    ensures !reply.Ok? ==>
      var fetch := Fetch(AsFetchOutcome(reply), doneAt);
      && SendResult(items, a, now, fetch) == None
      && (NodeId(a) in StoreAfterSend(items, a, now, fetch) ==> items[NodeId(a)] == Opaque(""))
  {
    var fetch := Fetch(AsFetchOutcome(reply), doneAt);
    if reply.Ok? {
      SuccessWritesEntry(items, nodes, a, now, fetch);
    } else {
      FailureWritesNothing(items, nodes, a, now, fetch);
    }
  }
}
