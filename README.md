# Yad2 travel times and FTTH: a Dafny model

This project models the two decision layers of a small browser extension and its server.

- **The content script** runs on the Yad2 real-estate site. It:
  - finds the addresses on a single-item page or on a listing page;
  - gives each address a stable hash of its normalised street, house number and city;
  - shows a cached result from `localStorage` when that result is fresh and complete, and otherwise asks the server;
  - adds one annotation node per address. The node shows the walking and cycling times and a fibre (FTTH) glyph.
- **The server** answers `/process_address`. It:
  - checks that the request has the three fields;
  - asks the FTTH provider, through an sqlite table that expires after 14 days;
  - asks the distance service for the walking, driving and cycling legs to the office at משכית 12, הרצליה. These go through a second table whose rows never expire.

The model is written in the source's own form:

- String rules and key texts are functions.
- The hash loop, the listing loop and the `processAddresses` loop are methods with loop invariants.
- The document, `localStorage` and the sqlite database are classes. Their methods update map fields.
- Each state-changing method is tied to a specification function of the old state. The properties are lemmas about those functions.

Parameters stand in for everything outside the program:

- **The clock:** a millisecond reading is an argument. A fetch's completion time is part of its recorded outcome. `ResultCache.ProcessAddresses` passes one reading to every address's cache check (see "## Left out").
- **The remote services:** the server's `requests` calls and the script's `fetch` become the reply each would get. A reply may also be the exception it would raise.
- **The API key file:** the `.key` contents are an optional argument.
- **SHA-256:** the server's hash is a function fixed when the database is created.
- **The DOM:** reduced to the texts the selectors would find (`Extraction.PageView`) and a map from node id to the node's anchor and inner HTML (`Annotator.Document`).

Files:

| file | modules | what it holds |
|---|---|---|
| `wrappers.dfy` | `Wrappers` | `Option` |
| `js_text.dfy` | `JsText` | JavaScript `trim`, `toLowerCase`, `split`, `join`, `startsWith`, UTF-16 code units |
| `extraction.dfy` | `Extraction` | `extractAddressFromPage` |
| `address_hash.dfy` | `Hashing` | `generateAddressHash` |
| `protocol.dfy` | `Protocol` | the JSON result shared by server and script |
| `annotator.dfy` | `Annotator` | `appendLoadingIndicator`, `appendResultsToPage` |
| `result_cache.dfy` | `ResultCache` | `sendAddressToServer`, `processAddresses` |
| `server.dfy` | `Server` | server.py |
| `end_to_end.dfy` | `EndToEnd` | the script's request and the server's reply, connected |

Three behaviours of the code are worth stating explicitly:

- A cached entry is served only while it is younger than seven days *and* records a truthy `IsSuccessful` FTTH result; anything else is fetched again (`ResultCache.WriteThenRead`, `ResultCache.CacheHit`).
- The availability glyph is shown only when the FTTH lookup succeeded *and* `Status` is non-empty (`Annotator.GlyphSpec`).
- An annotation node that already exists keeps its place in the document; only its content is rewritten (`Annotator.ResultsSpec`).

## Model

| member | source | states |
|---|---|---|
| `JsText.IndexFrom` | content.js:144-149 | the position found is an occurrence of the separator at or after the start, and no occurrence comes before it; None means there is none |
| `JsText.TrimStartSpec` | content.js:144 | `trim`'s leading part removes only white space, keeps a suffix, and leaves no white space at the front |
| `JsText.TrimEndSpec` | content.js:144 | `trim`'s trailing part removes only white space, keeps a prefix, and leaves no white space at the end |
| `JsText.TrimUnpadded` | content.js:144 | a string with no white space at either end trims to itself |
| `JsText.TrimIgnoresPadding` | content.js:115-117 | white space around a string makes no difference to `trim` |
| `JsText.LowerConcat` | content.js:115-117 | `toLowerCase` works character by character |
| `JsText.LowerSpace` | content.js:115-117 | white space is unchanged by `toLowerCase` |
| `JsText.CodeUnitsAre16Bit` | content.js:125 | every value `charCodeAt` reads is a 16-bit code unit |
| `JsText.JoinCons` | content.js:146 | `join` puts the first piece, the separator, then the join of the rest |
| `JsText.SplitJoin` | content.js:144-146 | the pieces of `split` join back to the string |
| `JsText.SplitLastFree` | content.js:145 | the last piece of `split` holds no separator |
| `JsText.SplitLastSuffix` | content.js:148-149 | the last piece of `split` is a suffix of the string |
| `JsText.SplitCount` | content.js:144-145 | the string is one piece exactly when it holds no separator, and at least two pieces otherwise |
| `JsText.SplitAtFirst` | content.js:144 | `split` cuts at the first occurrence and goes on with the rest |
| `JsText.SplitPair` | content.js:144-149 | two pieces neither of which holds the separator's first character, joined by the separator, split back into them |
| `JsText.SplitWithout` | content.js:144 | a string with no separator splits into itself alone |
| `Extraction.ItemAddressSpec` | content.js:144-151 | the item page's house number is the trimmed heading's last space-free word and the street the words before it (all of it a number when there is no space); the city is the piece of the trimmed address line after its last ", ", or the whole line when it holds none; the anchor is the heading |
| `Extraction.HeadingAddressSpec` | content.js:164-178 | the same reading for a listing heading and its info line, anchored at that heading |
| `Extraction.InfoHeadings` | content.js:163-180 | the positions listed are all below the bound and all have an info line |
| `Extraction.CollectListing` | content.js:161-180 | the `forEach` pushes the addresses of the headings that have an info line, in order (equal to `ListingAddresses`) |
| `Extraction.ExtractAddressFromPage` | content.js:134-191 | an item URL gives exactly the one address, or null if the heading or sub-heading is missing; a rent URL gives the listing addresses, or null when there are none; any other URL gives null; a list is never empty |
| `Extraction.HeadingSplitSpec` | content.js:144-146 | the house number holds no space; with a space in the trimmed heading, street + " " + house number is the trimmed heading; without one, the street is "" and the house number is the whole heading |
| `Extraction.CitySpec` | content.js:148-149 | the city is the piece of the trimmed text after its last ", ": it holds no ", ", ends the text, and is either the whole text or directly preceded by ", " |
| `Extraction.InfoHeadingsIncreasing` | content.js:163 | listing addresses keep document order |
| `Extraction.InfoHeadingsComplete` | content.js:173-179 | no heading with an info line is skipped |
| `Extraction.ListingSpec` | content.js:163-180 | one address per heading with an info line: read from that heading, anchored at it, in heading order; every such heading is covered |
| `Extraction.ListingEmptySpec` | content.js:182-187 | the listing is empty exactly when no heading has an info line |
| `Extraction.TwoWordHeading` | content.js:144-146 | a two-word heading splits into street and house number |
| `Extraction.TwoPartInfoLine` | content.js:148-149 | "region, city" yields the city |
| `Extraction.HerzlExample` | content.js:143-151 | "Herzl 12" over "Tel Aviv District, Tel Aviv" is the address Herzl / 12 / Tel Aviv at the item heading |
| `Hashing.ToInt32` | content.js:126-127 | the result is a signed 32-bit integer congruent to the input modulo 2^32, and equal to the input when it is already in range |
| `Hashing.RollingHash` | content.js:123-128 | the loop computes the rolling hash of the code units and stays within signed 32 bits |
| `Hashing.GenerateAddressHash` | content.js:113-132 | the result is the address hash: non-empty, digits 0-9 and a-z only, no sign, base-36 value equal to the absolute hash and at most 2^31 |
| `Hashing.AddressHashSpec` | content.js:131 | the base-36 text is non-empty, digits only, reads back as the absolute hash, which is at most 2^31 |
| `Hashing.HashStepWraps31` | content.js:126-127 | each round computes the signed 32-bit wrap of 31·h + c |
| `Hashing.HashIsWrappedPolynomial` | content.js:123-128 | the hash is the polynomial hash Σ c_i·31^(n-1-i) wrapped to signed 32 bits |
| `Hashing.Base36RoundTrip` | content.js:131 | `toString(36)` of a non-negative number is non-empty, digits only, and reads back as the number |
| `Hashing.Base36NoLeadingZero` | content.js:131 | the base-36 text starts with '0' only for 0 |
| `Hashing.NormalizeIgnoresCaseAndPadding` | content.js:115-117 | a field typed in another case and padded with white space normalises to the same text |
| `Hashing.HashDependsOnNormalizedFields` | content.js:115-120 | addresses with the same normalised street, house number and city have the same hash, whatever their anchors |
| `Hashing.VariantsShareHash` | content.js:112-130 | an address whose fields are typed in another case and padded with white space has the same hash, whatever its anchor |
| `Annotator.UniqueId` | content.js:63-64 | the id is `addr_info_` followed by non-empty base-36 text whose value is the absolute value of the address's rolling hash |
| `Annotator.Document.AppendLoadingIndicator` | content.js:61-80 | a new node with the loading text, placed after the address's element, unless the id already has a node |
| `Annotator.Document.AppendResultsToPage` | content.js:252-285 | the node for the id ends up holding exactly the rendered result, at its old place or after the address's element |
| `Annotator.LoadingSpec` | content.js:66-79 | the loading indicator never overwrites: existing nodes are unchanged and only the address's node may be added |
| `Annotator.ResultsSpec` | content.js:257-284 | the results touch only the address's node, which holds the rendered text and keeps its place |
| `Annotator.Idempotent` | content.js:66-79 | calling either operation twice gives the same nodes as calling it once: no second node |
| `Annotator.ResultsReplaceLoading` | content.js:269-270 | results shown after the loading indicator leave no trace of it |
| `Annotator.TravelLinesEnd` | content.js:273-280 | the travel lines are empty or end with a line break |
| `Annotator.GlyphSpec` | content.js:282-284 | the node ends with 🛜 exactly when the lookup succeeded with status "available", and with 📵 exactly when it succeeded with another non-empty status; otherwise only travel lines |
| `Annotator.LineOrder` | content.js:273-280 | the walking line comes first when present, and the biking line directly after it |
| `Annotator.OnlyWalkingAndBikingShown` | content.js:273-284 | two results that agree on the FTTH part and on the presence and durations of the walking and biking legs render the same text, so distances and other legs are never shown |
| `Annotator.DrivingNotShown` | content.js:273-280 | removing the driving leg does not change the rendered text |
| `ResultCache.Storage.SetItem` | content.js:239-242 | `setItem` replaces the value of that key only |
| `ResultCache.Storage.RemoveItem` | content.js:210 | `removeItem` drops that key only |
| `ResultCache.SendAddressToServer` | content.js:193-250 | result, new store and new nodes are those of the cache decision and the fetch outcome |
| `ResultCache.ProcessAddresses` | content.js:34-59 | the addresses looked up are the complete ones of the extracted list, in order, and the final store and nodes are those of visiting each complete address in turn |
| `ResultCache.CacheHit` | content.js:198-208 | an entry is served exactly when it parsed, is younger than seven days (strict) and records a truthy `IsSuccessful`; then the store is unchanged and the network reply makes no difference |
| `ResultCache.FreshnessBoundary` | content.js:202 | an entry written at t is served at t + 604800000 − 1 and removed at t + 604800000 |
| `ResultCache.UnusableEntryRemoved` | content.js:209-215 | a stale, incomplete or unparsable non-empty entry is removed unless a new entry is written |
| `ResultCache.FailureWritesNothing` | content.js:231-249 | a failed request resolves to null, adds nothing to the store and leaves the nodes unchanged |
| `ResultCache.SuccessWritesEntry` | content.js:235-246 | an ok response is stored with its timestamp whether or not FTTH succeeded, is returned, and is shown |
| `ResultCache.OtherKeysUnchanged` | content.js:193-250 | keys other than the address's own are never touched |
| `ResultCache.WriteThenRead` | content.js:199-205 | what a successful lookup stores is served later exactly while it is fresh and records a successful FTTH lookup, and it is the same data |
| `ResultCache.CompleteUpToSpec` | content.js:42-43 | the lookups are exactly the addresses with city, street and house number all non-empty |
| `ResultCache.VisitKeepsNode` | content.js:45-47 | one visit keeps every node and gives a complete address its node |
| `ResultCache.NodeStays` | content.js:42-55 | a node present before the pass is still present after any prefix of it |
| `ResultCache.VisitedHasNode` | content.js:42-55 | after visiting a prefix of the addresses, every complete address in it has a node |
| `ResultCache.CompleteIsSpaced` | content.js:143-176 | a complete address of the page was read from a heading whose trimmed text holds a space |
| `ResultCache.NoSpaceNeverSent` | content.js:42-43 | an address is looked up only if its heading's trimmed text holds a space |
| `Server.Database.constructor` | server.py:19-42 | a fresh database has both tables empty |
| `Server.Database.GetCachedFtth` | server.py:50-60 | the stored result for the key while it is younger than the expiry, otherwise None |
| `Server.Database.CacheFtthResult` | server.py:63-73 | INSERT OR REPLACE: exactly the row for the key is set to the result and the time; all other rows are unchanged |
| `Server.Database.GetCachedTravelTime` | server.py:81-90 | the stored distance and duration for the key, however old |
| `Server.Database.CacheTravelTime` | server.py:93-106 | INSERT OR REPLACE of the row for the key, with both route texts and the mode; all other rows are unchanged |
| `Server.Database.CheckFtthAvailability` | server.py:118-151 | answer and FTTH table as the cache-then-provider rule gives them; the travel table is untouched |
| `Server.Database.GetTravelTime` | server.py:155-194 | answer and travel table as the cache-then-service rule gives them; the FTTH table is untouched |
| `Server.Database.GetTravelTimes` | server.py:199-221 | answer and travel table are those of the three lookups in order |
| `Server.Database.ProcessAddress` | server.py:224-234 | the reply is the one the endpoint's rule gives; an invalid request changes no table; a valid one updates each table as its lookup does |
| `Server.StatusLabelSpec` | server.py:133-138 | 1 (or true) maps to "available", 3 to "unavailable", any other value v to "unknown " + str(v) |
| `Server.DigitTextDigits` | server.py:138 | `str` of a non-negative number writes decimal digits without a leading zero, and they read back as the number |
| `Server.FtthCacheRoundTrip` | server.py:57-73 | a stored FTTH result is read back while younger than the expiry and not after: served one millisecond before the expiry, not at it |
| `Server.FtthHitMakesNoCall` | server.py:119-125 | on a fresh row there is no call: the reply makes no difference and the table is unchanged |
| `Server.FtthFetchSpec` | server.py:128-151 | without a fresh row, status 200 is mapped, stored and returned; any other status gives None and writes nothing |
| `Server.FtthOtherRowsUnchanged` | server.py:63-73 | the lookup touches only its own row, and a None or raised answer writes nothing |
| `Server.TravelHitMakesNoCall` | server.py:157-161 | a stored leg is served however old, with no request and no write |
| `Server.TravelCacheRoundTrip` | server.py:81-106 | a written leg is the one read back, and other keys read as before |
| `Server.FetchLegSpec` | server.py:173-194 | a leg is returned and stored exactly when the reply has status 200, status "OK" and both texts; otherwise the table is unchanged |
| `Server.TravelTimesSpec` | server.py:199-209 | no API key means None and no lookups; otherwise only the keys walking, driving and biking occur, and walking is present exactly when its lookup returned a leg |
| `Server.TravelTimesLater` | server.py:211-221 | driving and biking are present exactly when their lookups returned a leg, each looked up on the table the earlier lookups left |
| `Server.ProcessReplySpec` | server.py:224-234 | 400 with "Invalid address data" exactly when the body is missing or lacks a field; a 200 reply holds the FTTH answer for the address and the legs from it to the office |
| `Server.FtthKeyTextInjective` | server.py:45-47 | distinct addresses have distinct FTTH key texts when city and street hold no vertical bar |
| `Server.PlaceTextInjective` | server.py:77 | a place text holds no vertical bar and determines the place when no field holds "-" |
| `Server.TravelKeyTextInjective` | server.py:76-78 | distinct routes or modes have distinct travel key texts when no field holds "-" or a vertical bar |
| `EndToEnd.ClientRequestsAreValid` | content.js:220-228 | the body the script posts always passes the server's check, and names the extracted address |
| `EndToEnd.ClientKeepsServerResult` | content.js:231-246 | the script stores and shows a reply exactly when the server answered 200, and it stores that reply's result |

## Left out

- **Logging:** the `log` function and the server's `print` calls write to the console and change nothing.
- **Scheduling:** the MutationObserver, the timers and the `DOMContentLoaded` wiring are event-loop plumbing.
- ResultCache.ProcessAddresses: the model finishes each lookup before it visits the next address. In the source, `sendAddressToServer` runs synchronously up to its `await fetch`. So in one pass the loading indicator and the cache check run for every address before any fetch resolves, and the writes then land in the order the responses arrive. What the model loses as a result:
  - Two addresses with the same hash are both fetched in the source. In the model, the second visit can be served from the entry the first visit wrote.
  - The order in which the store writes and node updates of overlapping fetches land is not captured.
  - Each `sendAddressToServer` call reads `Date.now()` itself for its freshness check. The model gives every address of one pass the same reading `now`, so it does not capture an entry that expires between two addresses of the same pass.
- **DOM:** selector queries, CSS styling and `insertAdjacentElement` are reduced to the texts read and the id→node map.
- Annotator.Document.AppendResultsToPage: inner HTML is treated as plain text. `innerHTML +=` parses and re-serialises the markup, so a duration holding `&` or `<` would read back escaped; the model joins the texts as they are.
- **Heading structure:** a heading without a parent element, where `heading.parentElement.parentElement` throws, is not modelled. A heading with a parent but no grandparent is skipped, because `?.` yields undefined; that is the model's `infoLine == None`.
- **Address fields:** splitting always yields strings, so the hash's `|| ""` fallback is never taken and is not modelled.
- **Plumbing:**
  - Flask routing, CORS and the sqlite connection lifecycle are not modelled.
  - `fetch` and `requests` are reduced to the reply each receives.
  - The `.key` file is reduced to its stripped contents: `apiKey` is None when the file is missing. An error other than file-not-found, which would raise, is not modelled.
- **API key use:** the key is only tested for presence, because the reply parameters stand for what the service answers.
- **JSON:**
  - JSON text is modelled by the value it parses to. Encoding and then decoding is taken to give the value back.
  - Text in `localStorage` that does not parse to an object is one opaque case.
  - A timestamp that is not a number is not modelled.
  - A response body that is JSON but not an object, such as `null`, is not modelled.
  - A request body that is not an object, or that is not JSON, is not modelled.
  - Request fields that are not strings are not modelled.
  - Provider fields that are lists, objects or floating-point numbers are not modelled.
  - A Google `distance`/`duration` that is not an object is not modelled.
- **Google reply structure:** only whether the reply holds distance and duration texts, or which lookup error occurs, is modelled.
- **SHA-256:** modelled as an unspecified function. The key-text lemmas show when distinct addresses give distinct key texts. A digest collision is not modelled.
- **Character handling:**
  - `toLowerCase` is folded for ASCII letters only; Unicode case tables are not modelled.
  - `trim` uses the fixed ECMAScript white-space set.
- **Storage failures:** exceptions from `localStorage.setItem` (for example over quota) and from rendering are not modelled.
- Server.StatusLabelSpec: floating-point statuses (`1.0` equals `1` in Python) are not modelled, because `Scalar` has no floats.
