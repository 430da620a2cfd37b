/** The lookup server (server.py): the `/process_address` endpoint checks
    the request, asks the FTTH provider about the address (through the
    `ftth_cache` table, 14-day expiry) and asks the distance service for
    the walking, driving and cycling legs to the office (through the
    `travel_cache` table, which never expires). Both sqlite tables are maps
    from the row id to the row; the row id is the SHA-256 digest of a key
    text, and the digest is a function fixed when the database is opened.
    The clock, the `.key` file and the two remote services are parameters:
    each request to a service is replaced by the reply it gets. */
module Server {
  import opened Wrappers
  import opened Protocol

  /** Fourteen days in milliseconds. */
  const FtthTtlMs: int := 14 * 24 * 60 * 60 * 1000

  /** An address as the server reads it from the request body. */
  datatype Place = Place(city: string, street: string, houseNum: string)

  /** The fixed destination of every travel lookup. */
  const Office: Place := Place("הרצליה", "משכית", "12")

  /** `generate_ftth_cache_key`, before hashing: `city|street|house_num`. */
  function FtthKeyText(city: string, street: string, houseNum: string): string {
    city + "|" + street + "|" + houseNum
  }

  /** `city-street-houseNum`, one side of the travel key text. */
  function PlaceText(p: Place): string {
    p.city + "-" + p.street + "-" + p.houseNum
  }

  /** `generate_travel_cache_key`, before hashing. */
  function TravelKeyText(origin: Place, destination: Place, mode: string): string {
    PlaceText(origin) + "|" + PlaceText(destination) + "|" + mode
  }

  /** `street houseNum, city`: how a place is named to the distance service
      and in the `origin`/`destination` columns. */
  function RouteText(p: Place): string {
    p.street + " " + p.houseNum + ", " + p.city
  }

  /** A row of `ftth_cache`: the stored result and when it was stored. */
  datatype FtthRow = FtthRow(data: FtthResult, timestamp: int)

  /** A row of `travel_cache`. */
  datatype TravelRow = TravelRow(origin: string, destination: string, mode: string, distance: string, duration: string)

  /** A call that returns a value or raises; an exception that escapes
      the endpoint ends the request with status 500. */
  datatype Outcome<T> = Returned(value: T) | Raised

  // ----------------------------------------------------- status mapping

  function DigitText(n: nat): string
    decreases n
  {
    if n < 10 then [('0' as int + n) as char] else DigitText(n / 10) + [('0' as int + n % 10) as char]
  }

  /** Python's `str` of a decoded JSON scalar. */
  function PyStr(v: Scalar): string {
    match v
    case Null => "None"
    case Bool(b) => if b then "True" else "False"
    case Num(n) => if n < 0 then "-" + DigitText(-n) else DigitText(n)
    case Str(s) => s
  }

  /** `status_mapping.get(status, f"unknown {status}")`. Python compares
      `True` equal to `1`, so a `true` status finds the entry for 1. */
  function StatusLabel(v: Scalar): string {
    match v
    case Num(n) =>
      if n == 1 then "available" else if n == 3 then "unavailable" else "unknown " + PyStr(v)
    case Bool(b) => if b then "available" else "unknown " + PyStr(v)
    case _ => "unknown " + PyStr(v)
  }

  /** `data.get(key)`: a missing key reads as None. */
  function Field(body: map<string, Scalar>, key: string): Scalar {
    if key in body then body[key] else Null
  }

  /** The result dictionary built from the provider's reply. */
  function FtthFromBody(body: map<string, Scalar>): FtthResult {
    FtthResult(StatusLabel(Field(body, "Status")), Field(body, "CityId"), Field(body, "StreetId"),
               Field(body, "ErrorCode"), Field(body, "ErrorMessage"), Field(body, "IsSuccessful"))
  }

  // ------------------------------------------------------ the FTTH table

  /** What `get_cached_ftth` returns: the stored result while it is
      younger than `ttlMs`. */
  function CachedFtth(table: map<string, FtthRow>, key: string, ttlMs: int, now: int): Option<FtthResult> {
    if key in table && now - table[key].timestamp < ttlMs then Some(table[key].data) else None
  }

  /** The provider's answer to the POST: no answer (`requests.post`
      raises), or a status code and the decoded JSON object (None when
      `response.json()` raises). */
  datatype FtthReply =
    | FtthUnreachable
    | FtthResponse(statusCode: int, body: Option<map<string, Scalar>>)

  /** What `check_ftth_availability` returns. */
  function FtthAnswer(table: map<string, FtthRow>, key: string, now: int, reply: FtthReply): Outcome<Option<FtthResult>> {
    var cached := CachedFtth(table, key, FtthTtlMs, now);
    if cached.Some? then Returned(cached)
    else match reply
      case FtthUnreachable => Raised
      case FtthResponse(code, body) =>
        if code != 200 then Returned(None)
        else if body.None? then Raised
        else Returned(Some(FtthFromBody(body.value)))
  }

  /** The `ftth_cache` table after `check_ftth_availability`: a result
      fetched from the provider is stored with the time of storing. */
  function FtthTableAfter(table: map<string, FtthRow>, key: string, now: int, reply: FtthReply, storedAt: int): map<string, FtthRow> {
    var answer := FtthAnswer(table, key, now, reply);
    if CachedFtth(table, key, FtthTtlMs, now).None? && answer.Returned? && answer.value.Some?
    then table[key := FtthRow(answer.value.value, storedAt)]
    else table
  }

  // ---------------------------------------------------- the travel table

  /** What `get_cached_travel_time` returns: any stored row, however old. */
  function CachedTravel(table: map<string, TravelRow>, key: string): Option<Leg> {
    if key in table then Some(Leg(table[key].distance, table[key].duration)) else None
  }

  /** The way from the decoded reply to `rows[0]["elements"][0]`: a
      missing key (KeyError, caught), a missing index or a value of the
      wrong kind (IndexError or TypeError, not caught), or the element
      with the `text` of its `distance` and `duration` when present. */
  datatype ElementPath =
    | KeyMissing
    | IndexMissing
    | Found(distance: Option<string>, duration: Option<string>)

  /** The decoded reply: its `status` (None when the key is missing) and
      the way to the first element. */
  datatype MapsBody = MapsBody(status: Option<Scalar>, element: ElementPath)

  /** The distance service's answer to the GET. */
  datatype MapsReply =
    | MapsUnreachable
    | MapsResponse(statusCode: int, body: Option<MapsBody>)

  /** What `get_travel_time` makes of a reply when nothing is cached. */
  function FetchLeg(reply: MapsReply): Outcome<Option<Leg>> {
    match reply
    case MapsUnreachable => Raised
    case MapsResponse(code, body) =>
      if code != 200 then Returned(None)
      else if body.None? then Raised
      else if body.value.status.None? then Raised
      else if body.value.status.value != Str("OK") then Returned(None)
      else match body.value.element
        case KeyMissing => Returned(None)
        case IndexMissing => Raised
        case Found(distance, duration) =>
          if distance.Some? && duration.Some? then Returned(Some(Leg(distance.value, duration.value)))
          else Returned(None)
  }

  /** What `get_travel_time` returns. */
  function LegAnswer(table: map<string, TravelRow>, key: string, reply: MapsReply): Outcome<Option<Leg>> {
    var cached := CachedTravel(table, key);
    if cached.Some? then Returned(cached) else FetchLeg(reply)
  }

  /** The row `cache_travel_time` writes for a fetched leg. */
  function RowFor(origin: Place, destination: Place, mode: string, leg: Leg): TravelRow {
    TravelRow(RouteText(origin), RouteText(destination), mode, leg.distance, leg.duration)
  }

  /** The `travel_cache` table after `get_travel_time`. */
  function LegTableAfter(table: map<string, TravelRow>, key: string, origin: Place, destination: Place, mode: string, reply: MapsReply): map<string, TravelRow> {
    var fetched := FetchLeg(reply);
    if CachedTravel(table, key).None? && fetched.Returned? && fetched.value.Some?
    then table[key := RowFor(origin, destination, mode, fetched.value.value)]
    else table
  }

  /** `if data: travel_times[name] = data`. */
  function Include(times: map<string, Leg>, name: string, leg: Option<Leg>): map<string, Leg> {
    if leg.Some? then times[name := leg.value] else times
  }

  /** The three lookups of `get_travel_times` in order, each on the table
      the previous one left: the answer (an exception in one lookup ends
      the request) and the table afterwards. The cycling leg is looked up
      with mode "bicycling" and reported as "biking". */
  function TravelTimes(digest: string -> string, table: map<string, TravelRow>, origin: Place, destination: Place,
                       apiKey: Option<string>, maps: string -> MapsReply): (Outcome<Option<map<string, Leg>>>, map<string, TravelRow>)
  {
    if apiKey.None? || apiKey.value == "" then (Returned(None), table)
    else
      var kw := digest(TravelKeyText(origin, destination, "walking"));
      var kd := digest(TravelKeyText(origin, destination, "driving"));
      var kb := digest(TravelKeyText(origin, destination, "bicycling"));
      var w := LegAnswer(table, kw, maps("walking"));
      var t1 := LegTableAfter(table, kw, origin, destination, "walking", maps("walking"));
      if w.Raised? then (Raised, t1) else
      var d := LegAnswer(t1, kd, maps("driving"));
      var t2 := LegTableAfter(t1, kd, origin, destination, "driving", maps("driving"));
      if d.Raised? then (Raised, t2) else
      var b := LegAnswer(t2, kb, maps("bicycling"));
      var t3 := LegTableAfter(t2, kb, origin, destination, "bicycling", maps("bicycling"));
      if b.Raised? then (Raised, t3) else
      (Returned(Some(Include(Include(Include(map[], "walking", w.value), "driving", d.value), "biking", b.value))), t3)
  }

  // -------------------------------------------------------- the endpoint

  /** The endpoint's answer: the JSON result with status 200, the error
      object with status 400, or status 500 after an exception. */
  datatype Reply = Ok(result: LookupResult) | BadRequest(error: string) | ServerError

  function HttpStatus(reply: Reply): int {
    match reply
    case Ok(_) => 200
    case BadRequest(_) => 400
    case ServerError => 500
  }

  /** `not data or "city" not in data or ...`, negated. */
  predicate ValidRequest(request: Option<map<string, string>>) {
    request.Some? && request.value != map[]
    && "city" in request.value && "street" in request.value && "houseNum" in request.value
  }

  function PlaceOf(request: map<string, string>): Place
    requires "city" in request && "street" in request && "houseNum" in request
  {
    Place(request["city"], request["street"], request["houseNum"])
  }

  /** `process_address`: the reply. */
  function ProcessReply(digest: string -> string, ftthTable: map<string, FtthRow>, travelTable: map<string, TravelRow>,
                        request: Option<map<string, string>>, now: int, ftthReply: FtthReply,
                        apiKey: Option<string>, maps: string -> MapsReply): Reply
  {
    if !ValidRequest(request) then BadRequest("Invalid address data")
    else
      var p := PlaceOf(request.value);
      var ftth := FtthAnswer(ftthTable, digest(FtthKeyText(p.city, p.street, p.houseNum)), now, ftthReply);
      if ftth.Raised? then ServerError
      else
        var travel := TravelTimes(digest, travelTable, p, Office, apiKey, maps).0;
        if travel.Raised? then ServerError
        else Ok(LookupResult(ftth.value, travel.value))
  }

  class Database {
    /** SHA-256 of the key text, as hex. */
    const digest: string -> string
    var ftthCache: map<string, FtthRow>
    var travelCache: map<string, TravelRow>

    /** `init_db` on a fresh file: both tables empty. */
    constructor (digest: string -> string)
      ensures this.digest == digest && ftthCache == map[] && travelCache == map[]
    {
      this.digest := digest;
      ftthCache := map[];
      travelCache := map[];
    }

    /** `get_cached_ftth`, with `now` the clock reading in milliseconds. */
    method GetCachedFtth(city: string, street: string, houseNum: string, ttlMs: int, now: int)
      returns (r: Option<FtthResult>)
      ensures r == CachedFtth(ftthCache, digest(FtthKeyText(city, street, houseNum)), ttlMs, now)
    {
      var key := digest(FtthKeyText(city, street, houseNum));
      r := None;
      if key in ftthCache {
        var row := ftthCache[key];
        if now - row.timestamp < ttlMs {
          r := Some(row.data);
        }
      }
    }

    /** `cache_ftth_result`: INSERT OR REPLACE of the row for the key. */
    method CacheFtthResult(city: string, street: string, houseNum: string, result: FtthResult, now: int)
      modifies this
      ensures ftthCache == old(ftthCache)[digest(FtthKeyText(city, street, houseNum)) := FtthRow(result, now)]
      ensures travelCache == old(travelCache)
    {
      var key := digest(FtthKeyText(city, street, houseNum));
      ftthCache := ftthCache[key := FtthRow(result, now)];
    }

    /** `get_cached_travel_time`. */
    method GetCachedTravelTime(origin: Place, destination: Place, mode: string) returns (r: Option<Leg>)
      ensures r == CachedTravel(travelCache, digest(TravelKeyText(origin, destination, mode)))
    {
      var key := digest(TravelKeyText(origin, destination, mode));
      r := None;
      if key in travelCache {
        var row := travelCache[key];
        r := Some(Leg(row.distance, row.duration));
      }
    }

    /** `cache_travel_time`: INSERT OR REPLACE of the row for the key. */
    method CacheTravelTime(origin: Place, destination: Place, mode: string, distance: string, duration: string)
      modifies this
      ensures travelCache == old(travelCache)[digest(TravelKeyText(origin, destination, mode)) :=
        TravelRow(RouteText(origin), RouteText(destination), mode, distance, duration)]
      ensures ftthCache == old(ftthCache)
    {
      var key := digest(TravelKeyText(origin, destination, mode));
      travelCache := travelCache[key := TravelRow(RouteText(origin), RouteText(destination), mode, distance, duration)];
    }

    /** `check_ftth_availability`: the cache first, then the provider; a
        reply with status 200 is mapped, stored at `storedAt` and returned,
        any other status gives None. */
    method CheckFtthAvailability(city: string, street: string, houseNum: string, now: int, reply: FtthReply, storedAt: int)
      returns (r: Outcome<Option<FtthResult>>)
      modifies this
      ensures r == FtthAnswer(old(ftthCache), digest(FtthKeyText(city, street, houseNum)), now, reply)
      ensures ftthCache == FtthTableAfter(old(ftthCache), digest(FtthKeyText(city, street, houseNum)), now, reply, storedAt)
      ensures travelCache == old(travelCache)
    {
      var cached := GetCachedFtth(city, street, houseNum, FtthTtlMs, now);
      if cached.Some? {
        return Returned(cached);
      }
      match reply
      case FtthUnreachable =>
        r := Raised;
      case FtthResponse(code, body) =>
        if code != 200 {
          r := Returned(None);
        } else if body.None? {
          r := Raised;
        } else {
          var data := body.value;
          var status := StatusLabel(Field(data, "Status"));
          var result := FtthResult(status, Field(data, "CityId"), Field(data, "StreetId"),
                                   Field(data, "ErrorCode"), Field(data, "ErrorMessage"), Field(data, "IsSuccessful"));
          CacheFtthResult(city, street, houseNum, result, storedAt);
          r := Returned(Some(result));
        }
    }

    /** `get_travel_time`: the cache first, then the distance service; the
        leg is stored and returned when the reply has both texts. */
    method GetTravelTime(origin: Place, destination: Place, mode: string, reply: MapsReply)
      returns (r: Outcome<Option<Leg>>)
      modifies this
      ensures r == LegAnswer(old(travelCache), digest(TravelKeyText(origin, destination, mode)), reply)
      ensures travelCache == LegTableAfter(old(travelCache), digest(TravelKeyText(origin, destination, mode)), origin, destination, mode, reply)
      ensures ftthCache == old(ftthCache)
    {
      var cached := GetCachedTravelTime(origin, destination, mode);
      if cached.Some? {
        return Returned(cached);
      }
      if reply.MapsUnreachable? {
        return Raised;
      }
      if reply.statusCode != 200 {
        return Returned(None);
      }
      if reply.body.None? {
        return Raised;
      }
      var data := reply.body.value;
      if data.status.None? {
        return Raised;
      }
      if data.status.value != Str("OK") {
        return Returned(None);
      }
      match data.element
      case KeyMissing =>
        r := Returned(None);
      case IndexMissing =>
        r := Raised;
      case Found(distance, duration) =>
        if distance.None? || duration.None? {
          r := Returned(None);
        } else {
          CacheTravelTime(origin, destination, mode, distance.value, duration.value);
          r := Returned(Some(Leg(distance.value, duration.value)));
        }
    }

    /** `get_travel_times`: no key, no lookups; otherwise the dictionary
        is filled with the legs that came back. */
    method GetTravelTimes(origin: Place, destination: Place, apiKey: Option<string>, maps: string -> MapsReply)
      returns (r: Outcome<Option<map<string, Leg>>>)
      modifies this
      ensures (r, travelCache) == TravelTimes(digest, old(travelCache), origin, destination, apiKey, maps)
      ensures ftthCache == old(ftthCache)
    {
      if apiKey.None? || apiKey.value == "" {
        return Returned(None);
      }
      var travelTimes: map<string, Leg> := map[];
      var walking := GetTravelTime(origin, destination, "walking", maps("walking"));
      if walking.Raised? {
        return Raised;
      }
      if walking.value.Some? {
        travelTimes := travelTimes["walking" := walking.value.value];
      }
      var driving := GetTravelTime(origin, destination, "driving", maps("driving"));
      if driving.Raised? {
        return Raised;
      }
      if driving.value.Some? {
        travelTimes := travelTimes["driving" := driving.value.value];
      }
      var bicycling := GetTravelTime(origin, destination, "bicycling", maps("bicycling"));
      if bicycling.Raised? {
        return Raised;
      }
      if bicycling.value.Some? {
        travelTimes := travelTimes["biking" := bicycling.value.value];
      }
      r := Returned(Some(travelTimes));
    }

    /** `process_address`: reject a body without the three fields, then
        look up the FTTH status of the address and the legs from it to the
        office. */
    method ProcessAddress(request: Option<map<string, string>>, now: int, ftthReply: FtthReply, storedAt: int,
                          apiKey: Option<string>, maps: string -> MapsReply)
      returns (reply: Reply)
      modifies this
      ensures reply == ProcessReply(digest, old(ftthCache), old(travelCache), request, now, ftthReply, apiKey, maps)
      ensures !ValidRequest(request) ==> ftthCache == old(ftthCache) && travelCache == old(travelCache)
      ensures ValidRequest(request) ==>
        var p := PlaceOf(request.value);
        ftthCache == FtthTableAfter(old(ftthCache), digest(FtthKeyText(p.city, p.street, p.houseNum)), now, ftthReply, storedAt)
    ensures ValidRequest(request) ==>
      var p := PlaceOf(request.value);
      var ftth := FtthAnswer(old(ftthCache), digest(FtthKeyText(p.city, p.street, p.houseNum)), now, ftthReply);
      travelCache == if ftth.Raised? then old(travelCache) else TravelTimes(digest, old(travelCache), p, Office, apiKey, maps).1
    {
      if request.None? || request.value == map[] || "city" !in request.value || "street" !in request.value || "houseNum" !in request.value {
        return BadRequest("Invalid address data");
      }
      var data := request.value;
      var ftth := CheckFtthAvailability(data["city"], data["street"], data["houseNum"], now, ftthReply, storedAt);
      if ftth.Raised? {
        return ServerError;
      }
      var travel := GetTravelTimes(Place(data["city"], data["street"], data["houseNum"]), Office, apiKey, maps);
      if travel.Raised? {
        return ServerError;
      }
      reply := Ok(LookupResult(ftth.value, travel.value));
    }
  }

  // ---------------------------------------------------------------- lemmas

  /** Status 1 (or `true`) reads "available", status 3 "unavailable", and
      every other value "unknown " followed by its Python text. */
  lemma StatusLabelSpec(v: Scalar)
    ensures StatusLabel(v) == "available" <==> v == Num(1) || v == Bool(true)
    ensures StatusLabel(v) == "unavailable" <==> v == Num(3)
    ensures v != Num(1) && v != Bool(true) && v != Num(3) ==> StatusLabel(v) == "unknown " + PyStr(v)
  {
    var u := "unknown " + PyStr(v);
    assert u[2] == 'k';
    assert "available"[2] == 'a' && "unavailable"[2] == 'a';
  }

  /** The number a text of decimal digits spells, read left to right. */
  function FromDecimal(s: string): int
    decreases |s|
  {
    if s == [] then 0 else FromDecimal(s[..|s| - 1]) * 10 + (s[|s| - 1] as int - '0' as int)
  }

  /** `DigitText` writes decimal digits only, with no leading zero, and
      they spell the number. */
  lemma {:induction false} DigitTextDigits(n: nat)
    ensures DigitText(n) != [] && forall i :: 0 <= i < |DigitText(n)| ==> '0' <= DigitText(n)[i] <= '9'
    ensures DigitText(n)[0] == '0' ==> n == 0
    ensures FromDecimal(DigitText(n)) == n
    decreases n
  {
    if n >= 10 {
      DigitTextDigits(n / 10);
      var front := DigitText(n / 10);
      var t := DigitText(n);
      assert t == front + [('0' as int + n % 10) as char];
      assert t[..|t| - 1] == front;
      assert t[0] == front[0];
    }
  }

  /** An FTTH row is served while it is younger than the expiry: one
      millisecond before it, not at it, and whatever the provider would
      have said. A result stored at `t` is the one read back. */
  lemma FtthCacheRoundTrip(table: map<string, FtthRow>, key: string, result: FtthResult, t: int, now: int, ttlMs: int)
    ensures CachedFtth(table[key := FtthRow(result, t)], key, ttlMs, now) == Some(result) <==> now - t < ttlMs
    ensures CachedFtth(table[key := FtthRow(result, t)], key, ttlMs, now) != Some(result) ==>
      CachedFtth(table[key := FtthRow(result, t)], key, ttlMs, now) == None
    ensures CachedFtth(table[key := FtthRow(result, t)], key, ttlMs, t + ttlMs - 1) == Some(result)
    ensures CachedFtth(table[key := FtthRow(result, t)], key, ttlMs, t + ttlMs) == None
  {
  }

  /** On a fresh FTTH row no request is made: the answer and the table do
      not depend on the provider's reply, and the table is unchanged. */
  lemma FtthHitMakesNoCall(table: map<string, FtthRow>, key: string, now: int, r1: FtthReply, r2: FtthReply, storedAt: int)
    requires CachedFtth(table, key, FtthTtlMs, now).Some?
    ensures FtthAnswer(table, key, now, r1) == FtthAnswer(table, key, now, r2) == Returned(CachedFtth(table, key, FtthTtlMs, now))
    ensures FtthTableAfter(table, key, now, r1, storedAt) == table
  {
  }

  /** Without a fresh row, a reply with status 200 is mapped, stored and
      returned; any other status gives None and writes nothing. */
  lemma FtthFetchSpec(table: map<string, FtthRow>, key: string, now: int, reply: FtthReply, storedAt: int)
    requires CachedFtth(table, key, FtthTtlMs, now).None?
    requires reply.FtthResponse?
    ensures reply.statusCode != 200 ==>
      FtthAnswer(table, key, now, reply) == Returned(None) && FtthTableAfter(table, key, now, reply, storedAt) == table
    ensures reply.statusCode == 200 && reply.body.Some? ==>
      var result := FtthFromBody(reply.body.value);
      && FtthAnswer(table, key, now, reply) == Returned(Some(result))
      && FtthTableAfter(table, key, now, reply, storedAt) == table[key := FtthRow(result, storedAt)]
      && result.status == StatusLabel(Field(reply.body.value, "Status"))
  {
  }

  /** Writing the FTTH table touches only the row for the key, and a
      failed or raising lookup writes nothing. */
  lemma FtthOtherRowsUnchanged(table: map<string, FtthRow>, key: string, now: int, reply: FtthReply, storedAt: int, k: string)
    ensures k != key ==>
      (k in FtthTableAfter(table, key, now, reply, storedAt) <==> k in table)
      && (k in table ==> FtthTableAfter(table, key, now, reply, storedAt)[k] == table[k])
    ensures FtthAnswer(table, key, now, reply) != Returned(None) || FtthTableAfter(table, key, now, reply, storedAt) == table
    ensures FtthAnswer(table, key, now, reply).Raised? ==> FtthTableAfter(table, key, now, reply, storedAt) == table
  {
  }

  /** The travel table never expires: a stored leg is served, however old,
      without a request and without writing. */
  lemma TravelHitMakesNoCall(table: map<string, TravelRow>, key: string, origin: Place, destination: Place, mode: string, r1: MapsReply, r2: MapsReply)
    requires key in table
    ensures LegAnswer(table, key, r1) == LegAnswer(table, key, r2) == Returned(Some(Leg(table[key].distance, table[key].duration)))
    ensures LegTableAfter(table, key, origin, destination, mode, r1) == table
  {
  }

  /** A travel leg written to the table is the one read back. */
  lemma TravelCacheRoundTrip(table: map<string, TravelRow>, key: string, origin: Place, destination: Place, mode: string, leg: Leg)
    ensures CachedTravel(table[key := RowFor(origin, destination, mode, leg)], key) == Some(leg)
    ensures forall k :: k != key ==> CachedTravel(table[key := RowFor(origin, destination, mode, leg)], k) == CachedTravel(table, k)
  {
  }

  /** A fetched leg is returned and stored exactly when the reply has status
      200, status "OK" and both texts: a status other than 200, a status
      other than "OK" or a missing key gives None, and none of these writes
      to the table. */
  lemma FetchLegSpec(table: map<string, TravelRow>, key: string, origin: Place, destination: Place, mode: string, reply: MapsReply)
    requires key !in table
    ensures FetchLeg(reply).Returned? && FetchLeg(reply).value.Some? <==>
      && reply.MapsResponse? && reply.statusCode == 200 && reply.body.Some?
      && reply.body.value.status == Some(Str("OK"))
      && reply.body.value.element.Found? && reply.body.value.element.distance.Some? && reply.body.value.element.duration.Some?
    ensures FetchLeg(reply).Returned? && FetchLeg(reply).value.Some? ==>
      var leg := FetchLeg(reply).value.value;
      && leg == Leg(reply.body.value.element.distance.value, reply.body.value.element.duration.value)
      && LegTableAfter(table, key, origin, destination, mode, reply) == table[key := RowFor(origin, destination, mode, leg)]
    ensures !(FetchLeg(reply).Returned? && FetchLeg(reply).value.Some?) ==>
      LegTableAfter(table, key, origin, destination, mode, reply) == table
  {
  }

  /** Without an API key there are no lookups. With one, the answer (when
      no lookup raised) holds only the keys walking, driving and biking,
      each exactly when its lookup returned a leg, and holding that leg. */
  lemma TravelTimesSpec(digest: string -> string, table: map<string, TravelRow>, origin: Place, destination: Place,
                        apiKey: Option<string>, maps: string -> MapsReply)
    ensures apiKey.None? || apiKey.value == "" ==>
      TravelTimes(digest, table, origin, destination, apiKey, maps) == (Returned(None), table)
    ensures var (answer, _) := TravelTimes(digest, table, origin, destination, apiKey, maps);
      answer.Returned? && answer.value.Some? ==> answer.value.value.Keys <= {"walking", "driving", "biking"}
    ensures apiKey.Some? && apiKey.value != "" ==>
      var kw := digest(TravelKeyText(origin, destination, "walking"));
      var w := LegAnswer(table, kw, maps("walking"));
      var (answer, _) := TravelTimes(digest, table, origin, destination, apiKey, maps);
      answer.Returned? ==>
        && answer.value.Some?
        && ("walking" in answer.value.value <==> w.value.Some?)
        && ("walking" in answer.value.value ==> answer.value.value["walking"] == w.value.value)
  {
  }

  /** The driving and cycling entries, each against the table the
      previous lookups left. */
  lemma TravelTimesLater(digest: string -> string, table: map<string, TravelRow>, origin: Place, destination: Place,
                         apiKey: Option<string>, maps: string -> MapsReply)
    requires apiKey.Some? && apiKey.value != ""
    ensures
      var kw := digest(TravelKeyText(origin, destination, "walking"));
      var kd := digest(TravelKeyText(origin, destination, "driving"));
      var kb := digest(TravelKeyText(origin, destination, "bicycling"));
      var t1 := LegTableAfter(table, kw, origin, destination, "walking", maps("walking"));
      var t2 := LegTableAfter(t1, kd, origin, destination, "driving", maps("driving"));
      var d := LegAnswer(t1, kd, maps("driving"));
      var b := LegAnswer(t2, kb, maps("bicycling"));
      var (answer, _) := TravelTimes(digest, table, origin, destination, apiKey, maps);
      answer.Returned? ==>
        && ("driving" in answer.value.value <==> d.value.Some?)
        && ("driving" in answer.value.value ==> answer.value.value["driving"] == d.value.value)
        && ("biking" in answer.value.value <==> b.value.Some?)
        && ("biking" in answer.value.value ==> answer.value.value["biking"] == b.value.value)
  {
  }

  /** A body without the three fields gets status 400 and the error
      text; a valid one is answered with status 200 unless a lookup raised,
      and the answer holds the FTTH result for the address and the legs
      from the address to the office. */
  lemma ProcessReplySpec(digest: string -> string, ftthTable: map<string, FtthRow>, travelTable: map<string, TravelRow>,
                         request: Option<map<string, string>>, now: int, ftthReply: FtthReply,
                         apiKey: Option<string>, maps: string -> MapsReply)
    ensures var reply := ProcessReply(digest, ftthTable, travelTable, request, now, ftthReply, apiKey, maps);
      reply.BadRequest? <==> !ValidRequest(request)
    ensures var reply := ProcessReply(digest, ftthTable, travelTable, request, now, ftthReply, apiKey, maps);
      reply.BadRequest? ==> reply.error == "Invalid address data" && HttpStatus(reply) == 400
    ensures var reply := ProcessReply(digest, ftthTable, travelTable, request, now, ftthReply, apiKey, maps);
      reply.Ok? ==>
        var p := PlaceOf(request.value);
        && Returned(reply.result.ftth) == FtthAnswer(ftthTable, digest(FtthKeyText(p.city, p.street, p.houseNum)), now, ftthReply)
        && Returned(reply.result.travelTimes) == TravelTimes(digest, travelTable, p, Office, apiKey, maps).0
  {
  }

  /** The first separator in `a + [sep] + x` is the one after `a`. */
  lemma FirstSeparator(a: string, x: string, sep: char)
    requires sep !in a
    ensures (a + [sep] + x)[|a|] == sep
    ensures forall k :: 0 <= k < |a| ==> (a + [sep] + x)[k] != sep
  {
    forall k | 0 <= k < |a|
      ensures (a + [sep] + x)[k] != sep
    {
      assert (a + [sep] + x)[k] == a[k];
    }
  }

  /** Text before the first separator is determined when neither side
      contains the separator. */
  lemma FirstFieldDetermined(a: string, x: string, b: string, y: string, sep: char)
    requires sep !in a && sep !in b
    requires a + [sep] + x == b + [sep] + y
    ensures a == b && x == y
  {
    var l := a + [sep] + x;
    var r := b + [sep] + y;
    FirstSeparator(a, x, sep);
    FirstSeparator(b, y, sep);
    assert a == l[..|a|];
    assert b == r[..|b|];
    assert x == l[|a| + 1..];
    assert y == r[|b| + 1..];
  }

  /** Three fields joined by a separator that the first two do not hold
      can be read back. */
  lemma ThreeFieldsDetermined(a: string, b: string, c: string, x: string, y: string, z: string, sep: char)
    requires sep !in a && sep !in b && sep !in x && sep !in y
    requires a + [sep] + b + [sep] + c == x + [sep] + y + [sep] + z
    ensures a == x && b == y && c == z
  {
    assert a + [sep] + b + [sep] + c == a + [sep] + (b + [sep] + c);
    assert x + [sep] + y + [sep] + z == x + [sep] + (y + [sep] + z);
    FirstFieldDetermined(a, b + [sep] + c, x, y + [sep] + z, sep);
    FirstFieldDetermined(b, c, y, z, sep);
  }

  /** Distinct addresses get distinct FTTH key texts as long as city and
      street hold no "|". */
  lemma FtthKeyTextInjective(p: Place, q: Place)
    requires '|' !in p.city && '|' !in p.street && '|' !in q.city && '|' !in q.street
    requires FtthKeyText(p.city, p.street, p.houseNum) == FtthKeyText(q.city, q.street, q.houseNum)
    ensures p == q
  {
    assert "|" == ['|'];
    ThreeFieldsDetermined(p.city, p.street, p.houseNum, q.city, q.street, q.houseNum, '|');
  }

  /** Neither "-" nor "|" inside a field. */
  predicate PlainField(s: string) {
    '-' !in s && '|' !in s
  }

  predicate PlainPlace(p: Place) {
    PlainField(p.city) && PlainField(p.street) && PlainField(p.houseNum)
  }

  /** A place text has no "|", and determines the place when no field
      holds a "-". */
  lemma PlaceTextInjective(p: Place, q: Place)
    requires PlainPlace(p) && PlainPlace(q)
    ensures '|' !in PlaceText(p)
    ensures PlaceText(p) == PlaceText(q) ==> p == q
  {
    assert "-" == ['-'];
    if PlaceText(p) == PlaceText(q) {
      ThreeFieldsDetermined(p.city, p.street, p.houseNum, q.city, q.street, q.houseNum, '-');
    }
  }

  /** Distinct routes or modes get distinct travel key texts as long as no
      field holds "-" or "|". */
  lemma TravelKeyTextInjective(o1: Place, d1: Place, m1: string, o2: Place, d2: Place, m2: string)
    requires PlainPlace(o1) && PlainPlace(d1) && PlainPlace(o2) && PlainPlace(d2)
    requires TravelKeyText(o1, d1, m1) == TravelKeyText(o2, d2, m2)
    ensures o1 == o2 && d1 == d2 && m1 == m2
  {
    PlaceTextInjective(o1, o2);
    PlaceTextInjective(o2, o1);
    PlaceTextInjective(d1, d2);
    PlaceTextInjective(d2, d1);
    assert "|" == ['|'];
    ThreeFieldsDetermined(PlaceText(o1), PlaceText(d1), m1, PlaceText(o2), PlaceText(d2), m2, '|');
  }
}
