/** The JSON shapes the server's `/process_address` endpoint returns and
    the content script reads back (the server builds them in server.py,
    `check_ftth_availability`, `get_travel_time` and `process_address`). */
module Protocol {
  import opened Wrappers

  /** A JSON scalar as the FTTH provider may send it. Floating-point
      numbers are not modelled. */
  datatype Scalar = Null | Bool(b: bool) | Num(n: int) | Str(s: string)

  /** JavaScript truthiness of a decoded JSON scalar. */
  predicate Truthy(v: Scalar) {
    match v
    case Null => false
    case Bool(b) => b
    case Num(n) => n != 0
    case Str(s) => s != ""
  }

  /** `{"distance": ..., "duration": ...}` for one travel mode. */
  datatype Leg = Leg(distance: string, duration: string)

  /** The FTTH result the server builds from the provider's reply. */
  datatype FtthResult = FtthResult(
    status: string,
    cityId: Scalar,
    streetId: Scalar,
    errorCode: Scalar,
    errorMessage: Scalar,
    isSuccessful: Scalar)

  /** `{"ftth": ..., "travel_times": ...}`; either part may be null. */
  datatype LookupResult = LookupResult(ftth: Option<FtthResult>, travelTimes: Option<map<string, Leg>>)
}
