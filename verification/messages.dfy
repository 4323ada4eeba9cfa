/** The messages the content script and the background script exchange. */
module Messages {
  import opened Wrappers

  /**
   * `{action, depart, arrivee, flightCode}`; a field the sender leaves out is
   * `None`.
   */
  datatype Request = Request(
    action: string,
    depart: Option<string>,
    arrivee: Option<string>,
    flightCode: Option<string>)

  /** The value the background script passes to `sendResponse`. */
  datatype Response =
    | Null                                          // null
    | Status(status: string)                        // {status}
    | Distance(distance: Option<real>)              // {distance: number | null}
    | AircraftType(aircraftType: Option<string>)    // {aircraftType: string | null}

  function PingRequest(): Request
  {
    Request("ping", None, None, None)
  }

  function DistanceRequest(depart: string, arrivee: string): Request
  {
    Request("fetchDistance", Some(depart), Some(arrivee), None)
  }

  function AircraftRequest(flightCode: string): Request
  {
    Request("fetchAircraft", None, None, Some(flightCode))
  }

  /**
   * The messaging channel as the content script sees it: the response, or
   * `None` when the runtime is unavailable or reports an error.
   */
  type Channel = Request -> Option<Response>
}
