/**
 * The upstream movie API as the services see it. Every `axios.get` either
 * rejects with an AxiosError or resolves with the response body
 * (`response.data`); which one happens is given by an oracle.
 */
module Upstream {
  import opened JsValues

  /** An AxiosError: its `message` and `code`. */
  datatype HttpError = HttpError(message: string, code: string)

  /** How one `axios.get` settled. */
  datatype Fetch = Threw(error: HttpError) | Responded(body: JsValue)

  /** The error of a request made after every scripted response has been used: the network is gone. */
  const NoResponse := HttpError("Network Error", "ERR_NETWORK")

  /** The settlement of the k-th request (from 0) under a finite script of responses. */
  function Respond(oracle: seq<Fetch>, k: nat): (f: Fetch)
    ensures k >= |oracle| ==> f == Threw(NoResponse)
  {
    if k < |oracle| then oracle[k] else Threw(NoResponse)
  }
}
