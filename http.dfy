/**
 * The HTTP world as the scripts see it: URLs split into their six components, responses
 * reduced to what the scripts inspect, form payloads as ordered key/value lists, and the
 * three values a session's login flag takes.
 */
module Http {
  import opened Outcome

  /** The six components `urlparse` splits a URL into; `urlunparse` joins them back. */
  datatype Url = Url(scheme: string, host: string, path: string, params: string, query: string, fragment: string)

  /**
   * One HTTP exchange as the scripts look at it: whether `raise_for_status()` passes, the
   * cookies the exchange leaves in the session's jar, the query of the final (post-redirect)
   * URL as `parse_qsl` pairs, and the body text.
   */
  datatype Response = Response(statusOk: bool, setCookies: map<string, string>, finalQuery: seq<(string, string)>, text: string)

  /** `key in qs_parse(query)`: some pair of the parsed query has that key. */
  predicate QueryHasKey(query: seq<(string, string)>, key: string) {
    exists i :: 0 <= i < |query| && query[i].0 == key
  }

  /** A value in a POSTed form: a string, an integer, or a list (which `requests` sends as repeated keys). */
  datatype FormValue = Str(s: string) | Num(n: int) | Many(items: seq<string>)

  /** A POST payload: an ordered list of pairs in which keys may repeat. */
  type Form = seq<(string, FormValue)>

  /** The `verify=` keyword argument: a flag, or a path to a certificate bundle. */
  datatype Verify = VerifyFlag(flag: bool) | VerifyPath(path: string)

  /** A session's `_logged_in` attribute: `False`, `"logging_in"` or `True`. */
  datatype LoginState = LoggedOut | LoggingIn | LoggedIn

  /** The request a session finally hands to `requests.Session.request`. */
  datatype Sent = Sent(verb: string, url: Url, referer: Option<Url>, verify: Option<Verify>, data: Form)

  /**
   * A `headers=` dict passed by the caller. `request` rewrites its `Referer` entry in place, so
   * the caller sees the rewritten value afterwards; `others` holds the remaining entries.
   */
  class HeaderDict {
    var referer: Option<Url>
    var others: map<string, string>

    constructor (referer: Option<Url>, others: map<string, string>)
      ensures this.referer == referer && this.others == others
    {
      this.referer := referer;
      this.others := others;
    }
  }
}
