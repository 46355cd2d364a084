/**
 * ezproxy.py: a session that routes every request through an EzProxy relay by rewriting the
 * destination host, and that gates traffic behind a three-valued login flag.
 */
module EzProxy {
  import opened Outcome
  import opened Text
  import opened Http

  /** The exceptions an `EzProxy` session lets escape. */
  datatype ProxyError =
    | AssertionError  // `login` while not logged out, or `request` while logged out
    | HTTPError       // `raise_for_status()` on the login response
    | LoginError      // no `ezproxy` cookie in the jar after the login exchange

  /** The relay `UWProxy` uses. */
  const UW_ADDRESS := "proxy.lib.uwaterloo.ca"

  /** The deliberately host-less login URL; the rewrite turns it into `https://login.<relay>/login`. */
  const LOGIN_URL := Url("https", "login", "/login", "", "", "")

  /**
   * `EzProxy.proxyify`: route `url` through the relay at `address` by appending the relay's
   * domain to the host, unless the host already ends with it.
   */
  function Proxyify(address: string, url: Url): (r: Url)
    ensures r.(host := url.host) == url
    ensures EndsWith(r.host, address)
    ensures r.host == url.host || r.host == url.host + "." + address
    ensures r.host == url.host <==> EndsWith(url.host, address)
  {
    if EndsWith(url.host, address) then url
    else
      var host := url.host + "." + address;
      assert host[|host| - |address|..] == address;
      url.(host := host)
  }

  /** Rewriting an already rewritten URL changes nothing, so following a relayed link never double-suffixes. */
  lemma ProxyifyIdempotent(address: string, url: Url)
    ensures Proxyify(address, Proxyify(address, url)) == Proxyify(address, url)
  {
  }

  /** `UWProxy.request`'s keyword handling: certificate checks off unless the caller passed `verify`. */
  function DefaultVerifyOff(verify: Option<Verify>): (v: Option<Verify>)
    ensures v.Some?
    ensures verify.Some? ==> v == verify
    ensures verify.None? ==> !v.value.VerifyPath? && !v.value.flag
  {
    if verify.None? then Some(VerifyFlag(false)) else verify
  }

  /** The credentials form: EzProxy calls the barcode the user and the last name the password. */
  function LoginForm(barcode: string, lastName: string): (f: Form)
    ensures |f| == 2 && f[0] == ("user", Str(barcode)) && f[1] == ("pass", Str(lastName))
  {
    [("user", Str(barcode)), ("pass", Str(lastName))]
  }

  /**
   * An `EzProxy` session (a `requests.Session` subclass). `uw` marks the `UWProxy` subclass,
   * whose `request` override passes `verify=False` unless the caller gave `verify`.
   */
  class Session {
    const address: string
    const uw: bool
    var loggedIn: LoginState
    var user: Option<string>
    var cookies: map<string, string>

    /** Being logged in means the relay's cookie is in the jar and the account is recorded. */
    ghost predicate Valid()
      reads this
    {
      loggedIn == LoggedIn ==> "ezproxy" in cookies && user.Some?
    }

    /** `EzProxy.__init__(address)`, or the `UWProxy` variant when `uw` holds. */
    constructor (address: string, uw: bool)
      ensures Valid() && this.address == address && this.uw == uw
      ensures loggedIn == LoggedOut && user == None && cookies == map[]
    {
      this.address := address;
      this.uw := uw;
      loggedIn := LoggedOut;
      user := None;
      cookies := map[];
    }

    /**
     * `EzProxy.request`: refuse unless logged in or logging in; rewrite the URL and any
     * `Referer` header (in the caller's dict) through the relay; hand the request on. The
     * exchange's cookies land in the session's jar.
     */
    method Request(verb: string, url: Url, headers: HeaderDict?, verify: Option<Verify>, data: Form, response: Response)
      returns (r: Result<Sent, ProxyError>)
      requires Valid()
      modifies this`cookies, headers
      ensures Valid()
      ensures headers != null ==> headers.others == old(headers.others)
      ensures old(loggedIn) == LoggedOut ==>
        r == Err(AssertionError) && cookies == old(cookies)
        && (headers != null ==> headers.referer == old(headers.referer))
      ensures old(loggedIn) != LoggedOut ==>
        r.Ok? && r.value.verb == verb && r.value.url == Proxyify(address, url) && r.value.data == data
        && r.value.verify == (if uw then DefaultVerifyOff(verify) else verify)
        && cookies == old(cookies) + response.setCookies
        && (headers == null ==> r.value.referer == None)
        && (headers != null ==>
              r.value.referer == headers.referer
              && headers.referer == (if old(headers.referer).Some?
                                     then Some(Proxyify(address, old(headers.referer).value)) else None))
    {
      if loggedIn == LoggedOut {
        return Err(AssertionError);
      }
      var referer: Option<Url> := None;
      if headers != null {
        if headers.referer.Some? {
          headers.referer := Some(Proxyify(address, headers.referer.value));
        }
        referer := headers.referer;
      }
      var v := if uw then DefaultVerifyOff(verify) else verify;
      cookies := cookies + response.setCookies;
      return Ok(Sent(verb, Proxyify(address, url), referer, v, data));
    }

    /**
     * `EzProxy.login`: only from the logged-out state; post the credentials through the relay
     * while `"logging_in"`; succeed when the response is 200 and the `ezproxy` cookie is in the
     * jar, otherwise roll back to logged out and re-raise.
     */
    method Login(barcode: string, lastName: string, response: Response) returns (sent: Option<Sent>, r: Result<(), ProxyError>)
      requires Valid()
      modifies this`loggedIn, this`user, this`cookies
      ensures Valid()
      ensures old(loggedIn) != LoggedOut ==>
        r == Err(AssertionError) && sent == None
        && loggedIn == old(loggedIn) && user == old(user) && cookies == old(cookies)
      ensures old(loggedIn) == LoggedOut ==>
        sent == Some(Sent("POST", Proxyify(address, LOGIN_URL), None, if uw then Some(VerifyFlag(false)) else None,
                          LoginForm(barcode, lastName)))
        && cookies == old(cookies) + response.setCookies
        && (r == Err(HTTPError) <==> !response.statusOk)
        && (r == Err(LoginError) <==> response.statusOk && "ezproxy" !in cookies)
        && (r.Ok? <==> response.statusOk && "ezproxy" in cookies)
        && (r.Ok? ==> loggedIn == LoggedIn && user == Some(lastName))
        && (r.Err? ==> loggedIn == LoggedOut && user == old(user))
    {
      if loggedIn != LoggedOut {
        return None, Err(AssertionError);
      }
      loggedIn := LoggingIn;
      var post := Request("POST", LOGIN_URL, null, None, LoginForm(barcode, lastName), response);
      sent := Some(post.value);
      if !response.statusOk {
        loggedIn := LoggedOut;
        return sent, Err(HTTPError);
      }
      if "ezproxy" !in cookies {
        loggedIn := LoggedOut;
        return sent, Err(LoginError);
      }
      loggedIn := LoggedIn;
      user := Some(lastName);
      return sent, Ok(());
    }

    /** `EzProxy.__str__`: the account, relay and relay session when logged in; otherwise the relay alone. */
    function Str(): (s: string)
      reads this
      requires Valid()
      ensures loggedIn == LoggedIn ==> s == "<" + user.value + "@" + address + " [session:" + cookies["ezproxy"] + "]>"
      ensures loggedIn != LoggedIn ==> s == "<EzProxy @" + address + ">"
    {
      if loggedIn == LoggedIn then "<" + user.value + "@" + address + " [session:" + cookies["ezproxy"] + "]>"
      else "<EzProxy @" + address + ">"
    }
  }

  /**
   * `UWProxy.__init__(last_name, barcode)`: a session on the Waterloo relay that logs in at once,
   * passing the barcode as the relay's user and the last name as its password.
   */
  method NewUWProxy(lastName: string, barcode: string, response: Response) returns (r: Result<Session, ProxyError>, sent: Option<Sent>)
    ensures sent.Some? && sent.value.data == LoginForm(barcode, lastName)
    ensures sent.value.verify == Some(VerifyFlag(false))
    ensures sent.value.url.host == "login." + UW_ADDRESS
    ensures r.Ok? <==> response.statusOk && "ezproxy" in response.setCookies
    ensures r.Ok? ==> r.value.address == UW_ADDRESS && r.value.loggedIn == LoggedIn && r.value.user == Some(lastName)
    ensures r.Err? ==> r.error != AssertionError
  {
    var s := new Session(UW_ADDRESS, true);
    var outcome;
    assert !EndsWith(LOGIN_URL.host, UW_ADDRESS);
    sent, outcome := s.Login(barcode, lastName, response);
    if outcome.Err? {
      return Err(outcome.error), sent;
    }
    return Ok(s), sent;
  }

  /**
   * A rejected login leaves the session logged out, so the next request is refused: the
   * scenario of a credential exchange whose response lacks the relay's cookie.
   */
  method RejectedLoginThenRequest(address: string, barcode: string, lastName: string, response: Response, url: Url)
    returns (login: Result<(), ProxyError>, next: Result<Sent, ProxyError>)
    requires !response.statusOk || "ezproxy" !in response.setCookies
    ensures login.Err? && login.error != AssertionError
    ensures next == Err(AssertionError)
  {
    var s := new Session(address, false);
    var sent;
    sent, login := s.Login(barcode, lastName, response);
    next := s.Request("GET", url, null, None, [], response);
  }
}
