/**
 * The device client: address normalisation, URL construction, the login gate
 * over the session token, and the typed getters with their error mapping.
 */
module ApiClient {
  import opened Common
  import opened JavaText
  import opened ApiTypes

  const ApiReference := "/api/4/"
  const CmdLogin := "auth/login"
  const CmdApiVer := "apiVer"
  const CmdApiZone := "zone"
  const CmdProvision := "provision"
  const CmdDiagnostics := "diag"
  const HttpTimeoutSeconds: nat := 3

  /** The address with one trailing `/` removed, the first step of normalisation. */
  function WithoutTrailingSlash(address: string): (r: string)
    ensures EndsWith(address, "/") ==> r + "/" == address
    ensures !EndsWith(address, "/") ==> r == address
  {
    if EndsWith(address, "/") then address[..|address| - 1] else address
  }

  /**
   * The address the constructor stores: a trailing `/` is removed; then, if
   * `//` occurs, everything through the first `//` is removed, and the end
   * of the kept text is taken from the ORIGINAL address's length minus one,
   * so an address without a trailing `/` also loses its final character.
   * The indices are always in range: the constructor never throws here.
   */
  function NormaliseAddress(address: string): (r: string)
    ensures |r| <= |address|
    ensures !Contains(WithoutTrailingSlash(address), "//") ==> r == WithoutTrailingSlash(address)
    ensures Contains(WithoutTrailingSlash(address), "//") ==>
              r == address[IndexOf(WithoutTrailingSlash(address), "//").value + 2..|address| - 1]
  {
    var local := WithoutTrailingSlash(address);
    match IndexOf(local, "//")
    case None => local
    case Some(i) =>
      SlashesEndBeforeLastCharacter(address, i);
      local[i + 2..|address| - 1]
  }

  /**
   * A `//` left after removing the trailing `/` ends before the address's
   * last character, which is why the substring in the constructor is in range.
   */
  lemma SlashesEndBeforeLastCharacter(address: string, i: nat)
    requires MatchesAt(WithoutTrailingSlash(address), "//", i)
    ensures i + 2 <= |address| - 1
  {
    var local := WithoutTrailingSlash(address);
    assert local[i + 1] == local[i..i + 2][1] == '/';
    if !EndsWith(address, "/") {
      assert local == address;
    }
  }

  /** With a trailing `/`, the scheme and the slash are both stripped. */
  lemma NormaliseStripsSchemeAndSlash(scheme: string, host: string)
    requires '/' !in scheme
    ensures NormaliseAddress(scheme + "//" + host + "/") == host
  {
    var address := scheme + "//" + host + "/";
    assert WithoutTrailingSlash(address) == scheme + "//" + host;
    FirstDoubleAfter(scheme, '/', host);
  }

  /** Without a trailing `/`, stripping the scheme also drops the host's last character. */
  lemma NormaliseDropsLastCharacter(scheme: string, host: string)
    requires '/' !in scheme
    requires host != [] && host[|host| - 1] != '/'
    ensures NormaliseAddress(scheme + "//" + host) == host[..|host| - 1]
  {
    var address := scheme + "//" + host;
    assert address[|address| - 1..] == [host[|host| - 1]];
    assert WithoutTrailingSlash(address) == address;
    FirstDoubleAfter(scheme, '/', host);
  }

  /** An address with no `/` at all is stored unchanged. */
  lemma NormaliseKeepsBareHost(address: string)
    requires '/' !in address
    ensures NormaliseAddress(address) == address
  {
    if address != [] {
      assert address[|address| - 1] in address;
      assert address[|address| - 1..] == [address[|address| - 1]];
    }
    AbsentCharNotContained(address, '/');
  }

  /** The URL `sendGet` requests: the session token is never part of it. */
  function CommandUrl(address: string, command: string): (r: string)
    ensures |r| == 8 + |address| + |ApiReference| + |command|
    ensures r[..8] == "https://" && r[8..8 + |address|] == address
    ensures r[|r| - |command|..] == command
  {
    "https://" + address + ApiReference + command
  }

  /** No query string is ever attached to a GET, whatever token is held. */
  lemma CommandUrlHasNoQuery(address: string, command: string)
    requires '?' !in address && '?' !in command
    ensures '?' !in CommandUrl(address, command)
  {
    var url := CommandUrl(address, command);
    forall k | 0 <= k < |url| ensures url[k] != '?' {
      if k < 8 {
        assert url[k] == "https://"[k];
      } else if k < 8 + |address| {
        assert url[k] == address[k - 8];
        assert address[k - 8] in address;
      } else if k < 8 + |address| + |ApiReference| {
        assert url[k] == ApiReference[k - 8 - |address|];
      } else {
        assert url[k] == command[k - 8 - |address| - |ApiReference|];
        assert command[k - 8 - |address| - |ApiReference|] in command;
      }
    }
  }

  /** The body of the login POST. */
  function LoginBody(password: string): string
  {
    "{\"pwd\": \"" + password + "\", \"remember\": 1}"
  }

  /**
   * The login POST for a session: a `text/html` request to the login URL
   * whose JSON body carries the password verbatim, without any escaping.
   */
  function LoginRequest(address: string, password: string): (r: Request)
    ensures r.Post? && r.url == CommandUrl(address, CmdLogin) && r.contentType == "text/html"
    ensures |r.body| == 9 + |password| + 17
    ensures r.body[..9] == "{\"pwd\": \"" && r.body[9..9 + |password|] == password
  {
    Post(CommandUrl(address, CmdLogin), "text/html", LoginBody(password))
  }

  /** What `commandLogin` returns, the token it leaves and whether it posted. */
  datatype LoginStep = LoginStep(ok: bool, token: string, posted: bool)

  /**
   * `commandLogin`: a held token short-circuits to success; an empty
   * password to failure; otherwise one POST, which succeeds only on a 200
   * whose body parses, and then stores that body's `access_token`.
   */
  function LoginSpec(token: string, password: string, reply: LoginExchange): (r: LoginStep)
    ensures token != "" ==> r == LoginStep(true, token, false)
    ensures r.posted <==> token == "" && password != ""
    ensures r.ok <==> token != "" || (password != "" && reply.LoginReply? && reply.status == HttpOk && reply.accessToken.Some?)
    ensures !r.ok ==> r.token == token
    ensures r.ok && r.posted ==> r.token == reply.accessToken.value
  {
    if token != "" then LoginStep(true, token, false)
    else if password == "" then LoginStep(false, token, false)
    else
      match reply
      case LoginFailure => LoginStep(false, token, true)
      case LoginReply(status, body) =>
        if status != HttpOk then LoginStep(false, token, true)
        else if body.None? then LoginStep(false, token, true)
        else LoginStep(true, body.value, true)
  }

  /** The requests a login step put on the network. */
  function LoginRequests(step: LoginStep, address: string, password: string): seq<Request>
  {
    if step.posted then [LoginRequest(address, password)] else []
  }

  /**
   * The value `sendGet` returns or the RainMachineException it raises: only
   * a 200 yields the decoded body; any other status, a timeout, an execution
   * failure or an interrupt is an error naming its cause.
   */
  function GetResult<T>(reply: HttpOutcome<T>): (r: Result<T, CommError>)
    ensures r.Ok? <==> reply.Response? && reply.status == HttpOk
    ensures r.Ok? ==> r.value == reply.payload
    ensures reply.Response? && reply.status != HttpOk ==> r == Err(BadStatus(reply.status))
    ensures r == Err(WaitInterrupted) <==> reply.Interrupted?
  {
    match reply
    case Response(status, payload) => if status == HttpOk then Ok(payload) else Err(BadStatus(status))
    case Timeout => Err(TimedOut)
    case ExecutionFailure => Err(TransportFailure)
    case Interrupted => Err(WaitInterrupted)
  }

  /**
   * What an authenticated getter returns: the GET's result after a
   * successful login, the empty record without any GET otherwise.
   */
  function AuthenticatedResult<T>(step: LoginStep, reply: HttpOutcome<T>, empty: T): (r: Result<T, CommError>)
    ensures !step.ok ==> r == Ok(empty)
    ensures step.ok ==> r == GetResult(reply)
  {
    if step.ok then GetResult(reply) else Ok(empty)
  }

  /** Everything one authenticated getter does: its result, the token it leaves, what it sent, and whether it re-asserted an interrupt. */
  datatype Exchange<T> = Exchange(result: Result<T, CommError>, token: string, sent: seq<Request>, interrupted: bool)

  /** An authenticated getter, run against a session holding `token`. */
  function AuthenticatedExchange<T>(token: string, password: string, address: string, command: string, empty: T,
                                    login: LoginExchange, server: string -> HttpOutcome<T>): (e: Exchange<T>)
    ensures e.result.Ok? && e.sent == [] ==> e.result.value == empty
    ensures |e.sent| <= 2
    ensures e.interrupted ==> e.result == Err(WaitInterrupted)
  {
    var step := LoginSpec(token, password, login);
    var url := CommandUrl(address, command);
    Exchange(AuthenticatedResult(step, server(url), empty), step.token,
             LoginRequests(step, address, password) + (if step.ok then [Get(url, HttpTimeoutSeconds)] else []),
             step.ok && server(url).Interrupted?)
  }

  /**
   * A session without a password and without a token never authenticates:
   * every getter returns the empty record and nothing is sent.
   */
  lemma WithoutPasswordNothingIsSent<T>(address: string, command: string, empty: T, login: LoginExchange, server: string -> HttpOutcome<T>)
    ensures AuthenticatedExchange("", "", address, command, empty, login, server) == Exchange(Ok(empty), "", [], false)
  {
    assert LoginSpec("", "", login) == LoginStep(false, "", false);
  }

  /** A session that already holds a token sends exactly one GET and keeps its token. */
  lemma HeldTokenSkipsLogin<T>(token: string, password: string, address: string, command: string, empty: T,
                               login: LoginExchange, server: string -> HttpOutcome<T>)
    requires token != ""
    ensures var e := AuthenticatedExchange(token, password, address, command, empty, login, server);
            e.token == token && e.sent == [Get(CommandUrl(address, command), HttpTimeoutSeconds)] &&
            e.result == GetResult(server(CommandUrl(address, command)))
  {
  }

  /** Distinct commands are requested at distinct URLs. */
  lemma CommandUrlsDiffer(address: string, command: string, other: string)
    requires command != other
    ensures CommandUrl(address, command) != CommandUrl(address, other)
  {
    var prefix := "https://" + address + ApiReference;
    assert CommandUrl(address, command)[|prefix|..] == command;
    assert CommandUrl(address, other)[|prefix|..] == other;
  }

  /** An authenticated getter sends nothing but the login POST and its own GET. */
  lemma ExchangeStaysOnCommand<T>(token: string, password: string, address: string, command: string, empty: T,
                                  login: LoginExchange, server: string -> HttpOutcome<T>)
    ensures forall r :: r in AuthenticatedExchange(token, password, address, command, empty, login, server).sent ==>
              r.Post? || r == Get(CommandUrl(address, command), HttpTimeoutSeconds)
  {
  }

  /**
   * A session with one controller. The HTTP client itself is not modelled:
   * every request is appended to `requests`, and its outcome is supplied by
   * the caller (the login reply) or looked up by URL (`server`).
   */
  class Communicator {
    const address: string
    const password: string
    var accessToken: string
    var requests: seq<Request>
    /** Whether a GET has re-asserted the calling thread's interrupt flag. */
    var interruptReasserted: bool

    constructor (address: string)
      ensures this.address == NormaliseAddress(address)
      ensures password == "" && accessToken == ""
      ensures requests == [] && !interruptReasserted
    {
      this.address := NormaliseAddress(address);
      password := "";
      accessToken := "";
      requests := [];
      interruptReasserted := false;
    }

    /** The two-argument constructor ignores its password: the session's password is always empty. */
    constructor WithPassword(address: string, password: string)
      ensures this.address == NormaliseAddress(address)
      ensures this.password == "" && accessToken == ""
      ensures requests == [] && !interruptReasserted
    {
      this.address := NormaliseAddress(address);
      this.password := "";
      accessToken := "";
      requests := [];
      interruptReasserted := false;
    }

    method CommandLogin(reply: LoginExchange) returns (ok: bool)
      modifies this`accessToken, this`requests
      ensures var step := LoginSpec(old(accessToken), password, reply);
              ok == step.ok && accessToken == step.token &&
              requests == old(requests) + LoginRequests(step, address, password)
    {
      if accessToken != "" {
        return true;
      }
      if password == "" {
        return false;
      }
      requests := requests + [LoginRequest(address, password)];
      match reply {
        case LoginFailure =>
          return false;
        case LoginReply(status, body) =>
          if status != HttpOk {
            return false;
          }
          if body.None? {
            return false;
          }
          accessToken := body.value;
          return true;
      }
    }

    method SendGet<T>(command: string, server: string -> HttpOutcome<T>) returns (r: Result<T, CommError>)
      modifies this`requests, this`interruptReasserted
      ensures var url := CommandUrl(address, command);
              requests == old(requests) + [Get(url, HttpTimeoutSeconds)] &&
              r == GetResult(server(url)) &&
              interruptReasserted == (old(interruptReasserted) || server(url).Interrupted?)
    {
      var url := CommandUrl(address, command);
      requests := requests + [Get(url, HttpTimeoutSeconds)];
      var reply := server(url);
      match reply {
        case Response(status, payload) =>
          if status != HttpOk {
            return Err(BadStatus(status));
          }
          return Ok(payload);
        case Timeout =>
          return Err(TimedOut);
        case ExecutionFailure =>
          return Err(TransportFailure);
        case Interrupted =>
          interruptReasserted := true;
          return Err(WaitInterrupted);
      }
    }

    /** `getVersions`: an unauthenticated GET; the login gate is never consulted. */
    method GetVersions(server: string -> HttpOutcome<ApiVersion>) returns (r: Result<ApiVersion, CommError>)
      modifies this`requests, this`interruptReasserted
      ensures var url := CommandUrl(address, CmdApiVer);
              requests == old(requests) + [Get(url, HttpTimeoutSeconds)] &&
              r == GetResult(server(url)) &&
              interruptReasserted == (old(interruptReasserted) || server(url).Interrupted?)
    {
      r := SendGet(CmdApiVer, server);
    }

    /** The session now holds `token`, has sent `sent` since, and re-asserted an interrupt if `interrupted`. */
    twostate predicate Advanced(token: string, sent: seq<Request>, interrupted: bool)
      reads this
    {
      accessToken == token && requests == old(requests) + sent &&
      interruptReasserted == (old(interruptReasserted) || interrupted)
    }

    /** The session's fields after running exchange `e`. */
    twostate predicate Performed<T>(e: Exchange<T>)
      reads this
    {
      Advanced(e.token, e.sent, e.interrupted)
    }

    /** Login, then the GET only if login succeeded; otherwise the empty record. */
    method AuthenticatedGet<T>(command: string, empty: T, login: LoginExchange, server: string -> HttpOutcome<T>)
      returns (r: Result<T, CommError>)
      modifies this`accessToken, this`requests, this`interruptReasserted
      ensures var e := AuthenticatedExchange(old(accessToken), password, address, command, empty, login, server);
              r == e.result && Performed(e)
    {
      var ok := CommandLogin(login);
      if !ok {
        return Ok(empty);
      }
      r := SendGet(command, server);
    }

    method GetZones(login: LoginExchange, server: string -> HttpOutcome<ZonesInfo>) returns (r: Result<ZonesInfo, CommError>)
      modifies this`accessToken, this`requests, this`interruptReasserted
      ensures var e := AuthenticatedExchange(old(accessToken), password, address, CmdApiZone, EmptyZones, login, server);
              r == e.result && Performed(e)
    {
      r := AuthenticatedGet(CmdApiZone, EmptyZones, login, server);
    }

    method GetDeviceInfo(login: LoginExchange, server: string -> HttpOutcome<DeviceInfo>) returns (r: Result<DeviceInfo, CommError>)
      modifies this`accessToken, this`requests, this`interruptReasserted
      ensures var e := AuthenticatedExchange(old(accessToken), password, address, CmdProvision, EmptyDeviceInfo, login, server);
              r == e.result && Performed(e)
    {
      r := AuthenticatedGet(CmdProvision, EmptyDeviceInfo, login, server);
    }

    method GetDiagnostics(login: LoginExchange, server: string -> HttpOutcome<Diagnostics>) returns (r: Result<Diagnostics, CommError>)
      modifies this`accessToken, this`requests, this`interruptReasserted
      ensures var e := AuthenticatedExchange(old(accessToken), password, address, CmdDiagnostics, EmptyDiagnostics, login, server);
              r == e.result && Performed(e)
    {
      r := AuthenticatedGet(CmdDiagnostics, EmptyDiagnostics, login, server);
    }
  }
}
