/** The FlareSolverr proxy fetcher: every page request is forwarded as a JSON
    command to a FlareSolverr server, and the server's JSON envelope is turned
    back into a fetcher response or an `HTTPErrorFFF`. The HTTP channel to the
    server is not modelled: what each channel call returned is a parameter. */
module FlareSolverr {
  import opened Common
  import SolverCookies
  import FormParams

  /** The session name used when `flaresolverr_session` is not configured. */
  const DefaultSessionName := "FanFicFareSession"

  const ConnectionFailedMessage := "Connection to flaresolverr proxy server failed.  Is flaresolverr started?"
  const ImageUnsupportedMessage :=
    "FlareSolverr v2 doesn't support image download (or use_flaresolverr_proxy!=withimages)"

  /** The configuration values the fetcher reads. */
  datatype Config = Config(
    useSession: bool,              // use_flaresolverr_session (default False)
    protocol: string,              // flaresolverr_proxy_protocol (default "http")
    address: string,               // flaresolverr_proxy_address (default "localhost")
    port: string,                  // flaresolverr_proxy_port (default "8191")
    maxTimeout: int,               // int(flaresolverr_proxy_timeout) (default 59000)
    sessionName: string,           // flaresolverr_session (default DefaultSessionName)
    proxyMode: Option<string>)     // use_flaresolverr_proxy

  function DefaultConfig(proxyMode: Option<string>): Config
  {
    Config(false, "http", "localhost", "8191", 59000, DefaultSessionName, proxyMode)
  }

  /** Binary mode: the solution's body is base64 and images can be downloaded. */
  predicate WithImages(cfg: Config)
  {
    cfg.proxyMode == Some("withimages")
  }

  /** The server's command endpoint. */
  function Endpoint(cfg: Config): string
  {
    cfg.protocol + "://" + cfg.address + ":" + cfg.port + "/v1"
  }

  // ---------------------------------------------------------------- envelopes

  /** The `headers` of a solution; `contentType` is None when the key is absent. */
  datatype SolutionHeaders = SolutionHeaders(contentType: Option<string>)

  /** `resp.json['solution']`; each field is None when its key is absent. */
  datatype Solution = Solution(
    status: Option<int>,
    url: Option<string>,
    cookies: Option<seq<SolverCookies.SolverCookie>>,
    response: Option<string>,
    headers: Option<SolutionHeaders>)

  /** The JSON envelope the server answers a forwarded request with. */
  datatype Envelope = Envelope(
    status: Option<string>,
    message: Option<string>,
    solution: Option<Solution>)

  /** The JSON answer to `sessions.create`. */
  datatype SessionReply = SessionReply(session: Option<string>)

  /** What `data` of an `HTTPErrorFFF` raised by the channel parses to. */
  datatype ErrorData = NotJson | JsonWithoutMessage | JsonMessage(message: string)

  /** How a call on the channel to the server can fail. */
  datatype ChannelFailure =
    | ConnectionFailed                                       // requests ConnectionError
    | HttpFailed(url: string, status: int, data: ErrorData)  // HTTPErrorFFF

  datatype ChannelOutcome<T> = Replied(reply: T) | Failed(failure: ChannelFailure)

  /** A response body: text, or bytes after a base64 decode. */
  datatype Body = Text(text: string) | Binary(bytes: seq<byte>)

  datatype FetcherResponse = FetcherResponse(content: Body, redirectUrl: string, fromCache: bool)

  /** The exceptions `request` can end in. */
  datatype FetchError =
    | NotImplemented
    | FailedToDownload(message: string)
    | HttpError(url: string, status: int, detail: Body)
    | KeyError(key: string)
    | JsonDecodeError
    | ParamsError(error: FormParams.PyError)

  /** The exceptions `do_fs_request` can raise: a channel failure (which
      `request` translates) or any other exception (which passes through). */
  datatype Raised = Channel(failure: ChannelFailure) | Other(error: FetchError)

  /** The JSON command of one forwarded request. */
  datatype Payload = Payload(
    cmd: string,
    url: string,
    maxTimeout: int,
    cookies: seq<SolverCookies.OutgoingCookie>,
    postData: FormParams.PostData,
    download: bool,               // the `download` key is present (always True then)
    session: Option<string>)

  /** One POST to the server's endpoint. */
  datatype ControlCall =
    | CreateSession(endpoint: string, name: string)
    | Forward(endpoint: string, payload: Payload)

  // ---------------------------------------------------------------- request side

  /** The command for an HTTP method: `('request.' + method).lower()`. */
  function Cmd(verb: string): string
  {
    Lower("request." + verb)
  }

  lemma CmdNames()
    ensures Cmd("GET") == "request.get"
    ensures Cmd("POST") == "request.post"
  {
  }

  function OutgoingCookies(jar: seq<SolverCookies.JarCookie>, url: string): seq<SolverCookies.OutgoingCookie>
  {
    var kept := SolverCookies.CookiesFor(jar, url);
    seq(|kept|, i requires 0 <= i < |kept| => SolverCookies.Jsonable(kept[i]))
  }

  /** `fs_data` for a command, or the exception `encode_params` raised. */
  function PayloadFor(cfg: Config, session: string, jar: seq<SolverCookies.JarCookie>, cmd: string,
                      url: string, params: FormParams.PyValue): Result<Payload, FetchError>
  {
    match FormParams.EncodedParams(params)
    case Err(e) => Err(ParamsError(e))
    case Ok(post) =>
      Ok(Payload(cmd, url, cfg.maxTimeout, OutgoingCookies(jar, url), post, WithImages(cfg),
                 if session != "" then Some(session) else None))
  }

  /** What `do_fs_request` did: the calls it made, the session afterwards, and
      the envelope or the exception. */
  datatype FsOutcome = FsOutcome(calls: seq<ControlCall>, session: string, result: Result<Envelope, Raised>)

  /** `do_fs_request`. `session` is `fs_session`, with "" standing for any falsy
      value (it starts as None). */
  function FsRequestSpec(cfg: Config, session: string, jar: seq<SolverCookies.JarCookie>, cmd: string,
                         url: string, params: FormParams.PyValue,
                         create: ChannelOutcome<SessionReply>, main: ChannelOutcome<Envelope>): FsOutcome
  {
    var creating := cfg.useSession && session == "";
    var calls0 := if creating then [CreateSession(Endpoint(cfg), cfg.sessionName)] else [];
    if creating && create.Failed? then FsOutcome(calls0, session, Err(Channel(create.failure)))
    else if creating && create.reply.session.None? then FsOutcome(calls0, session, Err(Other(KeyError("session"))))
    else
      var s := if creating then create.reply.session.value else session;
      match PayloadFor(cfg, s, jar, cmd, url, params)
      case Err(e) => FsOutcome(calls0, s, Err(Other(e)))
      case Ok(p) =>
        var calls := calls0 + [Forward(Endpoint(cfg), p)];
        match main
        case Failed(f) => FsOutcome(calls, s, Err(Channel(f)))
        case Replied(env) => FsOutcome(calls, s, Ok(env))
  }

  /** How `request` translates a channel failure. */
  function ChannelError(f: ChannelFailure): (e: FetchError)
    ensures f.ConnectionFailed? ==> e == FailedToDownload(ConnectionFailedMessage)
    ensures f.HttpFailed? && f.data.JsonMessage? ==>
      e == HttpError(f.url, f.status, Text("Flaresolverr says: " + f.data.message))
  {
    match f
    case ConnectionFailed => FailedToDownload(ConnectionFailedMessage)
    case HttpFailed(url, status, data) =>
      match data
      case NotJson => JsonDecodeError
      case JsonWithoutMessage => KeyError("message")
      case JsonMessage(m) => HttpError(url, status, Text("Flaresolverr says: " + m))
  }

  // ---------------------------------------------------------------- response side

  /** The last step of `request`: any status but 200 is raised with that status. */
  function Finish(url: string, status: int, data: Body): (r: Result<FetcherResponse, FetchError>)
    ensures r.Ok? <==> status == 200
  {
    if status != 200 then Err(HttpError(url, status, data))
    else Ok(FetcherResponse(data, url, false))
  }

  /** The solution is a success envelope: `status == 'ok'`, with a solution that has a status. */
  predicate Solved(env: Envelope)
  {
    env.status == Some("ok") && env.solution.Some? && env.solution.value.status.Some?
  }

  /** The solution's content-type says it is an image. */
  predicate IsImage(sol: Solution)
  {
    sol.headers.Some? && sol.headers.value.contentType.Some?
    && Contains(sol.headers.value.contentType.value, "image")
  }

  /** The base64 decode of the solution's body, in binary mode; None when the
      mode is off, the body is missing or the decode fails. */
  function Decoded(cfg: Config, sol: Solution, decode: string -> Option<seq<byte>>): Option<seq<byte>>
  {
    if WithImages(cfg) && sol.response.Some? then decode(sol.response.value) else None
  }

  /** The envelope-to-response part of `request`: the cookies it hands to the
      jar (in order) and the response or the exception. */
  function Reconstruct(cfg: Config, requestUrl: string, env: Envelope,
                       decode: string -> Option<seq<byte>>)
    : (seq<SolverCookies.JarCookie>, Result<FetcherResponse, FetchError>)
  {
    if env.status.None? then ([], Err(KeyError("status")))
    else if Solved(env) then
      var sol := env.solution.value;
      if sol.url.None? then ([], Err(KeyError("url")))
      else if sol.cookies.None? then ([], Err(KeyError("cookies")))
      else
        var cs := sol.cookies.value;
        var jarred := SolverCookies.JarableAll(cs);
        var url := sol.url.value;
        match Decoded(cfg, sol, decode)
        case Some(bytes) => (jarred, Finish(url, sol.status.value, Binary(bytes)))
        case None =>
          if IsImage(sol) then (jarred, Err(HttpError(url, 428, Text(ImageUnsupportedMessage))))
          else if sol.response.None? then (jarred, Err(KeyError("response")))
          else (jarred, Finish(url, sol.status.value, Text(sol.response.value)))
    else if env.message.None? then ([], Err(KeyError("message")))
    else ([], Err(HttpError(requestUrl, 428, Text(env.message.value))))
  }

  /** Everything `request` did: calls made, the new `fs_session`, the new jar, the result. */
  datatype Outcome = Outcome(
    calls: seq<ControlCall>, session: string, jar: seq<SolverCookies.JarCookie>,
    result: Result<FetcherResponse, FetchError>)

  /** What `request` makes of the outcome of `do_fs_request`: the new jar and the result. */
  function Completed(cfg: Config, jar: seq<SolverCookies.JarCookie>, url: string,
                     fs: Result<Envelope, Raised>, decode: string -> Option<seq<byte>>)
    : (seq<SolverCookies.JarCookie>, Result<FetcherResponse, FetchError>)
  {
    match fs
    case Err(Channel(f)) => (jar, Err(ChannelError(f)))
    case Err(Other(e)) => (jar, Err(e))
    case Ok(env) =>
      var rc := Reconstruct(cfg, url, env, decode);
      (SolverCookies.StoredAll(jar, rc.0), rc.1)
  }

  /** `request(method, url, parameters)`. */
  function RequestSpec(cfg: Config, session: string, jar: seq<SolverCookies.JarCookie>, verb: string,
                       url: string, params: FormParams.PyValue, create: ChannelOutcome<SessionReply>,
                       main: ChannelOutcome<Envelope>, decode: string -> Option<seq<byte>>): Outcome
  {
    if verb != "GET" && verb != "POST" then Outcome([], session, jar, Err(NotImplemented))
    else
      var fs := FsRequestSpec(cfg, session, jar, Cmd(verb), url, params, create, main);
      var done := Completed(cfg, jar, url, fs.result, decode);
      Outcome(fs.calls, fs.session, done.0, done.1)
  }

  // ---------------------------------------------------------------- retries

  /** The urllib3 retry settings the fetcher reads. */
  datatype Retry = Retry(total: int, connect: int, read: int, status: int, backoffFactor: int)

  /** `make_retries`: no connect retries and no retries in total through the proxy. */
  function MakeRetries(base: Retry): (r: Retry)
    ensures r.connect == 0 && r.total == 0
    ensures r.read == base.read && r.status == base.status && r.backoffFactor == base.backoffFactor
  {
    base.(connect := 0, total := 0)
  }

  // ---------------------------------------------------------------- the fetcher

  class ProxyFetcher {
    const cfg: Config
    var fsSession: string
    var jar: seq<SolverCookies.JarCookie>

    constructor(cfg: Config)
      ensures this.cfg == cfg && fsSession == "" && jar == []
    {
      this.cfg := cfg;
      fsSession := "";
      jar := [];
    }

    /** The `set_cookie` loop of `request`. */
    method StoreCookies(cs: seq<SolverCookies.JarCookie>)
      modifies this`jar
      ensures jar == SolverCookies.StoredAll(old(jar), cs)
    {
      var i := 0;
      while i < |cs|
        invariant 0 <= i <= |cs|
        invariant SolverCookies.StoredAll(jar, cs[i..]) == SolverCookies.StoredAll(old(jar), cs)
      {
        assert cs[i..][1..] == cs[i + 1..];
        jar := SolverCookies.Stored(jar, cs[i]);
        i := i + 1;
      }
      assert cs[i..] == [];
    }

    /** `do_fs_request`: create the session once if configured, then forward the command. */
    method DoFsRequest(cmd: string, url: string, params: FormParams.PyValue,
                       create: ChannelOutcome<SessionReply>, main: ChannelOutcome<Envelope>)
      returns (calls: seq<ControlCall>, r: Result<Envelope, Raised>)
      modifies this`fsSession
      ensures FsOutcome(calls, fsSession, r) == FsRequestSpec(cfg, old(fsSession), jar, cmd, url, params, create, main)
    {
      calls := [];
      if cfg.useSession && fsSession == "" {
        calls := [CreateSession(Endpoint(cfg), cfg.sessionName)];
        if create.Failed? {
          return calls, Err(Channel(create.failure));
        }
        if create.reply.session.None? {
          return calls, Err(Other(KeyError("session")));
        }
        fsSession := create.reply.session.value;
      }
      var kept := SolverCookies.FilterCookies(jar, url);
      var cookies := SolverCookies.CookiejarToJsonable(kept);
      assert cookies == OutgoingCookies(jar, url);
      var post := FormParams.EncodeParams(params);
      if post.Err? {
        assert PayloadFor(cfg, fsSession, jar, cmd, url, params) == Err(ParamsError(post.error));
        return calls, Err(Other(ParamsError(post.error)));
      }
      var payload := Payload(cmd, url, cfg.maxTimeout, cookies, post.value, false, None);
      if WithImages(cfg) {
        payload := payload.(download := true);
      }
      if fsSession != "" {
        payload := payload.(session := Some(fsSession));
      }
      assert PayloadFor(cfg, fsSession, jar, cmd, url, params) == Ok(payload);
      calls := calls + [Forward(Endpoint(cfg), payload)];
      if main.Failed? {
        return calls, Err(Channel(main.failure));
      }
      return calls, Ok(main.reply);
    }

    /** `request`: forward the request and rebuild the response; the solver's
        cookies are stored in the jar one by one, replacing same-key cookies. */
    method Request(verb: string, url: string, params: FormParams.PyValue,
                   create: ChannelOutcome<SessionReply>, main: ChannelOutcome<Envelope>,
                   decode: string -> Option<seq<byte>>)
      returns (calls: seq<ControlCall>, r: Result<FetcherResponse, FetchError>)
      modifies this`fsSession, this`jar
      ensures Outcome(calls, fsSession, jar, r) ==
        RequestSpec(cfg, old(fsSession), old(jar), verb, url, params, create, main, decode)
    {
      if verb != "GET" && verb != "POST" {
        return [], Err(NotImplemented);
      }
      var fs;
      calls, fs := DoFsRequest(Cmd(verb), url, params, create, main);
      assert jar == old(jar);
      ghost var spec := FsRequestSpec(cfg, old(fsSession), jar, Cmd(verb), url, params, create, main);
      assert calls == spec.calls && fsSession == spec.session && fs == spec.result;
      r := Complete(url, fs, decode);
    }

    /** The second half of `request`: map the errors of `do_fs_request`, or store
        the solver's cookies and build the response. */
    method Complete(url: string, fs: Result<Envelope, Raised>, decode: string -> Option<seq<byte>>)
      returns (r: Result<FetcherResponse, FetchError>)
      modifies this`jar
      ensures (jar, r) == Completed(cfg, old(jar), url, fs, decode)
    {
      if fs.Err? {
        if fs.error.Channel? {
          return Err(ChannelError(fs.error.failure));
        }
        return Err(fs.error.error);
      }
      var env := fs.value;
      var rc := Reconstruct(cfg, url, env, decode);
      var cs := rc.0;
      if env.status.Some? && Solved(env) && env.solution.value.url.Some?
         && env.solution.value.cookies.Some? {
        var jarred := SolverCookies.CookiejsonToJarable(env.solution.value.cookies.value);
        assert jarred == cs;
      }
      StoreCookies(cs);
      r := rc.1;
    }
  }

  // ---------------------------------------------------------------- properties

  /** A method other than GET or POST fails before any call and changes nothing. */
  lemma OtherMethodsRejected(cfg: Config, session: string, jar: seq<SolverCookies.JarCookie>, verb: string,
                             url: string, params: FormParams.PyValue, create: ChannelOutcome<SessionReply>,
                             main: ChannelOutcome<Envelope>, decode: string -> Option<seq<byte>>)
    requires verb != "GET" && verb != "POST"
    ensures RequestSpec(cfg, session, jar, verb, url, params, create, main, decode)
            == Outcome([], session, jar, Err(NotImplemented))
  {
  }

  /** A session is created exactly when sessions are configured and none is held;
      a held session is kept and sent with the command; a created one is kept. */
  lemma SessionLifecycle(cfg: Config, session: string, jar: seq<SolverCookies.JarCookie>, cmd: string,
                         url: string, params: FormParams.PyValue, create: ChannelOutcome<SessionReply>,
                         main: ChannelOutcome<Envelope>)
    ensures var o := FsRequestSpec(cfg, session, jar, cmd, url, params, create, main);
      (|o.calls| > 0 && o.calls[0].CreateSession? <==> cfg.useSession && session == "")
    ensures var o := FsRequestSpec(cfg, session, jar, cmd, url, params, create, main);
      session != "" ==> o.session == session
    ensures var o := FsRequestSpec(cfg, session, jar, cmd, url, params, create, main);
      cfg.useSession && session == "" && create.Replied? && create.reply.session.Some? ==>
        o.session == create.reply.session.value
    ensures var o := FsRequestSpec(cfg, session, jar, cmd, url, params, create, main);
      forall i :: 0 <= i < |o.calls| && o.calls[i].Forward? ==>
        o.calls[i].payload.session == (if o.session != "" then Some(o.session) else None)
  {
  }

  /** The forwarded command: the lower-cased command name, the target URL, the
      configured timeout, the jar cookies whose domain occurs in the URL, the
      encoded parameters, `download` exactly in binary mode. */
  lemma PayloadContents(cfg: Config, session: string, jar: seq<SolverCookies.JarCookie>, cmd: string,
                        url: string, params: FormParams.PyValue, create: ChannelOutcome<SessionReply>,
                        main: ChannelOutcome<Envelope>)
    ensures var o := FsRequestSpec(cfg, session, jar, cmd, url, params, create, main);
      forall i :: 0 <= i < |o.calls| && o.calls[i].Forward? ==>
        var p := o.calls[i].payload;
        o.calls[i].endpoint == Endpoint(cfg) && p.cmd == cmd && p.url == url
        && p.maxTimeout == cfg.maxTimeout
        && p.download == WithImages(cfg)
        && FormParams.EncodedParams(params) == Ok(p.postData)
        && |p.cookies| == |SolverCookies.CookiesFor(jar, url)|
        && (forall c :: c in SolverCookies.CookiesFor(jar, url) ==> SolverCookies.Jsonable(c) in p.cookies)
  {
    var o := FsRequestSpec(cfg, session, jar, cmd, url, params, create, main);
    ForwardedPayload(cfg, session, jar, cmd, url, params, create, main);
    var kept := SolverCookies.CookiesFor(jar, url);
    OutgoingMembers(jar, url);
    forall i | 0 <= i < |o.calls| && o.calls[i].Forward?
      ensures o.calls[i].payload.cookies == OutgoingCookies(jar, url)
    {
      assert PayloadFor(cfg, o.session, jar, cmd, url, params) == Ok(o.calls[i].payload);
    }
  }

  /** Every command `do_fs_request` forwards is the payload built for the session it holds afterwards. */
  lemma ForwardedPayload(cfg: Config, session: string, jar: seq<SolverCookies.JarCookie>, cmd: string,
                         url: string, params: FormParams.PyValue, create: ChannelOutcome<SessionReply>,
                         main: ChannelOutcome<Envelope>)
    ensures var o := FsRequestSpec(cfg, session, jar, cmd, url, params, create, main);
      forall i :: 0 <= i < |o.calls| && o.calls[i].Forward? ==>
        o.calls[i].endpoint == Endpoint(cfg) && PayloadFor(cfg, o.session, jar, cmd, url, params) == Ok(o.calls[i].payload)
  {
  }

  /** The cookies sent are the dicts of the jar's cookies for the URL. */
  lemma OutgoingMembers(jar: seq<SolverCookies.JarCookie>, url: string)
    ensures |OutgoingCookies(jar, url)| == |SolverCookies.CookiesFor(jar, url)|
    ensures forall c :: c in SolverCookies.CookiesFor(jar, url) ==> SolverCookies.Jsonable(c) in OutgoingCookies(jar, url)
  {
    var kept := SolverCookies.CookiesFor(jar, url);
    var out := OutgoingCookies(jar, url);
    forall c | c in kept ensures SolverCookies.Jsonable(c) in out {
      var k :| 0 <= k < |kept| && kept[k] == c;
      assert out[k] == SolverCookies.Jsonable(c);
    }
  }

  /** A forwarded request's command is `request.get` or `request.post`. */
  lemma ForwardedCommand(cfg: Config, session: string, jar: seq<SolverCookies.JarCookie>, verb: string,
                         url: string, params: FormParams.PyValue, create: ChannelOutcome<SessionReply>,
                         main: ChannelOutcome<Envelope>, decode: string -> Option<seq<byte>>)
    ensures var o := RequestSpec(cfg, session, jar, verb, url, params, create, main, decode);
      forall i :: 0 <= i < |o.calls| && o.calls[i].Forward? ==>
        o.calls[i].payload.cmd in {"request.get", "request.post"}
  {
    CmdNames();
  }

  /** A response is returned exactly when the server solved the request with
      status 200, a URL and cookies, and its body was decoded in binary mode or
      is present and not an image; the content is then the decoded bytes or the text. */
  lemma ReconstructSucceeds(cfg: Config, requestUrl: string, env: Envelope, decode: string -> Option<seq<byte>>)
    ensures var r := Reconstruct(cfg, requestUrl, env, decode).1;
      r.Ok? <==>
        Solved(env) && env.solution.value.url.Some? && env.solution.value.cookies.Some?
        && env.solution.value.status.value == 200
        && (Decoded(cfg, env.solution.value, decode).Some?
            || (!IsImage(env.solution.value) && env.solution.value.response.Some?))
    ensures var r := Reconstruct(cfg, requestUrl, env, decode).1;
      r.Ok? ==>
        var sol := env.solution.value;
        r.value.redirectUrl == sol.url.value && !r.value.fromCache
        && r.value.content == (if Decoded(cfg, sol, decode).Some? then Binary(Decoded(cfg, sol, decode).value)
                               else Text(sol.response.value))
  {
  }

  /** A server-side failure (status other than "ok", or no solution status) is
      raised as 428 with the server's message, against the requested URL, and
      hands no cookies to the jar. */
  lemma SolverErrorIs428(cfg: Config, requestUrl: string, env: Envelope, decode: string -> Option<seq<byte>>)
    requires env.status.Some? && !Solved(env) && env.message.Some?
    ensures Reconstruct(cfg, requestUrl, env, decode) ==
      ([], Err(HttpError(requestUrl, 428, Text(env.message.value))))
  {
  }

  /** An image that was not decoded is never returned as text: it is raised as 428. */
  lemma UndecodedImageIs428(cfg: Config, requestUrl: string, env: Envelope, decode: string -> Option<seq<byte>>)
    requires Solved(env) && env.solution.value.url.Some? && env.solution.value.cookies.Some?
    requires IsImage(env.solution.value) && Decoded(cfg, env.solution.value, decode).None?
    ensures Reconstruct(cfg, requestUrl, env, decode).1 ==
      Err(HttpError(env.solution.value.url.value, 428, Text(ImageUnsupportedMessage)))
  {
  }

  /** A solved request with a status other than 200 is raised with that status
      and the body as its message. */
  lemma Non200Raised(cfg: Config, requestUrl: string, env: Envelope, decode: string -> Option<seq<byte>>)
    requires Solved(env) && env.solution.value.url.Some? && env.solution.value.cookies.Some?
    requires env.solution.value.status.value != 200
    requires Decoded(cfg, env.solution.value, decode).Some?
             || (!IsImage(env.solution.value) && env.solution.value.response.Some?)
    ensures var r := Reconstruct(cfg, requestUrl, env, decode).1;
      r.Err? && r.error.HttpError? && r.error.status == env.solution.value.status.value
      && r.error.url == env.solution.value.url.value
  {
  }

  /** The solver's cookies reach the jar whenever the solution had them, even
      when the request then fails (a non-200 status or an image). */
  lemma CookiesStoredBeforeErrors(cfg: Config, jar: seq<SolverCookies.JarCookie>, requestUrl: string, env: Envelope,
                                  decode: string -> Option<seq<byte>>)
    requires Solved(env) && env.solution.value.url.Some? && env.solution.value.cookies.Some?
    ensures var cs := Reconstruct(cfg, requestUrl, env, decode).0;
      |cs| == |env.solution.value.cookies.value|
      && forall i :: 0 <= i < |cs| ==> cs[i] == SolverCookies.Jarable(env.solution.value.cookies.value[i])
    ensures var cs := Reconstruct(cfg, requestUrl, env, decode).0;
      var newJar := Completed(cfg, jar, requestUrl, Ok(env), decode).0;
      (forall i: nat :: i < |cs| && SolverCookies.LastOfKey(cs, i) ==> cs[i] in newJar)
      && (forall d :: d in jar && SolverCookies.KeyAbsent(cs, d) ==> d in newJar)
      && (forall d :: d in newJar ==> d in jar || d in cs)
  {
    SolverCookies.StoredAllContents(jar, Reconstruct(cfg, requestUrl, env, decode).0);
  }

  /** A request never breaks the jar's one-cookie-per-key invariant. */
  lemma RequestKeepsJarKeysUnique(cfg: Config, session: string, jar: seq<SolverCookies.JarCookie>, verb: string,
                                  url: string, params: FormParams.PyValue, create: ChannelOutcome<SessionReply>,
                                  main: ChannelOutcome<Envelope>, decode: string -> Option<seq<byte>>)
    requires SolverCookies.UniqueKeys(jar)
    ensures SolverCookies.UniqueKeys(RequestSpec(cfg, session, jar, verb, url, params, create, main, decode).jar)
  {
    if verb == "GET" || verb == "POST" {
      var fs := FsRequestSpec(cfg, session, jar, Cmd(verb), url, params, create, main);
      if fs.result.Ok? {
        SolverCookies.StoredAllUnique(jar, Reconstruct(cfg, url, fs.result.value, decode).0);
      }
    }
  }
}
