/** The cookie-login variant of the author.today adapter
    (adapter_authortoday_login_work.py): the login attempt counter with the
    retry on an expired login page, the auth-cookie test, the reader-secret
    search and the chapter decryption without the HTML check.

    What the site answers enters as parameters; `site(n)` is the answer to the
    `n`-th attempt of the current login, so a retry sees a fresh answer. */
module AuthorTodayLoginWork {
  import opened Common
  import ChapterCipher
  import ChapterUrls

  type PyText = ChapterCipher.PyText

  const MaxLoginAttempts: int := 3
  /** The message with which the site rejects a stale login form. */
  const PageExpired: string := "Страница устарела"
  /** The message used when a rejection carries no `messages`. */
  const UnknownError: string := "Unknown error"

  // ---------------------------------------------------------------- login

  datatype LoginError =
    | NoUsername
    | NoPassword
    | AttemptsExceeded
    | CacheProbeFailed      // the account request with the cached cookies raised
    | NetworkError          // the login page or the login post failed
    | NoCsrfToken
    | Rejected(message: string)  // a JSON rejection, with its first message
    | Unexpected            // the rejection's `messages` list is empty
    | NoAuthCookie

  /** The browser-cache probe: no cached cookies, the account request raised,
      or it answered (`loggedIn`: status 200 and a logout link on the page). */
  datatype CacheProbe = NoCachedCookie | ProbeFailed | ProbeAnswered(loggedIn: bool)

  datatype LoginPage = PageUnreachable | PageWithoutCsrf | PageWithCsrf

  /** The reply to the login post: not reached, JSON, or not JSON (then the
      session's cookies as name/value pairs). */
  datatype PostReply =
    | PostUnreachable
    | PostJson(isSuccessful: bool, messages: Option<seq<string>>, userIdMatch: Option<PyText>)
    | PostNotJson(cookies: seq<(string, string)>)

  datatype Attempt = Attempt(cache: CacheProbe, page: LoginPage, post: PostReply)

  datatype LoginState = LoginState(loggedIn: bool, attempts: int, browserCacheChecked: bool,
                                   userId: Option<PyText>)

  /** `getAuthCookie`: some cookie is named LoginCookie or ngLoginCookie. */
  predicate HasAuthCookie(cookies: seq<(string, string)>)
  {
    exists i :: 0 <= i < |cookies| && (cookies[i].0 == "LoginCookie" || cookies[i].0 == "ngLoginCookie")
  }

  /** The message of a JSON rejection: the first of `messages`, "Unknown error"
      without them, None when the list is empty (an IndexError). */
  function FirstMessage(messages: Option<seq<string>>): Option<string>
  {
    match messages
    case None => Some(UnknownError)
    case Some(ms) => if ms == [] then None else Some(ms[0])
  }

  /** `performLogin`: the new field values and the outcome. */
  function Login(s: LoginState, username: string, password: string, useBrowserCache: bool,
                 site: int -> Attempt): (LoginState, Result<(), LoginError>)
    decreases MaxLoginAttempts - s.attempts
  {
    if s.loggedIn then (s, Ok(()))
    else if username == "" then (s, Err(NoUsername))
    else if password == "" then (s, Err(NoPassword))
    else if s.attempts + 1 > MaxLoginAttempts then (s.(attempts := 0), Err(AttemptsExceeded))
    else
      var n := s.attempts + 1;
      var a := site(n);
      var probe := useBrowserCache && !s.browserCacheChecked;
      var s1 := s.(attempts := n, browserCacheChecked := s.browserCacheChecked || useBrowserCache);
      if probe && a.cache.ProbeFailed? then (s1, Err(CacheProbeFailed))
      else if probe && a.cache == ProbeAnswered(true) then (s1.(loggedIn := true), Ok(()))
      else
        match a.page
        case PageUnreachable => (s1, Err(NetworkError))
        case PageWithoutCsrf => (s1, Err(NoCsrfToken))
        case PageWithCsrf =>
          match a.post
          case PostUnreachable => (s1, Err(NetworkError))
          case PostJson(isSuccessful, messages, userIdMatch) =>
            if isSuccessful then
              (s1.(loggedIn := true, userId := if userIdMatch.Some? then userIdMatch else s1.userId), Ok(()))
            else
              (match FirstMessage(messages)
               case None => (s1, Err(Unexpected))
               case Some(msg) =>
                 if Contains(msg, PageExpired) && n < MaxLoginAttempts then
                   Login(s1, username, password, useBrowserCache, site)
                 else (s1.(loggedIn := false, attempts := 0), Err(Rejected(msg))))
          case PostNotJson(cookies) =>
            if HasAuthCookie(cookies) then (s1.(loggedIn := true, attempts := 0), Ok(()))
            else (s1.(loggedIn := false, attempts := 0), Err(NoAuthCookie))
  }

  /** The counter stays within 0..3 and a call succeeds exactly when the
      adapter is logged in afterwards. */
  lemma {:induction false} LoginInvariants(s: LoginState, username: string, password: string,
                                           useBrowserCache: bool, site: int -> Attempt)
    requires 0 <= s.attempts <= MaxLoginAttempts
    ensures var (t, r) := Login(s, username, password, useBrowserCache, site);
            0 <= t.attempts <= MaxLoginAttempts
            && (r.Ok? <==> t.loggedIn)
            && (s.loggedIn ==> t == s)
    decreases MaxLoginAttempts - s.attempts
  {
    if !s.loggedIn && username != "" && password != "" && s.attempts + 1 <= MaxLoginAttempts {
      var n := s.attempts + 1;
      var s1 := s.(attempts := n, browserCacheChecked := s.browserCacheChecked || useBrowserCache);
      if n < MaxLoginAttempts {
        LoginInvariants(s1, username, password, useBrowserCache, site);
      }
    }
  }

  /** A rejection because the login page expired. */
  predicate ExpiredRejection(a: Attempt)
  {
    a.page == PageWithCsrf && a.post.PostJson? && !a.post.isSuccessful
    && FirstMessage(a.post.messages).Some? && Contains(FirstMessage(a.post.messages).value, PageExpired)
  }

  /** If every attempt meets an expired page, the login retries until its third
      attempt, then fails with the site's message and a reset counter. */
  lemma {:induction false} ExpiredPageRetriesUpToThree(s: LoginState, username: string, password: string,
                                                       site: int -> Attempt)
    requires !s.loggedIn && 0 <= s.attempts < MaxLoginAttempts && username != "" && password != ""
    requires forall n :: s.attempts < n <= MaxLoginAttempts ==> ExpiredRejection(site(n))
    requires ExpiredRejection(site(MaxLoginAttempts))
    ensures Login(s, username, password, false, site)
            == (s.(attempts := 0, loggedIn := false),
                Err(Rejected(FirstMessage(site(MaxLoginAttempts).post.messages).value)))
    decreases MaxLoginAttempts - s.attempts
  {
    var n := s.attempts + 1;
    assert ExpiredRejection(site(n));
    if n < MaxLoginAttempts {
      ExpiredPageRetriesUpToThree(s.(attempts := n), username, password, site);
    }
  }

  /** A rejection for any other reason, or an unrecognised non-JSON reply,
      resets the counter at once. */
  lemma OtherRejectionResets(s: LoginState, username: string, password: string, site: int -> Attempt)
    requires !s.loggedIn && 0 <= s.attempts < MaxLoginAttempts && username != "" && password != ""
    requires site(s.attempts + 1).page == PageWithCsrf
    requires site(s.attempts + 1).post.PostJson? || site(s.attempts + 1).post.PostNotJson?
    requires !ExpiredRejection(site(s.attempts + 1))
    requires Login(s, username, password, false, site).1.Err?
    requires site(s.attempts + 1).post.PostNotJson? || FirstMessage(site(s.attempts + 1).post.messages) != None
    ensures Login(s, username, password, false, site).0.attempts == 0
    ensures !Login(s, username, password, false, site).0.loggedIn
  {
  }

  // ---------------------------------------------------------------- chapter text

  /** The reader page: not loaded, or the results of the three secret patterns
      (`readerSecret = '…'`, `data-reader-secret='…'`, `"readerSecret": '…'`). */
  datatype ReaderPage = PageFailed | PageLoaded(secretMatches: seq<Option<PyText>>)

  /** `data` of the chapter JSON; absent keys are None. */
  datatype ChapterData = ChapterData(readerSecret: Option<PyText>, text: Option<PyText>)

  /** The chapter request: not reached, not JSON, or JSON with its headers
      (keyed by lower-case name), `isSuccessful`, `readerSecret` and `data`. */
  datatype ChapterReply =
    | ReplyUnreachable
    | ReplyNotJson
    | ReplyJson(headers: map<string, PyText>, isSuccessful: bool,
                readerSecret: Option<PyText>, data: Option<ChapterData>)

  /** A Python truth test on an optional string. */
  predicate Truthy(o: Option<PyText>)
  {
    o.Some? && o.value != []
  }

  /** The first pattern that matched. */
  function FirstMatch(matches: seq<Option<PyText>>): (m: Option<PyText>)
    decreases |matches|
  {
    if matches == [] then None
    else if matches[0].Some? then matches[0]
    else FirstMatch(matches[1..])
  }

  lemma {:induction false} FirstMatchIsFirst(matches: seq<Option<PyText>>)
    ensures FirstMatch(matches).Some? <==> exists i :: 0 <= i < |matches| && matches[i].Some?
    ensures FirstMatch(matches).Some? ==>
              exists i :: 0 <= i < |matches| && matches[i] == FirstMatch(matches)
                && forall k :: 0 <= k < i ==> matches[k].None?
    decreases |matches|
  {
    if matches != [] && matches[0].None? {
      FirstMatchIsFirst(matches[1..]);
      if exists i :: 0 <= i < |matches| && matches[i].Some? {
        var i :| 0 <= i < |matches| && matches[i].Some?;
        assert matches[1..][i - 1] == matches[i];
      }
      if FirstMatch(matches).Some? {
        var i :| 0 <= i < |matches[1..]| && matches[1..][i] == FirstMatch(matches[1..])
                 && forall k :: 0 <= k < i ==> matches[1..][k].None?;
        assert matches[i + 1] == FirstMatch(matches);
        forall k | 0 <= k < i + 1 ensures matches[k].None? {
          if k > 0 {
            assert matches[k] == matches[1..][k - 1];
          }
        }
      }
    } else if matches != [] {
      assert matches[0] == FirstMatch(matches);
    }
  }

  /** The header names tried in turn, as the lookup lowercases them. */
  const SecretHeaders: seq<string> := ["reader-secret", "reader-secret", "x-reader-secret", "x-reader-secret"]

  /** The first of the secret headers present, even with an empty value. */
  function HeaderSecret(headers: map<string, PyText>): (h: Option<PyText>)
  {
    if "reader-secret" in headers then Some(headers["reader-secret"])
    else if "x-reader-secret" in headers then Some(headers["x-reader-secret"])
    else None
  }

  /** The reader secret after the fallbacks, given the page's: the response
      headers, then `readerSecret`, then `data.readerSecret`, each consulted
      only while no truthy secret has been found. */
  function SecretAfterFallbacks(pageSecret: Option<PyText>, headers: map<string, PyText>,
                                readerSecret: Option<PyText>, data: Option<ChapterData>): Option<PyText>
  {
    if Truthy(pageSecret) then pageSecret
    else
      var s1 := if HeaderSecret(headers).Some? then HeaderSecret(headers) else pageSecret;
      var s2 := if !Truthy(s1) && readerSecret.Some? then readerSecret else s1;
      if !Truthy(s2) && data.Some? && data.value.readerSecret.Some? then data.value.readerSecret else s2
  }

  /** The secret found is the first truthy one in the order page, headers,
      `readerSecret`, `data.readerSecret`; a later source is used only when
      every earlier one gave nothing truthy. */
  lemma FallbackOrder(pageSecret: Option<PyText>, headers: map<string, PyText>,
                      readerSecret: Option<PyText>, data: Option<ChapterData>)
    ensures var s := SecretAfterFallbacks(pageSecret, headers, readerSecret, data);
            var dataSecret := if data.Some? then data.value.readerSecret else None;
            (Truthy(pageSecret) ==> s == pageSecret)
            && (!Truthy(pageSecret) && Truthy(HeaderSecret(headers)) ==> s == HeaderSecret(headers))
            && (!Truthy(pageSecret) && !Truthy(HeaderSecret(headers)) && Truthy(readerSecret) ==> s == readerSecret)
            && (!Truthy(pageSecret) && !Truthy(HeaderSecret(headers)) && !Truthy(readerSecret) ==>
                  (Truthy(s) <==> Truthy(dataSecret)) && (Truthy(s) ==> s == dataSecret))
  {
  }

  /** `getChapterText` once the ids are known and the login is settled: the
      decrypted text, or "" on a failed request, a reply that is not JSON or
      not successful, no truthy secret, or no `data.text`. The cleaning of the
      decrypted HTML is not part of this model. */
  function ChapterPlaintext(page: ReaderPage, reply: ChapterReply, userId: Option<PyText>): PyText
  {
    match page
    case PageFailed => []
    case PageLoaded(matches) =>
      match reply
      case ReplyJson(headers, isSuccessful, readerSecret, data) =>
        if !isSuccessful then []
        else
          var secret := SecretAfterFallbacks(FirstMatch(matches), headers, readerSecret, data);
          if !Truthy(secret) then []
          else if data.None? || data.value.text.None? then []
          else ChapterCipher.DecryptPlain(data.value.text.value, secret.value, userId)
      case _ => []
  }

  /** A chapter encrypted with the secret the page shows comes back unchanged. */
  lemma ChapterRoundTrip(matches: seq<Option<PyText>>, headers: map<string, PyText>,
                         readerSecret: Option<PyText>, secretInData: Option<PyText>,
                         html: PyText, userId: Option<PyText>)
    requires Truthy(FirstMatch(matches)) && html != []
    requires ChapterCipher.Transform(html, ChapterCipher.Key(FirstMatch(matches).value, userId)).Some?
    ensures var cipher := ChapterCipher.Transform(html, ChapterCipher.Key(FirstMatch(matches).value, userId)).value;
            ChapterPlaintext(PageLoaded(matches),
                             ReplyJson(headers, true, readerSecret, Some(ChapterData(secretInData, Some(cipher)))),
                             userId) == html
  {
    ChapterCipher.EncryptDecrypt(html, FirstMatch(matches).value, userId);
  }

  /** Without any truthy secret the chapter is "". */
  lemma NoSecretNoText(matches: seq<Option<PyText>>, headers: map<string, PyText>,
                       readerSecret: Option<PyText>, data: Option<ChapterData>, userId: Option<PyText>)
    requires !Truthy(FirstMatch(matches)) && !Truthy(HeaderSecret(headers)) && !Truthy(readerSecret)
    requires data.Some? ==> !Truthy(data.value.readerSecret)
    ensures ChapterPlaintext(PageLoaded(matches), ReplyJson(headers, true, readerSecret, data), userId) == []
  {
    FallbackOrder(FirstMatch(matches), headers, readerSecret, data);
  }

  // ---------------------------------------------------------------- the adapter

  class AuthorTodayLoginWorkAdapter {
    const username: string
    const password: string
    const useBrowserCache: bool

    var loggedIn: bool
    var loginAttempts: int
    var browserCacheChecked: bool
    var userId: Option<PyText>

    function LoginFields(): LoginState
      reads this
    {
      LoginState(loggedIn, loginAttempts, browserCacheChecked, userId)
    }

    constructor(username: string, password: string, useBrowserCache: bool)
      ensures this.username == username && this.password == password
      ensures this.useBrowserCache == useBrowserCache
      ensures LoginFields() == LoginState(false, 0, false, None)
    {
      this.username := username;
      this.password := password;
      this.useBrowserCache := useBrowserCache;
      loggedIn := false;
      loginAttempts := 0;
      browserCacheChecked := false;
      userId := None;
    }

    /** `getAuthCookie`: the cookies are copied into a dictionary, a later
        duplicate name overwriting an earlier one, and the dictionary is
        searched for the two auth cookie names. */
    method GetAuthCookie(cookies: seq<(string, string)>) returns (found: bool)
      ensures found == HasAuthCookie(cookies)
    {
      var dict: map<string, string> := map[];
      var i := 0;
      while i < |cookies|
        invariant 0 <= i <= |cookies|
        invariant forall name :: name in dict <==> exists k :: 0 <= k < i && cookies[k].0 == name
      {
        dict := dict[cookies[i].0 := cookies[i].1];
        i := i + 1;
      }
      found := "LoginCookie" in dict || "ngLoginCookie" in dict;
    }

    /** `performLogin`, recursing on an expired login page. */
    method PerformLogin(site: int -> Attempt) returns (r: Result<(), LoginError>)
      modifies this`loggedIn, this`loginAttempts, this`browserCacheChecked, this`userId
      ensures (LoginFields(), r) == Login(old(LoginFields()), username, password, useBrowserCache, site)
      decreases MaxLoginAttempts - loginAttempts
    {
      if loggedIn {
        return Ok(());
      }
      if username == "" {
        return Err(NoUsername);
      }
      if password == "" {
        return Err(NoPassword);
      }
      loginAttempts := loginAttempts + 1;
      if loginAttempts > MaxLoginAttempts {
        loginAttempts := 0;
        return Err(AttemptsExceeded);
      }
      var a := site(loginAttempts);
      if useBrowserCache && !browserCacheChecked {
        browserCacheChecked := true;
        match a.cache {
          case NoCachedCookie =>
          case ProbeFailed =>
            return Err(CacheProbeFailed);
          case ProbeAnswered(ok) =>
            if ok {
              loggedIn := true;
              return Ok(());
            }
        }
      }
      if a.page.PageUnreachable? {
        return Err(NetworkError);
      }
      if a.page.PageWithoutCsrf? {
        return Err(NoCsrfToken);
      }
      match a.post {
        case PostUnreachable =>
          r := Err(NetworkError);
        case PostJson(isSuccessful, messages, userIdMatch) =>
          if isSuccessful {
            loggedIn := true;
            if userIdMatch.Some? {
              userId := userIdMatch;
            }
            return Ok(());
          }
          var msg := FirstMessage(messages);
          if msg.None? {
            return Err(Unexpected);
          }
          if Contains(msg.value, PageExpired) && loginAttempts < MaxLoginAttempts {
            r := PerformLogin(site);
            return;
          }
          loggedIn := false;
          loginAttempts := 0;
          r := Err(Rejected(msg.value));
        case PostNotJson(cookies) =>
          var hasAuth := GetAuthCookie(cookies);
          if hasAuth {
            loggedIn := true;
            loginAttempts := 0;
            r := Ok(());
          } else {
            loggedIn := false;
            loginAttempts := 0;
            r := Err(NoAuthCookie);
          }
      }
    }

    /** `decrypt_chapter_text` without a content check. */
    method DecryptChapterText(encrypted: PyText, secret: PyText) returns (r: PyText)
      ensures r == ChapterCipher.DecryptPlain(encrypted, secret, userId)
    {
      if encrypted == [] || secret == [] {
        return [];
      }
      var key := ChapterCipher.Key(secret, userId);
      var decrypted := ChapterCipher.XorCycle(encrypted, key);
      if decrypted.None? {
        return [];
      }
      r := decrypted.value;
    }

    /** The pattern loop: the first pattern that matches gives the secret. */
    method PageSecret(matches: seq<Option<PyText>>) returns (secret: Option<PyText>)
      ensures secret == FirstMatch(matches)
    {
      secret := None;
      var i := 0;
      while i < |matches|
        invariant 0 <= i <= |matches|
        invariant FirstMatch(matches) == FirstMatch(matches[i..])
      {
        assert matches[i..][1..] == matches[i + 1..];
        if matches[i].Some? {
          secret := matches[i];
          return;
        }
        i := i + 1;
      }
      assert matches[i..] == [];
    }

    /** The header loop: the first listed name present gives the secret. */
    method LookUpSecretHeader(headers: map<string, PyText>) returns (secret: Option<PyText>)
      ensures secret == HeaderSecret(headers)
    {
      assert SecretHeaders[0] == SecretHeaders[1] == "reader-secret";
      assert SecretHeaders[2] == SecretHeaders[3] == "x-reader-secret";
      secret := None;
      var i := 0;
      while i < |SecretHeaders|
        invariant 0 <= i <= |SecretHeaders|
        invariant forall k :: 0 <= k < i ==> SecretHeaders[k] !in headers
      {
        if SecretHeaders[i] in headers {
          secret := Some(headers[SecretHeaders[i]]);
          return;
        }
        i := i + 1;
      }
    }

    /** `getChapterText`: no ids in the URL give "" before any login; a failed
        login gives "" as well, since the error is caught. */
    method GetChapterText(url: string, site: int -> Attempt, page: ReaderPage, reply: ChapterReply)
      returns (text: PyText)
      modifies this`loggedIn, this`loginAttempts, this`browserCacheChecked, this`userId
      ensures ChapterUrls.ChapterIds(url).None? ==> text == [] && LoginFields() == old(LoginFields())
      ensures ChapterUrls.ChapterIds(url).Some? ==>
                var (s, lr) := Login(old(LoginFields()), username, password, useBrowserCache, site);
                LoginFields() == s
                && text == (if lr.Err? then [] else ChapterPlaintext(page, reply, s.userId))
    {
      if ChapterUrls.ChapterIds(url).None? {
        return [];
      }
      if !loggedIn {
        var lr := PerformLogin(site);
        if lr.Err? {
          return [];
        }
      }
      if page.PageFailed? {
        return [];
      }
      var secret := PageSecret(page.secretMatches);
      if !reply.ReplyJson? || !reply.isSuccessful {
        return [];
      }
      if !Truthy(secret) {
        var fromHeader := LookUpSecretHeader(reply.headers);
        if fromHeader.Some? {
          secret := fromHeader;
        }
        if !Truthy(secret) && reply.readerSecret.Some? {
          secret := reply.readerSecret;
        }
        if !Truthy(secret) && reply.data.Some? && reply.data.value.readerSecret.Some? {
          secret := reply.data.value.readerSecret;
        }
      }
      if !Truthy(secret) {
        return [];
      }
      if reply.data.None? || reply.data.value.text.None? {
        return [];
      }
      text := DecryptChapterText(reply.data.value.text.value, secret.value);
    }
  }
}
