/** The older author.today adapter (adapter_authortoday_backup.py): the
    credential fallback of `performLogin`, the chapter id and the
    case-insensitive `reader-secret` header lookup of `getChapterText`, and the
    chapter decryption without the HTML check. */
module AuthorTodayBackup {
  import opened Common
  import ChapterCipher
  import ChapterUrls

  type PyText = ChapterCipher.PyText

  /** The marker of a failed login on the page the login post returns. */
  const LoggedOutMarker: string := "isLoggedIn = false"

  // ---------------------------------------------------------------- login

  /** What `performLogin` posts: the credentials and the CSRF token when the
      login page carries a `csrf-token` meta tag. */
  datatype LoginParams = LoginParams(username: string, password: string, csrfToken: Option<string>)

  datatype LoginError =
    | NoUsername           // FailedToLogin: no username anywhere
    | RequestFailed        // the login page or the login post raised
    | LoggedOut            // the returned page still says "isLoggedIn = false"

  /** The site's side of a login: the login page (None when the request
      raised; otherwise its CSRF meta content, if any), and the text the post
      returns (None when it raised) with the `userId = <digits>` match on it. */
  datatype LoginExchange = LoginExchange(page: Option<Option<string>>, posted: Option<string>,
                                         userIdMatch: Option<PyText>)

  /** The credentials used: the adapter's own, unless its username is empty;
      then both come from the configuration. */
  function Credentials(username: string, password: string, configUsername: string, configPassword: string)
    : (string, string)
  {
    if username == "" then (configUsername, configPassword) else (username, password)
  }

  /** `performLogin`: the parameters posted, or the error, and the new user id. */
  function Login(username: string, password: string, configUsername: string, configPassword: string,
                 ex: LoginExchange, userId: Option<PyText>): (Result<LoginParams, LoginError>, Option<PyText>)
  {
    var (user, pass) := Credentials(username, password, configUsername, configPassword);
    if user == "" then (Err(NoUsername), userId)
    else if ex.page.None? || ex.posted.None? then (Err(RequestFailed), userId)
    else if Contains(ex.posted.value, LoggedOutMarker) then (Err(LoggedOut), userId)
    else (Ok(LoginParams(user, pass, ex.page.value)), if ex.userIdMatch.Some? then ex.userIdMatch else userId)
  }

  /** The configuration is consulted exactly when the adapter has no username,
      and then for the password too; a login posts a non-empty username; the
      user id changes only on success, and only when the page shows one. */
  lemma LoginFallback(username: string, password: string, configUsername: string, configPassword: string,
                      ex: LoginExchange, userId: Option<PyText>)
    ensures var (r, uid) := Login(username, password, configUsername, configPassword, ex, userId);
            (r.Ok? && username == "" ==> r.value.username == configUsername && r.value.password == configPassword)
            && (r.Ok? && username != "" ==> r.value.username == username && r.value.password == password)
            && (r.Ok? ==> r.value.username != "")
            && (r == Err(NoUsername) <==> username == "" && configUsername == "")
            && (r.Err? || ex.userIdMatch.None? ==> uid == userId)
  {
  }

  // ---------------------------------------------------------------- chapter text

  /** The chapter request: not reached, not JSON, or JSON with the response
      headers in their order, `isSuccessful` and `data.text` (None when absent). */
  datatype ChapterReply =
    | ReplyUnreachable
    | ReplyNotJson
    | ReplyJson(headers: seq<(string, PyText)>, isSuccessful: bool, text: Option<PyText>)

  /** The value of the first header whose lowercased name is `reader-secret`. */
  function SecretHeader(headers: seq<(string, PyText)>): (h: Option<PyText>)
    decreases |headers|
  {
    if headers == [] then None
    else if Lower(headers[0].0) == "reader-secret" then Some(headers[0].1)
    else SecretHeader(headers[1..])
  }

  /** The lookup finds a value exactly when some header has the name in any
      case, and it is the value of the first such header. */
  lemma {:induction false} SecretHeaderIsFirst(headers: seq<(string, PyText)>)
    ensures SecretHeader(headers).Some? <==>
              exists i :: 0 <= i < |headers| && Lower(headers[i].0) == "reader-secret"
    ensures SecretHeader(headers).Some? ==>
              exists i :: 0 <= i < |headers| && Lower(headers[i].0) == "reader-secret"
                && SecretHeader(headers).value == headers[i].1
                && forall k :: 0 <= k < i ==> Lower(headers[k].0) != "reader-secret"
    decreases |headers|
  {
    if headers != [] && Lower(headers[0].0) != "reader-secret" {
      SecretHeaderIsFirst(headers[1..]);
      if exists i :: 0 <= i < |headers| && Lower(headers[i].0) == "reader-secret" {
        var i :| 0 <= i < |headers| && Lower(headers[i].0) == "reader-secret";
        assert headers[1..][i - 1] == headers[i];
      }
      if SecretHeader(headers).Some? {
        var i :| 0 <= i < |headers[1..]| && Lower(headers[1..][i].0) == "reader-secret"
                 && SecretHeader(headers[1..]).value == headers[1..][i].1
                 && forall k :: 0 <= k < i ==> Lower(headers[1..][k].0) != "reader-secret";
        assert headers[i + 1] == headers[1..][i];
        forall k | 0 <= k < i + 1 ensures Lower(headers[k].0) != "reader-secret" {
          if k > 0 {
            assert headers[k] == headers[1..][k - 1];
          }
        }
      }
    } else if headers != [] {
      assert Lower(headers[0].0) == "reader-secret";
    }
  }

  /** `getChapterText`: "" without a `/reader/<digits>/<digits>` in the URL, on
      a failed request, a reply that is not JSON or not successful, no (or an
      empty) reader-secret header, or no `data.text`; otherwise the decryption.
      The cleaning of the decrypted HTML is not part of this model. */
  function ChapterPlaintext(url: string, reply: ChapterReply, userId: Option<PyText>): PyText
  {
    if ChapterUrls.BackupChapterId(url).None? then []
    else
      match reply
      case ReplyJson(headers, isSuccessful, text) =>
        if !isSuccessful then []
        else
          var secret := SecretHeader(headers);
          if secret.None? || secret.value == [] then []
          else if text.None? then []
          else ChapterCipher.DecryptPlain(text.value, secret.value, userId)
      case _ => []
  }

  /** A chapter encrypted with the secret of its first reader-secret header
      comes back unchanged. */
  lemma ChapterRoundTrip(url: string, headers: seq<(string, PyText)>, html: PyText, userId: Option<PyText>)
    requires ChapterUrls.BackupChapterId(url).Some?
    requires SecretHeader(headers).Some? && SecretHeader(headers).value != [] && html != []
    requires ChapterCipher.Transform(html, ChapterCipher.Key(SecretHeader(headers).value, userId)).Some?
    ensures var cipher := ChapterCipher.Transform(html, ChapterCipher.Key(SecretHeader(headers).value, userId)).value;
            ChapterPlaintext(url, ReplyJson(headers, true, Some(cipher)), userId) == html
  {
    ChapterCipher.EncryptDecrypt(html, SecretHeader(headers).value, userId);
  }

  /** Without a reader-secret header, in any case, the chapter is "". */
  lemma NoHeaderNoText(url: string, headers: seq<(string, PyText)>, isSuccessful: bool,
                       text: Option<PyText>, userId: Option<PyText>)
    requires forall i :: 0 <= i < |headers| ==> Lower(headers[i].0) != "reader-secret"
    ensures ChapterPlaintext(url, ReplyJson(headers, isSuccessful, text), userId) == []
  {
    SecretHeaderIsFirst(headers);
  }

  // ---------------------------------------------------------------- the adapter

  class AuthorTodayBackupAdapter {
    /** None (here "") after construction; the caller may set them. */
    var username: string
    var password: string
    var userId: Option<PyText>

    constructor()
      ensures username == "" && password == "" && userId == None
    {
      username := "";
      password := "";
      userId := None;
    }

    /** `performLogin`. */
    method PerformLogin(configUsername: string, configPassword: string, ex: LoginExchange)
      returns (r: Result<LoginParams, LoginError>)
      modifies this`userId
      ensures (r, userId) == Login(username, password, configUsername, configPassword, ex, old(userId))
    {
      var user := username;
      var pass := password;
      if user == "" {
        user := configUsername;
        pass := configPassword;
      }
      if user == "" {
        return Err(NoUsername);
      }
      if ex.page.None? || ex.posted.None? {
        return Err(RequestFailed);
      }
      if Contains(ex.posted.value, LoggedOutMarker) {
        return Err(LoggedOut);
      }
      if ex.userIdMatch.Some? {
        userId := ex.userIdMatch;
      }
      r := Ok(LoginParams(user, pass, ex.page.value));
    }

    /** `decrypt_chapter_text`. */
    method DecryptChapterText(encrypted: PyText, secret: PyText) returns (r: PyText)
      ensures r == ChapterCipher.DecryptPlain(encrypted, secret, userId)
    {
      if encrypted == [] || secret == [] {
        return [];
      }
      var key := ChapterCipher.Key(secret, userId);
      var decrypted := ChapterCipher.XorCycle(encrypted, key);
      if decrypted.None? {
        return [];
      }
      r := decrypted.value;
    }

    /** The header loop of `getChapterText`, stopping at the first match. */
    method FindSecretHeader(headers: seq<(string, PyText)>) returns (secret: Option<PyText>)
      ensures secret == SecretHeader(headers)
    {
      var i := 0;
      while i < |headers|
        invariant 0 <= i <= |headers|
        invariant SecretHeader(headers[i..]) == SecretHeader(headers)
      {
        assert headers[i..][1..] == headers[i + 1..];
        if Lower(headers[i].0) == "reader-secret" {
          return Some(headers[i].1);
        }
        i := i + 1;
      }
      return None;
    }

    /** `getChapterText`. */
    method GetChapterText(url: string, reply: ChapterReply) returns (text: PyText)
      ensures text == ChapterPlaintext(url, reply, userId)
    {
      var chapterId := ChapterUrls.BackupChapterId(url);
      if chapterId.None? {
        return [];
      }
      if !reply.ReplyJson? || !reply.isSuccessful {
        return [];
      }
      var secret := FindSecretHeader(reply.headers);
      if secret.None? || secret.value == [] {
        return [];
      }
      if reply.text.None? {
        return [];
      }
      text := DecryptChapterText(reply.text.value, secret.value);
    }
  }
}
