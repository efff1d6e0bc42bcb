/** The author.today adapter (adapter_authortoday.py). It covers:
    - the login attempt counter and the login flags;
    - chapter decryption with the HTML check;
    - the image download rules and the image statistics of `getChapterText`;
    - the image URL collection of `extract_images`;
    - the gallery chapter.

    The HTTP session, the HTML parser and the story object are not part of the
    model. What they return enters as parameters: the outcome of a login
    exchange, a chapter reply, the `src` values of a chapter's `<img>` tags,
    the outcome of fetching an image URL. */
module AuthorToday {
  import opened Common
  import ChapterCipher
  import ChapterUrls

  type PyText = ChapterCipher.PyText

  const SiteRoot: string := "https://author.today"
  /** Only images under this prefix are downloaded. */
  const ImageHost: string := "https://cm.author.today/"
  /** A download shorter than this is taken for an error page. */
  const MinImageBytes: nat := 100
  const MaxLoginAttempts: int := 3

  // ---------------------------------------------------------------- login

  /** Why `performLogin` raised `FailedToLogin`. */
  datatype LoginError =
    | NoUsername
    | NoPassword
    | AttemptsExceeded
    | NetworkError      // a request of the exchange failed
    | NoCsrfToken       // the login page has no `__RequestVerificationToken` input
    | NoAuthCookie      // after the login post the jar holds no auth cookie
    | NoToken           // the bearer-token reply has no `token`
    | BadTokenReply     // the bearer-token reply is not JSON, or lacks `userId`, or its `expires` does not parse

  /** The login page request and the login post. */
  datatype LoginPage =
    | PageUnreachable
    | PageWithoutCsrf
    | Posted(cookieNames: seq<string>)   // the names of the session's cookies after the post

  /** The bearer-token request. */
  datatype TokenReply =
    | TokenUnreachable
    | TokenNotJson
    | TokenJson(token: Option<string>, userId: Option<PyText>, expiresParses: bool)

  /** What the site answers during one login attempt. */
  datatype LoginExchange = LoginExchange(page: LoginPage, token: TokenReply)

  /** The adapter fields that `performLogin` reads and writes. */
  datatype LoginState = LoginState(
    loggedIn: bool, attempts: int, browserCacheChecked: bool,
    bearerToken: Option<string>, userId: Option<PyText>)

  /** `getAuthCookie`: some cookie is named LoginCookie or ngLoginCookie. */
  predicate HasAuthCookie(names: seq<string>)
  {
    exists i :: 0 <= i < |names| && (names[i] == "LoginCookie" || names[i] == "ngLoginCookie")
  }

  /** `performLogin`: the new field values and the outcome. */
  function Login(s: LoginState, username: string, password: string, useBrowserCache: bool,
                 ex: LoginExchange): (LoginState, Result<(), LoginError>)
  {
    if s.loggedIn then (s, Ok(()))
    else if username == "" then (s, Err(NoUsername))
    else if password == "" then (s, Err(NoPassword))
    else if s.attempts + 1 > MaxLoginAttempts then (s.(attempts := 0), Err(AttemptsExceeded))
    else
      var s1 := s.(attempts := s.attempts + 1,
                   browserCacheChecked := s.browserCacheChecked || useBrowserCache);
      match ex.page
      case PageUnreachable => (s1, Err(NetworkError))
      case PageWithoutCsrf => (s1, Err(NoCsrfToken))
      case Posted(names) =>
        if !HasAuthCookie(names) then (s1, Err(NoAuthCookie))
        else
          match ex.token
          case TokenUnreachable => (s1, Err(NetworkError))
          case TokenNotJson => (s1, Err(BadTokenReply))
          case TokenJson(token, userId, expiresParses) =>
            if token.None? then (s1, Err(NoToken))
            else
              var s2 := s1.(bearerToken := token);
              if userId.None? then (s2, Err(BadTokenReply))
              else
                var s3 := s2.(userId := userId);
                if !expiresParses then (s3, Err(BadTokenReply))
                else (s3.(loggedIn := true, attempts := 0), Ok(()))
  }

  /** The counter stays within 0..3, a call succeeds exactly when the adapter is
      logged in afterwards, and a fresh success leaves the counter at 0 with a
      bearer token and a user id. */
  lemma LoginInvariants(s: LoginState, username: string, password: string, useBrowserCache: bool,
                        ex: LoginExchange)
    requires 0 <= s.attempts <= MaxLoginAttempts
    ensures var (t, r) := Login(s, username, password, useBrowserCache, ex);
            0 <= t.attempts <= MaxLoginAttempts
            && (r.Ok? <==> t.loggedIn)
            && (s.loggedIn ==> t == s)
            && (!s.loggedIn && r.Ok? ==> t.attempts == 0 && t.bearerToken.Some? && t.userId.Some?)
  {
  }

  /** A failed attempt with credentials counts: the counter goes up by one, or,
      past the third attempt, is reset and the call refused. */
  lemma FailedAttemptCounts(s: LoginState, username: string, password: string, useBrowserCache: bool,
                            ex: LoginExchange)
    requires !s.loggedIn && username != "" && password != ""
    requires Login(s, username, password, useBrowserCache, ex).1.Err?
    ensures var t := Login(s, username, password, useBrowserCache, ex).0;
            !t.loggedIn
            && (s.attempts < MaxLoginAttempts ==> t.attempts == s.attempts + 1)
            && (s.attempts >= MaxLoginAttempts ==> t.attempts == 0)
  {
  }

  /** Three failed attempts in a row from a fresh counter make the fourth call
      fail at once, whatever the site would answer, and reset the counter. */
  lemma {:induction false} FourthAttemptRefused(s: LoginState, username: string, password: string, useBrowserCache: bool,
                                                e1: LoginExchange, e2: LoginExchange, e3: LoginExchange, e4: LoginExchange)
    requires !s.loggedIn && s.attempts == 0 && username != "" && password != ""
    requires Login(s, username, password, useBrowserCache, e1).1.Err?
    requires Login(Login(s, username, password, useBrowserCache, e1).0, username, password, useBrowserCache, e2).1.Err?
    requires Login(Login(Login(s, username, password, useBrowserCache, e1).0, username, password, useBrowserCache, e2).0,
                   username, password, useBrowserCache, e3).1.Err?
    ensures var s3 := Login(Login(Login(s, username, password, useBrowserCache, e1).0, username, password, useBrowserCache, e2).0,
                            username, password, useBrowserCache, e3).0;
            Login(s3, username, password, useBrowserCache, e4) == (s3.(attempts := 0), Err(AttemptsExceeded))
  {
    var s1 := Login(s, username, password, useBrowserCache, e1).0;
    FailedAttemptCounts(s, username, password, useBrowserCache, e1);
    var s2 := Login(s1, username, password, useBrowserCache, e2).0;
    FailedAttemptCounts(s1, username, password, useBrowserCache, e2);
    FailedAttemptCounts(s2, username, password, useBrowserCache, e3);
  }

  /** `checkLogin`: logged in with a non-empty bearer token that has not
      expired, and the profile request answers 200. `profileStatus` is None
      when that request raises. */
  function CheckLogin(s: LoginState, tokenExpired: bool, profileStatus: Option<int>): (ok: bool)
  {
    if !s.loggedIn || s.bearerToken.None? || s.bearerToken.value == "" then false
    else if tokenExpired then false
    else profileStatus == Some(200)
  }

  /** The check passes exactly when all four conditions hold, so it never
      passes before a successful login. */
  lemma CheckLoginIff(s: LoginState, tokenExpired: bool, profileStatus: Option<int>)
    ensures CheckLogin(s, tokenExpired, profileStatus) <==>
              s.loggedIn && s.bearerToken.Some? && s.bearerToken.value != ""
              && !tokenExpired && profileStatus == Some(200)
    ensures CheckLogin(LoginState(false, 0, false, None, None), tokenExpired, profileStatus) == false
  {
  }

  // ---------------------------------------------------------------- chapter text

  /** The chapter request: `text` and `key` are None when the JSON lacks them;
      `contentType` is the response's `content-type` header, None when absent. */
  datatype ChapterReply =
    | ReplyUnreachable
    | ReplyNotJson
    | ReplyJson(text: Option<PyText>, key: Option<PyText>, contentType: Option<string>)

  /** The text `getChapterText` decrypts, or "" on any of its early returns: no
      ids in the URL, no bearer token, a failed request, a reply that is not
      JSON or lacks `text` or `key`, a decryption that gives "". */
  function ChapterPlaintext(url: string, bearerToken: Option<string>, reply: ChapterReply,
                            userId: Option<PyText>): (text: PyText)
  {
    if ChapterUrls.ChapterIds(url).None? then []
    else if bearerToken.None? || bearerToken.value == "" then []
    else
      match reply
      case ReplyJson(Some(cipher), Some(key), _) => ChapterCipher.DecryptChecked(cipher, key, userId)
      case _ => []
  }

  /** A chapter whose HTML was encrypted with the key of the reply comes back
      unchanged, given ids in the URL and a bearer token; and what comes back is
      always HTML-looking or nothing. */
  lemma ChapterRoundTrip(url: string, token: string, html: PyText, key: PyText, userId: Option<PyText>,
                         contentType: Option<string>)
    requires ChapterUrls.ChapterIds(url).Some? && token != ""
    requires html != [] && key != []
    requires ChapterCipher.LessThan in html && ChapterCipher.GreaterThan in html
    requires ChapterCipher.Transform(html, ChapterCipher.Key(key, userId)).Some?
    ensures ChapterPlaintext(url, Some(token),
              ReplyJson(Some(ChapterCipher.Transform(html, ChapterCipher.Key(key, userId)).value), Some(key),
                        contentType),
              userId) == html
  {
    ChapterCipher.EncryptDecrypt(html, key, userId);
  }

  // ---------------------------------------------------------------- images

  /** The keys of the `image_types` counters. */
  datatype ImageClass = JpegImage | PngImage | GifImage | WebpImage | OtherImage

  const AllClasses: set<ImageClass> := {JpegImage, PngImage, GifImage, WebpImage, OtherImage}

  lemma ClassInAll(c: ImageClass)
    ensures c in AllClasses
  {
    match c
    case JpegImage =>
    case PngImage =>
    case GifImage =>
    case WebpImage =>
    case OtherImage =>
  }

  /** The content-type classifier of `getChapterText`, on the lowercased header:
      the first of jpeg (or jpg), png, gif, webp that occurs, else other. */
  function Classify(contentType: string): (c: ImageClass)
  {
    var ct := Lower(contentType);
    if Contains(ct, "jpeg") || Contains(ct, "jpg") then JpegImage
    else if Contains(ct, "png") then PngImage
    else if Contains(ct, "gif") then GifImage
    else if Contains(ct, "webp") then WebpImage
    else OtherImage
  }

  /** `download_image` accepts a content type holding one of these. */
  predicate AcceptedContentType(contentType: string)
  {
    var ct := Lower(contentType);
    Contains(ct, "image/jpeg") || Contains(ct, "image/png")
    || Contains(ct, "image/gif") || Contains(ct, "image/webp")
  }

  /** What fetching an image URL gives: an exception, or the body and the
      `content-type` header (None when absent). */
  datatype ImageFetch = FetchFailed | Fetched(content: seq<byte>, contentType: Option<string>)

  /** `headers.get('content-type', '')`. */
  function HeaderOrEmpty(h: Option<string>): string
  {
    if h.Some? then h.value else ""
  }

  /** `download_image`: the body, or None. */
  function DownloadImage(url: string, fetch: ImageFetch): (data: Option<seq<byte>>)
  {
    if url == [] || !StartsWith(url, ImageHost) then None
    else
      match fetch
      case FetchFailed => None
      case Fetched(content, contentType) =>
        if |content| < MinImageBytes then None
        else if !AcceptedContentType(HeaderOrEmpty(contentType)) then None
        else Some(content)
  }

  /** A download succeeds exactly for a URL under the image host whose fetch
      gave at least 100 bytes of an accepted type, and yields those bytes. */
  lemma DownloadImageAccepts(url: string, fetch: ImageFetch)
    ensures DownloadImage(url, fetch).Some? <==>
              StartsWith(url, ImageHost) && fetch.Fetched? && |fetch.content| >= MinImageBytes
              && AcceptedContentType(HeaderOrEmpty(fetch.contentType))
    ensures DownloadImage(url, fetch).Some? ==> DownloadImage(url, fetch).value == fetch.content
  {
  }

  /** Every accepted content type is classified as jpeg, png, gif or webp. */
  lemma AcceptedNeverOther(contentType: string)
    requires AcceptedContentType(contentType)
    ensures Classify(contentType) != OtherImage
  {
    var ct := Lower(contentType);
    if Contains(ct, "image/jpeg") {
      assert "image/jpeg" == "image/" + "jpeg";
      ContainsParts(ct, "image/", "jpeg");
    } else if Contains(ct, "image/png") {
      assert "image/png" == "image/" + "png";
      ContainsParts(ct, "image/", "png");
    } else if Contains(ct, "image/gif") {
      assert "image/gif" == "image/" + "gif";
      ContainsParts(ct, "image/", "gif");
    } else {
      assert "image/webp" == "image/" + "webp";
      ContainsParts(ct, "image/", "webp");
    }
  }

  /** The type an image is counted under, as `getChapterText` is written: the
      `content-type` of the CHAPTER response, not of the image. */
  function ImageClassAsWritten(chapterContentType: Option<string>, image: ImageFetch): ImageClass
  {
    Classify(HeaderOrEmpty(chapterContentType))
  }

  /** The type an image is counted under: that of its own response. */
  function ImageClassOf(image: ImageFetch): ImageClass
  {
    Classify(HeaderOrEmpty(if image.Fetched? then image.contentType else None))
  }

  /** `ImageClassAsWritten` for one chapter, as a classifier of images. */
  function ChapterClassifier(chapterContentType: Option<string>): ImageFetch -> ImageClass
  {
    image => ImageClassAsWritten(chapterContentType, image)
  }

  /** A JPEG and a PNG image of the same chapter: as written both are counted
      under one class, whatever the chapter response's content type; by their
      own types they are counted as jpeg and png. */
  lemma ImageClassDiscrepancy(chapterContentType: Option<string>)
    ensures var jpeg := Fetched(seq(100, i => 0), Some("image/jpeg"));
            var png := Fetched(seq(100, i => 0), Some("image/png"));
            DownloadImage("https://cm.author.today/a.jpg", jpeg).Some?
            && DownloadImage("https://cm.author.today/b.png", png).Some?
            && ImageClassAsWritten(chapterContentType, jpeg) == ImageClassAsWritten(chapterContentType, png)
            && ImageClassOf(jpeg) == JpegImage
            && ImageClassOf(png) == PngImage
  {
    assert StartsWith("https://cm.author.today/a.jpg", ImageHost);
    assert StartsWith("https://cm.author.today/b.png", ImageHost);
    JpegType();
    PngType();
  }

  lemma JpegType()
    ensures AcceptedContentType("image/jpeg") && Classify("image/jpeg") == JpegImage
  {
    LowerUnchanged("image/jpeg");
    assert Contains("image/jpeg", "image/jpeg") by { assert StartsWith("image/jpeg", "image/jpeg"); }
  }

  lemma PngType()
    ensures AcceptedContentType("image/png") && Classify("image/png") == PngImage
  {
    LowerUnchanged("image/png");
    assert Contains("image/png", "image/png") by { assert StartsWith("image/png", "image/png"); }
    assert Contains("image/png", "png") by {
      assert "image/png" == "image/" + "png";
      ContainsParts("image/png", "image/", "png");
    }
    assert 'j' !in "image/png";
    if Contains("image/png", "jpeg") {
      ContainsHead("image/png", "jpeg");
    }
    if Contains("image/png", "jpg") {
      ContainsHead("image/png", "jpg");
    }
  }

  /** A downloaded image is counted under its own type, which is never "other". */
  lemma DownloadedImageClass(url: string, image: ImageFetch)
    requires DownloadImage(url, image).Some?
    ensures ImageClassOf(image) != OtherImage
  {
    AcceptedNeverOther(HeaderOrEmpty(image.contentType));
  }

  /** The book-wide download counters and `image_types`. */
  datatype Tally = Tally(successful: int, failed: int, types: map<ImageClass, int>)

  /** One `<img>` of a chapter: skipped without a `src` or off the image host;
      otherwise a success counted under the class `classOf` gives the image, or
      a failure. */
  function TallyImage(t: Tally, src: Option<string>, fetch: string -> ImageFetch,
                      classOf: ImageFetch -> ImageClass): (u: Tally)
    requires t.types.Keys == AllClasses
    ensures u.types.Keys == AllClasses
  {
    if src.None? || src.value == "" || !StartsWith(src.value, ImageHost) then t
    else
      match DownloadImage(src.value, fetch(src.value))
      case None => t.(failed := t.failed + 1)
      case Some(_) =>
        var c := classOf(fetch(src.value));
        ClassInAll(c);
        t.(successful := t.successful + 1, types := t.types[c := t.types[c] + 1])
  }

  /** The image loop of `getChapterText` over the chapter's `<img>` tags. */
  function TallyAll(t: Tally, srcs: seq<Option<string>>, fetch: string -> ImageFetch,
                    classOf: ImageFetch -> ImageClass): (u: Tally)
    requires t.types.Keys == AllClasses
    ensures u.types.Keys == AllClasses
    decreases |srcs|
  {
    if srcs == [] then t else TallyAll(TallyImage(t, srcs[0], fetch, classOf), srcs[1..], fetch, classOf)
  }

  /** The tags a download is attempted for: a `src` under the image host. */
  function Attempted(srcs: seq<Option<string>>): nat
    decreases |srcs|
  {
    if srcs == [] then 0
    else (if srcs[0].Some? && StartsWith(srcs[0].value, ImageHost) then 1 else 0) + Attempted(srcs[1..])
  }

  function TypesTotal(m: map<ImageClass, int>): int
    requires m.Keys == AllClasses
  {
    m[JpegImage] + m[PngImage] + m[GifImage] + m[WebpImage] + m[OtherImage]
  }

  /** Every attempt is a success or a failure, every success is counted under
      exactly one type, and none under "other". */
  lemma {:induction false} TallyCounts(t: Tally, srcs: seq<Option<string>>, fetch: string -> ImageFetch)
    requires t.types.Keys == AllClasses
    ensures var u := TallyAll(t, srcs, fetch, ImageClassOf);
            (u.successful - t.successful) + (u.failed - t.failed) == Attempted(srcs)
            && TypesTotal(u.types) - TypesTotal(t.types) == u.successful - t.successful
            && u.types[OtherImage] == t.types[OtherImage]
            && u.successful >= t.successful && u.failed >= t.failed
    decreases |srcs|
  {
    if srcs != [] {
      var src := srcs[0];
      var t1 := TallyImage(t, src, fetch, ImageClassOf);
      if src.Some? && src.value != "" && StartsWith(src.value, ImageHost)
         && DownloadImage(src.value, fetch(src.value)).Some? {
        DownloadedImageClass(src.value, fetch(src.value));
      }
      TallyCounts(t1, srcs[1..], fetch);
    }
  }

  /** The tally as `getChapterText` is written: every attempt is a success or a
      failure, and every success is counted under the one class of the
      chapter response's content type, whatever the image. */
  lemma {:induction false} TallyAsWritten(t: Tally, chapterContentType: Option<string>,
                                          srcs: seq<Option<string>>, fetch: string -> ImageFetch)
    requires t.types.Keys == AllClasses
    ensures var u := TallyAll(t, srcs, fetch, ChapterClassifier(chapterContentType));
            var c := Classify(HeaderOrEmpty(chapterContentType));
            (u.successful - t.successful) + (u.failed - t.failed) == Attempted(srcs)
            && u.types == t.types[c := t.types[c] + (u.successful - t.successful)]
            && u.successful >= t.successful && u.failed >= t.failed
    decreases |srcs|
  {
    var c := Classify(HeaderOrEmpty(chapterContentType));
    if srcs == [] {
      assert t.types == t.types[c := t.types[c]];
    } else {
      var classOf := ChapterClassifier(chapterContentType);
      var t1 := TallyImage(t, srcs[0], fetch, classOf);
      TallyImageAsWritten(t, chapterContentType, srcs[0], fetch);
      TallyAsWritten(t1, chapterContentType, srcs[1..], fetch);
      var u := TallyAll(t1, srcs[1..], fetch, classOf);
      assert u.types == t.types[c := t.types[c] + (u.successful - t.successful)];
    }
  }

  /** One image of the as-written tally. */
  lemma TallyImageAsWritten(t: Tally, chapterContentType: Option<string>, src: Option<string>,
                            fetch: string -> ImageFetch)
    requires t.types.Keys == AllClasses
    ensures var u := TallyImage(t, src, fetch, ChapterClassifier(chapterContentType));
            var c := Classify(HeaderOrEmpty(chapterContentType));
            (u.successful - t.successful) + (u.failed - t.failed)
              == (if src.Some? && StartsWith(src.value, ImageHost) then 1 else 0)
            && u.types == t.types[c := t.types[c] + (u.successful - t.successful)]
            && u.successful >= t.successful && u.failed >= t.failed
  {
    var c := Classify(HeaderOrEmpty(chapterContentType));
    assert t.types == t.types[c := t.types[c]];
  }

  /** A chapter served as `text/html` with one JPEG image on the image host: as
      written the image is counted as "other"; by its own type, as jpeg. */
  lemma ChapterTallyDiscrepancy()
    ensures var t := Tally(0, 0, map[JpegImage := 0, PngImage := 0, GifImage := 0, WebpImage := 0, OtherImage := 0]);
            var srcs := [Some("https://cm.author.today/a.jpg")];
            var fetch := (u: string) => Fetched(seq(100, i => 0), Some("image/jpeg"));
            var asWritten := TallyAll(t, srcs, fetch, ChapterClassifier(Some("text/html")));
            var corrected := TallyAll(t, srcs, fetch, ImageClassOf);
            asWritten.successful == 1 && asWritten.types[OtherImage] == 1 && asWritten.types[JpegImage] == 0
            && corrected.successful == 1 && corrected.types[JpegImage] == 1 && corrected.types[OtherImage] == 0
  {
    var jpeg := Fetched(seq(100, i => 0), Some("image/jpeg"));
    assert StartsWith("https://cm.author.today/a.jpg", ImageHost);
    JpegType();
    assert DownloadImage("https://cm.author.today/a.jpg", jpeg).Some?;
    HtmlIsOther();
  }

  /** `text/html` holds none of the image type names. */
  lemma HtmlIsOther()
    ensures Classify("text/html") == OtherImage
  {
    var ct := "text/html";
    LowerUnchanged(ct);
    assert 'j' !in ct && 'p' !in ct && 'g' !in ct && 'w' !in ct;
    NoTypeName(ct);
  }

  /** A lowercase content type without 'j', 'p', 'g' or 'w' is classified "other". */
  lemma NoTypeName(ct: string)
    requires Lower(ct) == ct
    requires 'j' !in ct && 'p' !in ct && 'g' !in ct && 'w' !in ct
    ensures Classify(ct) == OtherImage
  {
    AbsentHead(ct, "jpeg");
    AbsentHead(ct, "jpg");
    AbsentHead(ct, "png");
    AbsentHead(ct, "gif");
    AbsentHead(ct, "webp");
  }

  /** A string does not contain a pattern whose first character it lacks. */
  lemma AbsentHead(s: string, sub: string)
    requires |sub| > 0 && sub[0] !in s
    ensures !Contains(s, sub)
  {
    if Contains(s, sub) {
      ContainsHead(s, sub);
    }
  }

  // ---------------------------------------------------------------- extract_images

  /** An entry of the work's `galleryImages`; absent keys are None. */
  datatype GalleryEntry = GalleryEntry(url: Option<string>, caption: Option<string>)

  /** What `extract_images` reads from one selected tag: the attributes src,
      data-src, data-original, data-image, data-url, and the URL of a
      `background-image` in its style (None when the pattern does not match). */
  datatype ImageTag = ImageTag(
    src: Option<string>, dataSrc: Option<string>, dataOriginal: Option<string>,
    dataImage: Option<string>, dataUrl: Option<string>, styleUrl: Option<string>)

  /** One step of the attribute loop. An attribute sets `src` (to None when
      absent); the style pattern sets it only when it matches, and otherwise
      leaves `src` as the previous step left it. */
  datatype Slot = Attribute(value: Option<string>) | StyleMatch(found: Option<string>)

  function SlotsOf(tag: ImageTag): seq<Slot>
  {
    [Attribute(tag.src), Attribute(tag.dataSrc), Attribute(tag.dataOriginal),
     Attribute(tag.dataImage), Attribute(tag.dataUrl), StyleMatch(tag.styleUrl)]
  }

  function AllSlots(tags: seq<ImageTag>): seq<Slot>
    decreases |tags|
  {
    if tags == [] then [] else SlotsOf(tags[0]) + AllSlots(tags[1..])
  }

  /** The URL normalisation of `extract_images`. */
  function NormaliseImageUrl(src: string): (u: string)
    ensures StartsWith(u, "http")
  {
    if StartsWith(src, "http") then src
    else if StartsWith(src, "//") then "https:" + src
    else if StartsWith(src, "/") then SiteRoot + src
    else SiteRoot + "/" + src
  }

  /** Normalising twice is normalising once, and each form maps as documented. */
  lemma NormaliseImageUrlProperties(src: string)
    ensures NormaliseImageUrl(NormaliseImageUrl(src)) == NormaliseImageUrl(src)
    ensures StartsWith(src, "http") ==> NormaliseImageUrl(src) == src
    ensures !StartsWith(src, "http") && StartsWith(src, "//") ==> NormaliseImageUrl(src) == "https:" + src
    ensures !StartsWith(src, "/") && !StartsWith(src, "http") ==> NormaliseImageUrl(src) == "https://author.today/" + src
  {
  }

  /** The gallery part of `extract_images`: each entry's url, unless present. */
  function GallerySources(sources: seq<string>, entries: seq<GalleryEntry>): seq<string>
    decreases |entries|
  {
    if entries == [] then sources
    else
      var e := entries[0];
      GallerySources(if e.url.Some? && e.url.value !in sources then sources + [e.url.value] else sources,
                     entries[1..])
  }

  /** The state of the attribute loop: the sources so far and the `src` variable. */
  datatype Scan = Scan(sources: seq<string>, src: Option<string>)

  /** One step as written: the duplicate test looks at the RAW value, while
      the normalised one is what gets stored. */
  function StepAsWritten(st: Scan, slot: Slot): Scan
  {
    var src := if slot.Attribute? then slot.value else if slot.found.Some? then slot.found else st.src;
    if src.None? || src.value == "" || src.value in st.sources then st.(src := src)
    else
      var u := NormaliseImageUrl(src.value);
      if StartsWith(u, ImageHost) then Scan(st.sources + [u], Some(u)) else Scan(st.sources, Some(u))
  }

  /** One step, with the duplicate test on the normalised URL. */
  function Step(st: Scan, slot: Slot): Scan
  {
    var src := if slot.Attribute? then slot.value else if slot.found.Some? then slot.found else st.src;
    if src.None? || src.value == "" then st.(src := src)
    else
      var u := NormaliseImageUrl(src.value);
      if StartsWith(u, ImageHost) && u !in st.sources then Scan(st.sources + [u], Some(u))
      else Scan(st.sources, Some(u))
  }

  function ScanAsWritten(st: Scan, slots: seq<Slot>): Scan
    decreases |slots|
  {
    if slots == [] then st else ScanAsWritten(StepAsWritten(st, slots[0]), slots[1..])
  }

  function ScanAll(st: Scan, slots: seq<Slot>): Scan
    decreases |slots|
  {
    if slots == [] then st else ScanAll(Step(st, slots[0]), slots[1..])
  }

  /** The image sources of `extract_images` as written. */
  function SourcesAsWritten(gallery: seq<GalleryEntry>, tags: seq<ImageTag>): seq<string>
  {
    ScanAsWritten(Scan(GallerySources([], gallery), None), AllSlots(tags)).sources
  }

  /** The image sources with the duplicate test on the normalised URL. */
  function Sources(gallery: seq<GalleryEntry>, tags: seq<ImageTag>): seq<string>
  {
    ScanAll(Scan(GallerySources([], gallery), None), AllSlots(tags)).sources
  }

  predicate NoDuplicates(s: seq<string>)
  {
    forall i, j :: 0 <= i < j < |s| ==> s[i] != s[j]
  }

  lemma NoDuplicatesSnoc(s: seq<string>, x: string)
    requires NoDuplicates(s) && x !in s
    ensures NoDuplicates(s + [x])
  {
  }

  lemma {:induction false} GallerySourcesUnique(sources: seq<string>, entries: seq<GalleryEntry>)
    requires NoDuplicates(sources)
    ensures NoDuplicates(GallerySources(sources, entries))
    ensures forall u :: u in sources ==> u in GallerySources(sources, entries)
    decreases |entries|
  {
    if entries != [] {
      var e := entries[0];
      var next := if e.url.Some? && e.url.value !in sources then sources + [e.url.value] else sources;
      if e.url.Some? && e.url.value !in sources {
        NoDuplicatesSnoc(sources, e.url.value);
      }
      GallerySourcesUnique(next, entries[1..]);
    }
  }

  /** With the test on the normalised URL, the scan never stores a URL twice,
      and everything it adds lies under the image host. */
  lemma {:induction false} ScanUnique(st: Scan, slots: seq<Slot>)
    requires NoDuplicates(st.sources)
    ensures NoDuplicates(ScanAll(st, slots).sources)
    ensures StartsWith(ScanAll(st, slots).sources, st.sources)
    ensures forall k :: |st.sources| <= k < |ScanAll(st, slots).sources| ==>
              StartsWith(ScanAll(st, slots).sources[k], ImageHost)
    decreases |slots|
  {
    if slots != [] {
      var next := Step(st, slots[0]);
      if |next.sources| > |st.sources| {
        NoDuplicatesSnoc(st.sources, next.sources[|st.sources|]);
      }
      ScanUnique(next, slots[1..]);
      var r := ScanAll(st, slots).sources;
      assert r[..|next.sources|] == next.sources;
      assert r[..|st.sources|] == st.sources;
    }
  }

  /** The image sources hold no duplicates, and those beyond the gallery's lie
      under the image host. */
  lemma SourcesUnique(gallery: seq<GalleryEntry>, tags: seq<ImageTag>)
    ensures NoDuplicates(Sources(gallery, tags))
    ensures var g := GallerySources([], gallery);
            StartsWith(Sources(gallery, tags), g)
            && forall k :: |g| <= k < |Sources(gallery, tags)| ==> StartsWith(Sources(gallery, tags)[k], ImageHost)
  {
    GallerySourcesUnique([], gallery);
    ScanUnique(Scan(GallerySources([], gallery), None), AllSlots(tags));
  }

  /** A tag whose only attribute is `src`. */
  function SrcOnly(src: string): ImageTag
  {
    ImageTag(Some(src), None, None, None, None, None)
  }

  /** The slots of a `src`-only tag after the first. */
  const EmptySlots: seq<Slot> := [Attribute(None), Attribute(None), Attribute(None), Attribute(None), StyleMatch(None)]

  lemma SrcOnlySlots(raw: string)
    ensures SlotsOf(SrcOnly(raw)) == [Attribute(Some(raw))] + EmptySlots
  {
  }

  /** Slots that set nothing change nothing once `src` is None. */
  lemma {:induction false} ScanNothing(st: Scan, slots: seq<Slot>)
    requires st.src.None?
    requires forall k :: 0 <= k < |slots| ==> slots[k] in {Attribute(None), StyleMatch(None)}
    ensures ScanAll(st, slots) == st && ScanAsWritten(st, slots) == st
    decreases |slots|
  {
    if slots != [] {
      assert Step(st, slots[0]) == st && StepAsWritten(st, slots[0]) == st;
      ScanNothing(st, slots[1..]);
    }
  }

  /** The five empty slots of a `src`-only tag reset `src` and keep the sources. */
  lemma ScanEmptySlots(st: Scan)
    ensures ScanAll(st, EmptySlots) == Scan(st.sources, None)
    ensures ScanAsWritten(st, EmptySlots) == Scan(st.sources, None)
  {
    var next := Scan(st.sources, None);
    assert Step(st, EmptySlots[0]) == next && StepAsWritten(st, EmptySlots[0]) == next;
    ScanNothing(next, EmptySlots[1..]);
  }

  /** As written, a `src`-only tag whose raw value is not yet stored adds its
      normalised URL when that lies under the image host. */
  lemma ScanSrcOnlyAsWritten(st: Scan, raw: string)
    requires raw != [] && raw !in st.sources && StartsWith(NormaliseImageUrl(raw), ImageHost)
    ensures ScanAsWritten(st, SlotsOf(SrcOnly(raw))) == Scan(st.sources + [NormaliseImageUrl(raw)], None)
  {
    SrcOnlySlots(raw);
    var st1 := StepAsWritten(st, Attribute(Some(raw)));
    assert st1.sources == st.sources + [NormaliseImageUrl(raw)];
    ScanEmptySlots(st1);
    assert ([Attribute(Some(raw))] + EmptySlots)[1..] == EmptySlots;
  }

  /** The same for a tag whose normalised URL is not yet stored. */
  lemma ScanSrcOnly(st: Scan, raw: string)
    requires raw != [] && StartsWith(NormaliseImageUrl(raw), ImageHost)
    requires NormaliseImageUrl(raw) !in st.sources
    ensures ScanAll(st, SlotsOf(SrcOnly(raw))) == Scan(st.sources + [NormaliseImageUrl(raw)], None)
  {
    SrcOnlySlots(raw);
    var st1 := Step(st, Attribute(Some(raw)));
    assert st1.sources == st.sources + [NormaliseImageUrl(raw)];
    ScanEmptySlots(st1);
    assert ([Attribute(Some(raw))] + EmptySlots)[1..] == EmptySlots;
  }

  /** A protocol-relative URL gets the https scheme. */
  lemma NormaliseProtocolRelative()
    ensures NormaliseImageUrl("//cm.author.today/a.jpg") == "https://cm.author.today/a.jpg"
  {
    var raw := "//cm.author.today/a.jpg";
    assert !StartsWith(raw, "http") by {
      assert raw[..4][0] == '/';
    }
    assert StartsWith(raw, "//") by {
      assert raw[..2] == "//";
    }
    assert "https:" + raw == "https://cm.author.today/a.jpg";
  }

  /** As written, the same protocol-relative image met twice is stored twice:
      the stored URL is the normalised one, the test compares the raw one. */
  lemma DuplicateSourceAsWritten()
    ensures var tag := SrcOnly("//cm.author.today/a.jpg");
            SourcesAsWritten([], [tag, tag]) == ["https://cm.author.today/a.jpg", "https://cm.author.today/a.jpg"]
  {
    var raw := "//cm.author.today/a.jpg";
    var url := "https://cm.author.today/a.jpg";
    var tag := SrcOnly(raw);
    NormaliseProtocolRelative();
    assert StartsWith(url, ImageHost);
    assert raw != url by { assert raw[0] != url[0]; }
    ScanSrcOnlyAsWritten(Scan([], None), raw);
    ScanSrcOnlyAsWritten(Scan([url], None), raw);
    assert AllSlots([tag, tag]) == SlotsOf(tag) + SlotsOf(tag) by {
      assert [tag, tag][1..] == [tag];
      assert AllSlots([tag]) == SlotsOf(tag) + AllSlots([]);
    }
    assert GallerySources([], []) == [];
    ScanAsWrittenAppend(Scan([], None), SlotsOf(tag), SlotsOf(tag));
  }

  lemma {:induction false} ScanAsWrittenAppend(st: Scan, a: seq<Slot>, b: seq<Slot>)
    ensures ScanAsWritten(st, a + b) == ScanAsWritten(ScanAsWritten(st, a), b)
    decreases |a|
  {
    if a != [] {
      assert (a + b)[0] == a[0];
      assert (a + b)[1..] == a[1..] + b;
      ScanAsWrittenAppend(StepAsWritten(st, a[0]), a[1..], b);
    } else {
      assert a + b == b;
    }
  }

  /** The downloads of `extract_images`: the accepted ones, in source order. */
  function Downloaded(sources: seq<string>, fetch: string -> ImageFetch): (images: seq<seq<byte>>)
    ensures |images| <= |sources|
    ensures forall k :: 0 <= k < |images| ==> |images[k]| >= MinImageBytes
    decreases |sources|
  {
    if sources == [] then []
    else
      var rest := Downloaded(sources[..|sources| - 1], fetch);
      var u := sources[|sources| - 1];
      match DownloadImage(u, fetch(u))
      case None => rest
      case Some(data) => rest + [data]
  }

  /** As written, `extract_images` passes `headers=` to `download_image`, which
      takes no such parameter; the TypeError is caught for every URL, so no
      image is ever returned. */
  function ExtractedAsWritten(gallery: seq<GalleryEntry>, tags: seq<ImageTag>, fetch: string -> ImageFetch)
    : seq<seq<byte>>
  {
    []
  }

  /** A page whose one image would download returns nothing as written. */
  lemma ExtractedDiscrepancy(fetch: string -> ImageFetch)
    requires fetch("https://cm.author.today/a.jpg") == Fetched(seq(100, i => 0), Some("image/jpeg"))
    ensures var tag := SrcOnly("https://cm.author.today/a.jpg");
            Downloaded(Sources([], [tag]), fetch) != []
            && ExtractedAsWritten([], [tag], fetch) == []
  {
    var url := "https://cm.author.today/a.jpg";
    var tag := SrcOnly(url);
    assert StartsWith(url, "http") && StartsWith(url, ImageHost);
    assert NormaliseImageUrl(url) == url;
    ScanSrcOnly(Scan([], None), url);
    assert AllSlots([tag]) == SlotsOf(tag) by {
      assert AllSlots([tag]) == SlotsOf(tag) + AllSlots([]);
    }
    assert GallerySources([], []) == [];
    assert Sources([], [tag]) == [url];
    JpegType();
    assert DownloadImage(url, fetch(url)).Some?;
  }

  // ---------------------------------------------------------------- gallery chapter

  /** The file name of the `k`-th gallery image that has a url. */
  function ImageName(k: nat): string
  {
    "ffdl-" + NatToString(k) + ".jpg"
  }

  lemma ImageNamesDistinct(j: nat, k: nat)
    requires j != k
    ensures ImageName(j) != ImageName(k)
  {
    NatToStringInjective(j, k);
    NameDigits(j);
    NameDigits(k);
  }

  /** The digits sit between the five-character prefix and the extension. */
  lemma NameDigits(k: nat)
    ensures |ImageName(k)| == |NatToString(k)| + 9
    ensures ImageName(k)[5..|ImageName(k)| - 4] == NatToString(k)
  {
  }

  /** A gallery image that gets a name: its url, caption ("" when absent) and name. */
  datatype NamedImage = NamedImage(url: string, caption: string, name: string)

  /** The entries with a url, named `ffdl-0.jpg`, `ffdl-1.jpg`, ... in order. */
  function Named(entries: seq<GalleryEntry>): (named: seq<NamedImage>)
    ensures |named| <= |entries|
    decreases |entries|
  {
    if entries == [] then []
    else
      var before := Named(entries[..|entries| - 1]);
      var e := entries[|entries| - 1];
      if e.url.Some? then before + [NamedImage(e.url.value, HeaderOrEmpty(e.caption), ImageName(|before|))]
      else before
  }

  /** The k-th named image is called `ffdl-k.jpg`, so no two share a name. */
  lemma {:induction false} NamedInOrder(entries: seq<GalleryEntry>)
    ensures forall k :: 0 <= k < |Named(entries)| ==> Named(entries)[k].name == ImageName(k)
    ensures forall j, k :: 0 <= j < k < |Named(entries)| ==> Named(entries)[j].name != Named(entries)[k].name
    decreases |entries|
  {
    if entries != [] {
      NamedInOrder(entries[..|entries| - 1]);
    }
    forall j, k | 0 <= j < k < |Named(entries)|
      ensures Named(entries)[j].name != Named(entries)[k].name
    {
      ImageNamesDistinct(j, k);
    }
  }

  /** The HTML lines of one gallery item. */
  function ItemLines(image: NamedImage): seq<string>
  {
    ["<div class=\"gallery-item\">",
     "<img src=\"images/" + image.name + "\" alt=\"" + image.caption + "\"/>"]
    + (if image.caption != "" then ["<div class=\"gallery-caption\"><p>" + image.caption + "</p></div>"] else [])
    + ["</div>"]
  }

  /** The items of the named images that the story accepted (`added(url)` is
      false when `addImgUrl` raised: that image still used up its name). */
  function Items(named: seq<NamedImage>, added: string -> bool): seq<string>
    decreases |named|
  {
    if named == [] then []
    else
      var n := named[|named| - 1];
      Items(named[..|named| - 1], added) + (if added(n.url) then ItemLines(n) else [])
  }

  function CountAdded(named: seq<NamedImage>, added: string -> bool): nat
    decreases |named|
  {
    if named == [] then 0
    else CountAdded(named[..|named| - 1], added) + (if added(named[|named| - 1].url) then 1 else 0)
  }

  /** One more gallery entry names one more image exactly when it has a url. */
  lemma NamedStep(gallery: seq<GalleryEntry>, i: nat)
    requires i < |gallery|
    ensures Named(gallery[..i + 1])
            == if gallery[i].url.Some?
               then Named(gallery[..i]) + [NamedImage(gallery[i].url.value, HeaderOrEmpty(gallery[i].caption),
                                                      ImageName(|Named(gallery[..i])|))]
               else Named(gallery[..i])
  {
    assert gallery[..i + 1][..i] == gallery[..i];
  }

  /** One more named image adds its lines and its count exactly when it was added. */
  lemma AddedStep(named: seq<NamedImage>, n: NamedImage, added: string -> bool)
    ensures Items(named + [n], added) == Items(named, added) + (if added(n.url) then ItemLines(n) else [])
    ensures CountAdded(named + [n], added) == CountAdded(named, added) + (if added(n.url) then 1 else 0)
  {
    assert (named + [n])[..|named|] == named;
  }

  // ---------------------------------------------------------------- the adapter

  class AuthorTodayAdapter {
    const username: string
    const password: string
    const useBrowserCache: bool
    const extractImages: bool

    var loggedIn: bool
    var loginAttempts: int
    var browserCacheChecked: bool
    var bearerToken: Option<string>
    var userId: Option<PyText>

    var totalBookImages: int
    var successfulBookDownloads: int
    var failedBookDownloads: int
    var chaptersProcessed: int
    var imageTypes: map<ImageClass, int>

    function LoginFields(): LoginState
      reads this
    {
      LoginState(loggedIn, loginAttempts, browserCacheChecked, bearerToken, userId)
    }

    function TallyFields(): Tally
      reads this
    {
      Tally(successfulBookDownloads, failedBookDownloads, imageTypes)
    }

    /** The counter is within 0..3 and every image type has a counter. */
    predicate Valid()
      reads this
    {
      0 <= loginAttempts <= MaxLoginAttempts && imageTypes.Keys == AllClasses
    }

    constructor(username: string, password: string, useBrowserCache: bool, extractImages: bool)
      ensures this.username == username && this.password == password
      ensures this.useBrowserCache == useBrowserCache && this.extractImages == extractImages
      ensures LoginFields() == LoginState(false, 0, false, None, None)
      ensures totalBookImages == 0 && chaptersProcessed == 0
      ensures TallyFields() == Tally(0, 0, map[JpegImage := 0, PngImage := 0, GifImage := 0, WebpImage := 0, OtherImage := 0])
      ensures Valid()
    {
      this.username := username;
      this.password := password;
      this.useBrowserCache := useBrowserCache;
      this.extractImages := extractImages;
      loggedIn := false;
      loginAttempts := 0;
      browserCacheChecked := false;
      bearerToken := None;
      userId := None;
      totalBookImages := 0;
      successfulBookDownloads := 0;
      failedBookDownloads := 0;
      chaptersProcessed := 0;
      imageTypes := map[JpegImage := 0, PngImage := 0, GifImage := 0, WebpImage := 0, OtherImage := 0];
    }

    /** `performLogin`. */
    method PerformLogin(ex: LoginExchange) returns (r: Result<(), LoginError>)
      requires Valid()
      modifies this`loggedIn, this`loginAttempts, this`browserCacheChecked, this`bearerToken, this`userId
      ensures Valid() && (r.Ok? <==> loggedIn)
      ensures (LoginFields(), r) == Login(old(LoginFields()), username, password, useBrowserCache, ex)
    {
      if loggedIn {
        return Ok(());
      }
      if username == "" {
        return Err(NoUsername);
      }
      if password == "" {
        return Err(NoPassword);
      }
      loginAttempts := loginAttempts + 1;
      if loginAttempts > MaxLoginAttempts {
        loginAttempts := 0;
        return Err(AttemptsExceeded);
      }
      if useBrowserCache && !browserCacheChecked {
        browserCacheChecked := true;
      }
      match ex.page {
        case PageUnreachable =>
          return Err(NetworkError);
        case PageWithoutCsrf =>
          return Err(NoCsrfToken);
        case Posted(names) =>
          if !HasAuthCookie(names) {
            return Err(NoAuthCookie);
          }
      }
      match ex.token {
        case TokenUnreachable =>
          r := Err(NetworkError);
        case TokenNotJson =>
          r := Err(BadTokenReply);
        case TokenJson(token, uid, expiresParses) =>
          if token.None? {
            return Err(NoToken);
          }
          bearerToken := token;
          if uid.None? {
            return Err(BadTokenReply);
          }
          userId := uid;
          if !expiresParses {
            return Err(BadTokenReply);
          }
          loggedIn := true;
          loginAttempts := 0;
          r := Ok(());
      }
    }

    /** `decrypt_chapter_text` with the HTML check. */
    method DecryptChapterText(encrypted: PyText, secret: PyText) returns (r: PyText)
      ensures r == ChapterCipher.DecryptChecked(encrypted, secret, userId)
    {
      if encrypted == [] || secret == [] {
        return [];
      }
      var key := ChapterCipher.Key(secret, userId);
      var decrypted := ChapterCipher.XorCycle(encrypted, key);
      if decrypted.None? {
        return [];
      }
      if !(ChapterCipher.LessThan in decrypted.value && ChapterCipher.GreaterThan in decrypted.value) {
        return [];
      }
      r := decrypted.value;
    }

    /** The image loop of `getChapterText`, with each image counted under its
      own type. */
    method CountChapterImages(srcs: seq<Option<string>>, fetch: string -> ImageFetch)
      requires Valid()
      ensures Valid()
      modifies this`successfulBookDownloads, this`failedBookDownloads, this`imageTypes
      ensures TallyFields() == TallyAll(old(TallyFields()), srcs, fetch, ImageClassOf)
    {
      var i := 0;
      while i < |srcs|
        invariant 0 <= i <= |srcs|
        invariant Valid()
        invariant TallyAll(TallyFields(), srcs[i..], fetch, ImageClassOf)
                  == TallyAll(old(TallyFields()), srcs, fetch, ImageClassOf)
      {
        assert srcs[i..][1..] == srcs[i + 1..];
        CountImage(srcs[i], fetch);
        i := i + 1;
      }
      assert srcs[i..] == [];
    }

    /** One `<img>` of the image loop. */
    method CountImage(src: Option<string>, fetch: string -> ImageFetch)
      requires Valid()
      ensures Valid()
      modifies this`successfulBookDownloads, this`failedBookDownloads, this`imageTypes
      ensures TallyFields() == TallyImage(old(TallyFields()), src, fetch, ImageClassOf)
    {
      if src.Some? && src.value != "" && StartsWith(src.value, ImageHost) {
        var image := fetch(src.value);
        var data := DownloadImage(src.value, image);
        if data.Some? {
          successfulBookDownloads := successfulBookDownloads + 1;
          var c := ImageClassOf(image);
          ClassInAll(c);
          imageTypes := imageTypes[c := imageTypes[c] + 1];
        } else {
          failedBookDownloads := failedBookDownloads + 1;
        }
      }
    }

    /** The decryption part of `getChapterText`, once logged in: the early
        returns give "". */
    method ChapterText(url: string, reply: ChapterReply) returns (text: PyText)
      ensures text == ChapterPlaintext(url, bearerToken, reply, userId)
    {
      if ChapterUrls.ChapterIds(url).None? {
        return [];
      }
      if bearerToken.None? || bearerToken.value == "" {
        return [];
      }
      if !(reply.ReplyJson? && reply.text.Some? && reply.key.Some?) {
        return [];
      }
      text := DecryptChapterText(reply.text.value, reply.key.value);
    }

    /** The image bookkeeping of `getChapterText` for a decrypted chapter. */
    method RecordImages(images: seq<Option<string>>, fetch: string -> ImageFetch)
      requires Valid()
      ensures Valid()
      modifies this`totalBookImages, this`successfulBookDownloads, this`failedBookDownloads, this`imageTypes
      ensures totalBookImages == old(totalBookImages) + |images|
      ensures TallyFields() == (if extractImages then TallyAll(old(TallyFields()), images, fetch, ImageClassOf) else old(TallyFields()))
    {
      totalBookImages := totalBookImages + |images|;
      if extractImages {
        CountChapterImages(images, fetch);
      }
    }

    /** `getChapterText` for a chapter URL: log in when needed (a failed login
        propagates), then decrypt, then count the chapter's images. The result
        is the decrypted HTML, or "" on the early returns. */
    method GetChapterText(url: string, ex: LoginExchange, reply: ChapterReply,
                          images: seq<Option<string>>, fetch: string -> ImageFetch)
      returns (r: Result<PyText, LoginError>)
      requires Valid()
      ensures Valid()
      modifies this`loggedIn, this`loginAttempts, this`browserCacheChecked, this`bearerToken, this`userId
      modifies this`totalBookImages, this`successfulBookDownloads, this`failedBookDownloads
      modifies this`chaptersProcessed, this`imageTypes
      ensures chaptersProcessed == old(chaptersProcessed) + 1
      ensures var (s, lr) := Login(old(LoginFields()), username, password, useBrowserCache, ex);
              LoginFields() == s
              && r == (if lr.Err? then Err(lr.error) else Ok(ChapterPlaintext(url, s.bearerToken, reply, s.userId)))
      ensures r.Ok? && r.value != [] ==>
                totalBookImages == old(totalBookImages) + |images|
                && TallyFields() == (if extractImages then TallyAll(old(TallyFields()), images, fetch, ImageClassOf) else old(TallyFields()))
      ensures !(r.Ok? && r.value != []) ==>
                totalBookImages == old(totalBookImages) && TallyFields() == old(TallyFields())
    {
      chaptersProcessed := chaptersProcessed + 1;
      if !loggedIn {
        var lr := PerformLogin(ex);
        if lr.Err? {
          return Err(lr.error);
        }
      }
      var text := ChapterText(url, reply);
      if text != [] {
        RecordImages(images, fetch);
      }
      r := Ok(text);
    }

    /** `extract_images`, with the duplicate test on the normalised URL and the
      download call that `download_image` accepts. */
    method ExtractImages(gallery: seq<GalleryEntry>, tags: seq<ImageTag>, fetch: string -> ImageFetch)
      returns (images: seq<seq<byte>>)
      ensures images == Downloaded(Sources(gallery, tags), fetch)
    {
      var sources: seq<string> := [];
      var k := 0;
      while k < |gallery|
        invariant 0 <= k <= |gallery|
        invariant GallerySources(sources, gallery[k..]) == GallerySources([], gallery)
      {
        assert gallery[k..][1..] == gallery[k + 1..];
        var e := gallery[k];
        if e.url.Some? && e.url.value !in sources {
          sources := sources + [e.url.value];
        }
        k := k + 1;
      }
      assert gallery[k..] == [];
      var st := Scan(sources, None);
      var i := 0;
      while i < |tags|
        invariant 0 <= i <= |tags|
        invariant ScanAll(st, AllSlots(tags[i..])) == ScanAll(Scan(GallerySources([], gallery), None), AllSlots(tags))
      {
        assert tags[i..][1..] == tags[i + 1..];
        var slots := SlotsOf(tags[i]);
        var j := 0;
        while j < |slots|
          invariant 0 <= j <= |slots|
          invariant ScanAll(st, slots[j..] + AllSlots(tags[i + 1..]))
                    == ScanAll(Scan(GallerySources([], gallery), None), AllSlots(tags))
        {
          assert (slots[j..] + AllSlots(tags[i + 1..]))[1..] == slots[j + 1..] + AllSlots(tags[i + 1..]);
          st := Step(st, slots[j]);
          j := j + 1;
        }
        assert slots[j..] + AllSlots(tags[i + 1..]) == AllSlots(tags[i + 1..]);
        i := i + 1;
      }
      assert tags[i..] == [];
      var urls := st.sources;
      images := [];
      var n := 0;
      while n < |urls|
        invariant 0 <= n <= |urls|
        invariant images == Downloaded(urls[..n], fetch)
      {
        assert urls[..n + 1][..n] == urls[..n];
        var data := DownloadImage(urls[n], fetch(urls[n]));
        if data.Some? {
          images := images + [data.value];
        }
        n := n + 1;
      }
      assert urls[..n] == urls;
    }

    /** One named image of the gallery: its lines when the story accepted it,
        and the matching book counter raised by one. */
    method AddGalleryItem(image: NamedImage, added: string -> bool) returns (lines: seq<string>)
      modifies this`successfulBookDownloads, this`failedBookDownloads
      ensures lines == if added(image.url) then ItemLines(image) else []
      ensures successfulBookDownloads == old(successfulBookDownloads) + (if added(image.url) then 1 else 0)
      ensures failedBookDownloads == old(failedBookDownloads) + (if added(image.url) then 0 else 1)
    {
      if added(image.url) {
        lines := ItemLines(image);
        successfulBookDownloads := successfulBookDownloads + 1;
      } else {
        lines := [];
        failedBookDownloads := failedBookDownloads + 1;
      }
    }

    /** `make_gallery_chapter`: the HTML lines (joined with newlines after a
        fixed style block), with the book counters updated. */
    method MakeGalleryChapter(gallery: seq<GalleryEntry>, added: string -> bool) returns (html: seq<string>)
      modifies this`successfulBookDownloads, this`failedBookDownloads
      ensures html == ["<div class=\"gallery-chapter\">"] + Items(Named(gallery), added) + ["</div>"]
      ensures successfulBookDownloads == old(successfulBookDownloads) + CountAdded(Named(gallery), added)
      ensures failedBookDownloads
              == old(failedBookDownloads) + |Named(gallery)| - CountAdded(Named(gallery), added)
    {
      var items := GalleryItems(gallery, added);
      html := ["<div class=\"gallery-chapter\">"] + items + ["</div>"];
    }

    /** One entry of the `make_gallery_chapter` loop: an entry with a url is
        named after the counter, and its lines and counter added. */
    method NameGalleryEntry(gallery: seq<GalleryEntry>, i: nat, counter: nat, ghost named: seq<NamedImage>,
                        added: string -> bool)
      returns (lines: seq<string>, next: nat, ghost named': seq<NamedImage>)
      requires i < |gallery| && named == Named(gallery[..i]) && counter == |named|
      modifies this`successfulBookDownloads, this`failedBookDownloads
      ensures named' == Named(gallery[..i + 1]) && next == |named'|
      ensures Items(named', added) == Items(named, added) + lines
      ensures successfulBookDownloads - old(successfulBookDownloads) == CountAdded(named', added) - CountAdded(named, added)
      ensures failedBookDownloads - old(failedBookDownloads)
              == (next - counter) - (CountAdded(named', added) - CountAdded(named, added))
    {
      NamedStep(gallery, i);
      var e := gallery[i];
      lines, next, named' := [], counter, named;
      if e.url.Some? {
        var image := NamedImage(e.url.value, HeaderOrEmpty(e.caption), ImageName(counter));
        AddedStep(named, image, added);
        named' := named + [image];
        next := counter + 1;
        lines := AddGalleryItem(image, added);
      }
    }

    /** The loop of `make_gallery_chapter` over the gallery entries. */
    method GalleryItems(gallery: seq<GalleryEntry>, added: string -> bool) returns (items: seq<string>)
      modifies this`successfulBookDownloads, this`failedBookDownloads
      ensures items == Items(Named(gallery), added)
      ensures successfulBookDownloads == old(successfulBookDownloads) + CountAdded(Named(gallery), added)
      ensures failedBookDownloads
              == old(failedBookDownloads) + |Named(gallery)| - CountAdded(Named(gallery), added)
    {
      items := [];
      var counter := 0;
      ghost var named: seq<NamedImage> := [];
      var i := 0;
      while i < |gallery|
        invariant 0 <= i <= |gallery|
        invariant named == Named(gallery[..i])
        invariant counter == |named|
        invariant items == Items(named, added)
        invariant successfulBookDownloads == old(successfulBookDownloads) + CountAdded(named, added)
        invariant failedBookDownloads == old(failedBookDownloads) + counter - CountAdded(named, added)
      {
        var lines;
        lines, counter, named := NameGalleryEntry(gallery, i, counter, named, added);
        items := items + lines;
        i := i + 1;
      }
      assert gallery[..i] == gallery;
    }
  }
}
