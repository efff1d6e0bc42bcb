# FanFicFare: FlareSolverr proxy fetcher and the author.today / tl.rulate.ru adapters

This project is a Dafny model of the decision logic in five files of a FanFicFare fork, with proofs about that model.

- **The FlareSolverr proxy fetcher** (`fetcher_flaresolverr_proxy.py`). It forwards every page request as a JSON command to a FlareSolverr server and turns the server's JSON envelope back into a response or an `HTTPErrorFFF`. The model covers:
  - which jar cookies are sent;
  - how cookies are translated in both directions;
  - the form-parameter encoder;
  - the lazily created solver session;
  - the envelope-to-response rules.
- **The three author.today adapters** (`adapter_authortoday.py`, `adapter_authortoday_login_work.py`, `adapter_authortoday_backup.py`). They share the chapter cipher: each chapter arrives XOR-ed with a cycling key made of the reversed reader secret, `@_@` and the user id. Beside the cipher, the model covers:
  - the login attempt counters and login flags;
  - the auth-cookie test;
  - the work and chapter ids read from a chapter URL;
  - the reader-secret lookups;
  - the image download and classification rules;
  - the image URL collection;
  - the gallery chapter;
  - the magic-number sniffing of `get_image_info`.
- **The tl.rulate.ru adapter** (`adapter_tlrulateru.py`). The model covers:
  - the story id and URL;
  - cover and inline-image URL absolutisation;
  - the first-cover rule;
  - the status mapping;
  - the chapter filter and the chapter order.

Each module corresponds to a piece of the program:

| module | models |
|---|---|
| `Common` | `Option`/`Result`, Python string helpers (`startswith`, `in`, `strip`, `lower`, `split`, `join`), decimal digits, UTF-8 |
| `SolverCookies` | `filter_cookies`, `cookiejar_to_jsonable`, `cookiejson_to_jarable`, and the cookie jar's `set_cookie` |
| `FormParams` | `to_key_val_list`, `encode_params` and the `urlencode(..., doseq=True)` it ends in |
| `FlareSolverr` | `FlareSolverr_ProxyFetcher` (`make_retries`, `do_fs_request`, `request`) as the class `ProxyFetcher` |
| `ChapterCipher` | the `decrypt_chapter_text` variants (with and without the HTML check) |
| `ChapterUrls` | the `re.match`/`re.search` id extraction of the `getChapterText` methods |
| `ImageInfo` | `get_image_info` |
| `AuthorToday` | `adapter_authortoday.py`; its adapter state is the class `AuthorTodayAdapter` |
| `AuthorTodayLoginWork` | `adapter_authortoday_login_work.py`; class `AuthorTodayLoginWorkAdapter` |
| `AuthorTodayBackup` | `adapter_authortoday_backup.py`; class `AuthorTodayBackupAdapter` |
| `TlRulate` | `adapter_tlrulateru.py`; class `TlRulateAdapter` |

Some inputs become parameters:
- The network: every HTTP exchange is a parameter holding what the site or the solver answered.
- Parsed HTML: the `<img>` tags, chapter rows and regex matches a page yields.
- Foreign results: the base64 decoder, and whether `addImgUrl` raised.

Python strings are sequences of code points. The cipher works on `seq<CodePoint>` (21-bit values) because Python strings may hold surrogates.

The model follows the code in these details:
- `encode_params` ends in `urllib.parse.urlencode`, which quotes with `quote_plus`.
- The tl.rulate image loop writes `img['src']` only when handing the URL to the story raises (adapter_tlrulateru.py:279-281). It always writes `img['alt']` from the title when the alt is missing.
- In adapter_authortoday_login_work.py, a JSON login success does not reset the attempt counter (lines 195-205). Only the cookie path (lines 219-223) and failures reset it.
- The session-create reply is not checked: a reply without `session` raises `KeyError` out of `do_fs_request`.
- An `HTTPErrorFFF` whose data is not JSON with a `message` re-raises the parsing error, not the HTTP error.

## Model

| member | source | states |
|---|---|---|
| SolverCookies.CookiesForMembers | fanficfare/fetchers/fetcher_flaresolverr_proxy.py:179-186 | a cookie is sent exactly when it is in the jar and its domain is a substring of the URL |
| SolverCookies.CookiesForAppend | fanficfare/fetchers/fetcher_flaresolverr_proxy.py:182-185 | filtering a concatenation filters each part, so jar order is kept |
| SolverCookies.FilterCookies | fanficfare/fetchers/fetcher_flaresolverr_proxy.py:179-186 | the append loop returns exactly the filtered jar, in jar order |
| SolverCookies.CookiejarToJsonable | fanficfare/fetchers/fetcher_flaresolverr_proxy.py:188-201 | one dict per cookie, in order; `expires` is present only when truthy |
| SolverCookies.ExpiryOf | fanficfare/fetchers/fetcher_flaresolverr_proxy.py:211-218 | the expiry never exceeds 30000000000 |
| SolverCookies.ExpiryRules | fanficfare/fetchers/fetcher_flaresolverr_proxy.py:211-235 | the expiry comes from `expires` if that key exists, else from `expiry`, else 0; values above 30000000000 are clamped to it and others kept; `discard` holds iff the expiry is -1; `domain_initial_dot` holds iff the domain starts with '.' |
| SolverCookies.Jarable | fanficfare/fetchers/fetcher_flaresolverr_proxy.py:223-239 | name, value, domain and path are kept and the expiry is the clamped one |
| SolverCookies.JarableAll | fanficfare/fetchers/fetcher_flaresolverr_proxy.py:203-240 | one jar cookie per solver dict, in order |
| SolverCookies.CookiejsonToJarable | fanficfare/fetchers/fetcher_flaresolverr_proxy.py:203-240 | the append loop builds exactly that list |
| SolverCookies.RoundTrip | fanficfare/fetchers/fetcher_flaresolverr_proxy.py:188-240 | a cookie sent out and echoed back lands under its own jar key with its value, and with its expiry unless that was absent (becomes 0) or far-future (clamped) |
| SolverCookies.StoredProperties | fanficfare/fetchers/fetcher_flaresolverr_proxy.py:126-127 | `set_cookie` keeps the jar's keys unique, stores the cookie, keeps every cookie with another key and adds nothing else |
| SolverCookies.StoredAllUnique | fanficfare/fetchers/fetcher_flaresolverr_proxy.py:126-127 | storing the solver's cookies one by one keeps the jar's keys unique |
| SolverCookies.StoredMembers | fanficfare/fetchers/fetcher_flaresolverr_proxy.py:127 | for any jar, `set_cookie` stores the cookie, keeps every cookie with another key and adds nothing else |
| SolverCookies.StoredAllContents | fanficfare/fetchers/fetcher_flaresolverr_proxy.py:126-127 | after storing a list of cookies the jar holds the last cookie of each key in the list, every old cookie whose key the list lacks, and nothing else |
| FormParams.ToKeyValList | fanficfare/fetchers/fetcher_flaresolverr_proxy.py:260-269 | None gives None; str, bytes, bool and int raise "cannot encode objects that are not 2-tuples"; nothing else raises |
| FormParams.ToKeyValListItems | fanficfare/fetchers/fetcher_flaresolverr_proxy.py:266-269 | a dict becomes its (key, value) pairs in order; a list or tuple is returned unchanged |
| FormParams.Unpack2 | fanficfare/fetchers/fetcher_flaresolverr_proxy.py:286 | `k, vs = item` succeeds exactly for an iterable of two elements, giving them in order |
| FormParams.ValuesOf | fanficfare/fetchers/fetcher_flaresolverr_proxy.py:287-288 | a string or a non-iterable value is wrapped in a one-element list |
| FormParams.Utf8IfText | fanficfare/fetchers/fetcher_flaresolverr_proxy.py:292-293 | text becomes bytes and nothing else changes kind; None stays None |
| FormParams.EmittedValues | fanficfare/fetchers/fetcher_flaresolverr_proxy.py:289-293 | for one key: every value that is not None is emitted, encoded and paired with the encoded key; nothing else is emitted |
| FormParams.PairsOfFails | fanficfare/fetchers/fetcher_flaresolverr_proxy.py:286 | the pair list fails exactly when some item does not unpack into two |
| FormParams.PairsOfStopsAtError | fanficfare/fetchers/fetcher_flaresolverr_proxy.py:286 | the first failing item decides the error |
| FormParams.PairsOfSnoc | fanficfare/fetchers/fetcher_flaresolverr_proxy.py:285-293 | each further item appends its own pairs, so input order is kept |
| FormParams.CollectPairs | fanficfare/fetchers/fetcher_flaresolverr_proxy.py:285-293 | the nested append loops build exactly those pairs, or the first error |
| FormParams.Str | fanficfare/fetchers/fetcher_flaresolverr_proxy.py:294 | `str()` of text is the text; of a non-negative int, its decimal digits |
| FormParams.QuotePlus | fanficfare/fetchers/fetcher_flaresolverr_proxy.py:294 | a quoted field contains no '&' and no '=' |
| FormParams.UnquoteQuote | fanficfare/fetchers/fetcher_flaresolverr_proxy.py:294 | unquoting a quoted byte string gives it back |
| FormParams.ParseSerialize | fanficfare/fetchers/fetcher_flaresolverr_proxy.py:294 | parsing the serialized query gives back exactly its fields, in order |
| FormParams.EncodedParams | fanficfare/fetchers/fetcher_flaresolverr_proxy.py:280-296 | text, bytes, a readable, None and other non-iterables come back unchanged; an encoded query comes only from a list, tuple or dict |
| FormParams.EncodeParams | fanficfare/fetchers/fetcher_flaresolverr_proxy.py:280-296 | the method computes exactly `EncodedParams` |
| FormParams.StringDictQuery | fanficfare/fetchers/fetcher_flaresolverr_proxy.py:284-294 | a dict of strings, the empty one included, is encoded, and its query is the serialisation of its UTF-8 entries in insertion order |
| FormParams.StringDictRoundTrip | fanficfare/fetchers/fetcher_flaresolverr_proxy.py:284-294 | a dict of strings (the empty one giving "") encodes to a query that parses back to its UTF-8 entries, one per entry, in insertion order |
| FormParams.ExampleQuery | fanficfare/fetchers/fetcher_flaresolverr_proxy.py:284-294 | `{"a": "1", "b": ["2", "3"]}` encodes to `a=1&b=2&b=3` |
| FlareSolverr.MakeRetries | fanficfare/fetchers/fetcher_flaresolverr_proxy.py:47-52 | connect and total retries are zero; the other settings are kept |
| FlareSolverr.CmdNames | fanficfare/fetchers/fetcher_flaresolverr_proxy.py:102 | GET and POST become `request.get` and `request.post` |
| FlareSolverr.ChannelError | fanficfare/fetchers/fetcher_flaresolverr_proxy.py:104-115 | a connection failure becomes FailedToDownload with its message; an HTTP error whose data has a message is re-raised as "Flaresolverr says: " plus that message |
| FlareSolverr.Finish | fanficfare/fetchers/fetcher_flaresolverr_proxy.py:165-175 | a response is returned iff the status is 200 |
| FlareSolverr.ProxyFetcher.constructor | fanficfare/fetchers/fetcher_flaresolverr_proxy.py:40-45 | no session and an empty jar |
| FlareSolverr.ProxyFetcher.StoreCookies | fanficfare/fetchers/fetcher_flaresolverr_proxy.py:126-127 | the jar becomes the old jar with each cookie stored in turn |
| FlareSolverr.ProxyFetcher.DoFsRequest | fanficfare/fetchers/fetcher_flaresolverr_proxy.py:54-93 | the calls made, the new `fs_session` and the outcome are those of `FsRequestSpec` |
| FlareSolverr.ProxyFetcher.Complete | fanficfare/fetchers/fetcher_flaresolverr_proxy.py:104-175 | the new jar and the result are those of `Completed` |
| FlareSolverr.ProxyFetcher.Request | fanficfare/fetchers/fetcher_flaresolverr_proxy.py:95-175 | calls, session, jar and result are those of `RequestSpec` |
| FlareSolverr.OtherMethodsRejected | fanficfare/fetchers/fetcher_flaresolverr_proxy.py:97-98 | a method other than GET or POST raises NotImplemented before any call and changes nothing |
| FlareSolverr.SessionLifecycle | fanficfare/fetchers/fetcher_flaresolverr_proxy.py:55-85 | a session is created iff sessions are configured and none is held; a held session is kept; a created one is kept; every forwarded command carries the session held afterwards |
| FlareSolverr.PayloadContents | fanficfare/fetchers/fetcher_flaresolverr_proxy.py:71-93 | the forwarded command carries the endpoint, command, URL, configured timeout, encoded parameters, `download` iff in withimages mode, and the dict of each cookie whose domain occurs in the URL |
| FlareSolverr.ForwardedCommand | fanficfare/fetchers/fetcher_flaresolverr_proxy.py:102 | every forwarded command is `request.get` or `request.post` |
| FlareSolverr.ReconstructSucceeds | fanficfare/fetchers/fetcher_flaresolverr_proxy.py:117-175 | a response comes back iff the solution is ok with status, URL, cookies and status 200, and the body was decoded in withimages mode or is present and not an image; its content is the decoded bytes, else the raw text |
| FlareSolverr.SolverErrorIs428 | fanficfare/fetchers/fetcher_flaresolverr_proxy.py:157-164 | a solver failure raises 428 with the solver's message and stores no cookies |
| FlareSolverr.UndecodedImageIs428 | fanficfare/fetchers/fetcher_flaresolverr_proxy.py:142-155 | an undecoded image is raised as 428 and never returned as text |
| FlareSolverr.Non200Raised | fanficfare/fetchers/fetcher_flaresolverr_proxy.py:165-171 | any other status is raised with that status and the solution's URL |
| FlareSolverr.CookiesStoredBeforeErrors | fanficfare/fetchers/fetcher_flaresolverr_proxy.py:121-127 | the solution's cookies are converted one per dict and in order, and, whatever the result, the new jar holds the last converted cookie of each key, every old cookie whose key the solution lacks, and nothing else |
| FlareSolverr.RequestKeepsJarKeysUnique | fanficfare/fetchers/fetcher_flaresolverr_proxy.py:95-175 | a request never gives two jar cookies the same key |
| ChapterCipher.XorTwice | fanficfare/adapters/adapter_authortoday.py:303 | XOR-ing twice with the same key code point restores the input |
| ChapterCipher.Key | fanficfare/adapters/adapter_authortoday.py:289 | the key is the reversed secret, then `@_@`, then the user id; its length is their total |
| ChapterCipher.Stream | fanficfare/adapters/adapter_authortoday.py:301-303 | output code i is input code i XOR key code i mod key length; the length is kept |
| ChapterCipher.XorCycle | fanficfare/adapters/adapter_authortoday.py:300-305 | the loop yields the transformed text, or fails at a code `chr` rejects |
| ChapterCipher.TransformInvolution | fanficfare/adapters/adapter_authortoday.py:296-305 | a successful transform keeps the length, and transforming again with the same key restores the input |
| ChapterCipher.DecryptChecked | fanficfare/adapters/adapter_authortoday.py:308-311 | the checked result is "" or the plain decryption, and a non-empty result contains both '<' and '>' |
| ChapterCipher.PlainProperties | fanficfare/adapters/adapter_authortoday_login_work.py:286-309 | an empty text or secret gives ""; otherwise the result is "" or as long as the input and encrypts back to it |
| ChapterCipher.EncryptDecrypt | fanficfare/adapters/adapter_authortoday.py:283-314 | decrypting an encrypted chapter gives it back; with the HTML check too when it holds '<' and '>' |
| ChapterCipher.OutOfRangeGivesNothing | fanficfare/adapters/adapter_authortoday_backup.py:120-127 | a code XOR-ed past U+10FFFF makes the decryption "" rather than raise |
| ChapterUrls.ReaderAt | fanficfare/adapters/adapter_authortoday.py:890 | a match at a position gives two non-empty digit runs that occur there as `/reader/<w>/<c>` |
| ChapterUrls.WorkAt | fanficfare/adapters/adapter_authortoday.py:893 | a match gives a non-empty digit work id occurring as `/work/<w>`, and a digit chapter id when present |
| ChapterUrls.FirstAtIsLeftmost | fanficfare/adapters/adapter_authortoday.py:890 | the lazy prefix finds a match iff one is reachable without crossing a newline, and returns the leftmost |
| ChapterUrls.FirstAtStops | fanficfare/adapters/adapter_authortoday.py:890 | the search stops at the first reachable match |
| ChapterUrls.ChapterIds | fanficfare/adapters/adapter_authortoday.py:890-899 | both ids are non-empty digit strings |
| ChapterUrls.ReaderPatternFirst | fanficfare/adapters/adapter_authortoday.py:890-893 | the reader pattern wins whenever it matches |
| ChapterUrls.ChapterIdsNone | fanficfare/adapters/adapter_authortoday_login_work.py:568-574 | no ids iff neither pattern matches at any reachable position |
| ChapterUrls.WorkUrlDefaultsToFirstChapter | fanficfare/adapters/adapter_authortoday_login_work.py:571-577 | a work URL without a chapter part names chapter "1" |
| ChapterUrls.BackupChapterId | fanficfare/adapters/adapter_authortoday_backup.py:386-389 | the chapter id is a non-empty digit string |
| ChapterUrls.BackupChapterIdFound | fanficfare/adapters/adapter_authortoday_backup.py:386-389 | an id is found iff `/reader/<digits>/<digits>` occurs anywhere in the URL |
| ImageInfo.Info | fanficfare/adapters/adapter_authortoday.py:1146-1156 | the size is the byte length |
| ImageInfo.FormatIffMagic | fanficfare/adapters/adapter_authortoday_login_work.py:752-762 | JPEG iff the data starts with FF D8, PNG iff it starts with the PNG signature, Unknown iff neither (the same helper is at adapter_authortoday_backup.py:509-519) |
| AuthorToday.LoginInvariants | fanficfare/adapters/adapter_authortoday.py:137-220 | the counter stays in 0..3; a call succeeds iff the adapter is logged in afterwards; a logged-in adapter is unchanged; a fresh success leaves the counter at 0 with a bearer token and a user id |
| AuthorToday.FailedAttemptCounts | fanficfare/adapters/adapter_authortoday.py:146-149 | a failed attempt with credentials raises the counter by one, or, past the third, resets it |
| AuthorToday.FourthAttemptRefused | fanficfare/adapters/adapter_authortoday.py:146-149 | after three failures from a fresh counter, the fourth call fails at once and resets the counter |
| AuthorToday.CheckLoginIff | fanficfare/adapters/adapter_authortoday.py:238-254 | the check passes iff logged in, the bearer token is non-empty and unexpired, and the profile answers 200 |
| AuthorToday.ChapterRoundTrip | fanficfare/adapters/adapter_authortoday.py:890-940 | an encrypted HTML chapter comes back unchanged, given ids and a bearer token |
| AuthorToday.DownloadImageAccepts | fanficfare/adapters/adapter_authortoday.py:1067-1117 | a download succeeds iff the URL is under `https://cm.author.today/`, the fetch gave at least 100 bytes, and the content type holds image/jpeg, png, gif or webp; it returns those bytes |
| AuthorToday.AcceptedNeverOther | fanficfare/adapters/adapter_authortoday.py:994-1003 | every accepted content type is classified as jpeg, png, gif or webp |
| AuthorToday.ImageClassDiscrepancy | fanficfare/adapters/adapter_authortoday.py:993-1003 | as written, a jpeg and a png of one chapter are counted under the same type |
| AuthorToday.DownloadedImageClass | fanficfare/adapters/adapter_authortoday.py:988-1007 | a downloaded image counted by its own type is never "other" |
| AuthorToday.TallyAsWritten | fanficfare/adapters/adapter_authortoday.py:976-1016 | as written: every attempt is a success or a failure, and every success is counted under the one class of the chapter response's content type |
| AuthorToday.ChapterTallyDiscrepancy | fanficfare/adapters/adapter_authortoday.py:993-1003 | as written, a JPEG image of a chapter served as `text/html` is counted as "other"; by its own type it counts as jpeg |
| AuthorToday.TallyCounts | fanficfare/adapters/adapter_authortoday.py:976-1016 | corrected (Findings row 2): every attempt is a success or a failure; the type counters grow by the successes; "other" never grows |
| AuthorToday.NormaliseImageUrl | fanficfare/adapters/adapter_authortoday.py:1287-1293 | a normalised URL starts with "http" |
| AuthorToday.NormaliseImageUrlProperties | fanficfare/adapters/adapter_authortoday.py:1287-1293 | `http…` is kept, `//x` gets `https:`, a bare path gets `https://author.today/`; normalising is idempotent |
| AuthorToday.GallerySourcesUnique | fanficfare/adapters/adapter_authortoday.py:1235-1240 | the gallery loop adds no duplicate and drops no earlier source |
| AuthorToday.ScanUnique | fanficfare/adapters/adapter_authortoday.py:1277-1297 | with the test on the normalised URL the scan stores no URL twice, keeps the earlier sources, and adds only URLs under the image host |
| AuthorToday.SourcesUnique | fanficfare/adapters/adapter_authortoday.py:1235-1297 | the image sources hold no duplicates; those after the gallery's lie under the image host |
| AuthorToday.ScanSrcOnlyAsWritten | fanficfare/adapters/adapter_authortoday.py:1285-1297 | as written, a tag whose raw value is not stored adds its normalised URL |
| AuthorToday.DuplicateSourceAsWritten | fanficfare/adapters/adapter_authortoday.py:1285-1297 | as written, the same protocol-relative image met twice is stored twice |
| AuthorToday.Downloaded | fanficfare/adapters/adapter_authortoday.py:1319-1330 | at most one image per source, each at least 100 bytes |
| AuthorToday.ExtractedDiscrepancy | fanficfare/adapters/adapter_authortoday.py:1327 | as written, a page whose one image would download returns no image |
| AuthorToday.ImageNamesDistinct | fanficfare/adapters/adapter_authortoday.py:1372 | different counters give different `ffdl-N.jpg` names |
| AuthorToday.NamedInOrder | fanficfare/adapters/adapter_authortoday.py:1363-1373 | the k-th gallery entry with a url is named `ffdl-k.jpg`, so no two names clash |
| AuthorToday.AuthorTodayAdapter.constructor | fanficfare/adapters/adapter_authortoday.py:50-113 | logged out, no attempts, no token or user id, all counters 0 |
| AuthorToday.AuthorTodayAdapter.PerformLogin | fanficfare/adapters/adapter_authortoday.py:131-236 | the new login fields and the outcome are those of `Login`; the counter stays within 0..3; the call succeeds iff the adapter is logged in afterwards |
| AuthorToday.AuthorTodayAdapter.DecryptChapterText | fanficfare/adapters/adapter_authortoday.py:272-320 | the method computes the checked decryption |
| AuthorToday.AuthorTodayAdapter.CountChapterImages | fanficfare/adapters/adapter_authortoday.py:976-1016 | corrected (Findings row 2): the counters become `TallyAll` of the old counters over the chapter's images, each image classed by its own type |
| AuthorToday.AuthorTodayAdapter.CountImage | fanficfare/adapters/adapter_authortoday.py:977-1014 | corrected (Findings row 2): one `<img>` is skipped, or counted as a failure, or as a success under its own type |
| AuthorToday.AuthorTodayAdapter.ChapterText | fanficfare/adapters/adapter_authortoday.py:890-940 | the text is the chapter plaintext for the adapter's token and user id |
| AuthorToday.AuthorTodayAdapter.RecordImages | fanficfare/adapters/adapter_authortoday.py:965-1016 | corrected (Findings row 2): the image total grows by the chapter's images; the counters are tallied, each image by its own type, only when image extraction is on |
| AuthorToday.AuthorTodayAdapter.GetChapterText | fanficfare/adapters/adapter_authortoday.py:874-1065 | corrected (Findings row 2) in its image tally: the chapter counter goes up; a failed login propagates; otherwise the text is the plaintext; images are counted only for a non-empty text |
| AuthorToday.AuthorTodayAdapter.ExtractImages | fanficfare/adapters/adapter_authortoday.py:1212-1352 | corrected (Findings rows 1 and 3): the images are the accepted downloads of the deduplicated sources, in order |
| AuthorToday.AuthorTodayAdapter.GalleryItems | fanficfare/adapters/adapter_authortoday.py:1363-1398 | the loop yields the items of the accepted named images and counts one success or one failure per named image |
| AuthorToday.AuthorTodayAdapter.MakeGalleryChapter | fanficfare/adapters/adapter_authortoday.py:1354-1398 | the HTML is the wrapper around the items of the accepted named images; successes and failures are counted per named image |
| AuthorTodayLoginWork.LoginInvariants | fanficfare/adapters/adapter_authortoday_login_work.py:119-240 | the counter stays in 0..3; a call succeeds iff logged in afterwards; a logged-in adapter is unchanged |
| AuthorTodayLoginWork.ExpiredPageRetriesUpToThree | fanficfare/adapters/adapter_authortoday_login_work.py:207-215 | an expired login page retries until the third attempt, then fails with the site's message and a reset counter |
| AuthorTodayLoginWork.OtherRejectionResets | fanficfare/adapters/adapter_authortoday_login_work.py:213-228 | any other rejection, or a non-JSON reply without an auth cookie, resets the counter and leaves the adapter logged out |
| AuthorTodayLoginWork.FirstMatchIsFirst | fanficfare/adapters/adapter_authortoday_login_work.py:601-606 | the page secret is found iff some pattern matched, and it is the first match |
| AuthorTodayLoginWork.FallbackOrder | fanficfare/adapters/adapter_authortoday_login_work.py:643-657 | the secret is the first truthy one of page, headers, `readerSecret`, `data.readerSecret` |
| AuthorTodayLoginWork.ChapterRoundTrip | fanficfare/adapters/adapter_authortoday_login_work.py:601-669 | a chapter encrypted with the page's secret comes back unchanged |
| AuthorTodayLoginWork.NoSecretNoText | fanficfare/adapters/adapter_authortoday_login_work.py:659-661 | without a truthy secret anywhere the chapter is "" |
| AuthorTodayLoginWork.AuthorTodayLoginWorkAdapter.constructor | fanficfare/adapters/adapter_authortoday_login_work.py:50-57 | logged out, no attempts, no user id |
| AuthorTodayLoginWork.AuthorTodayLoginWorkAdapter.GetAuthCookie | fanficfare/adapters/adapter_authortoday_login_work.py:258-273 | true iff some cookie is named LoginCookie or ngLoginCookie |
| AuthorTodayLoginWork.AuthorTodayLoginWorkAdapter.PerformLogin | fanficfare/adapters/adapter_authortoday_login_work.py:119-240 | the new login fields and the outcome are those of `Login`, retries included |
| AuthorTodayLoginWork.AuthorTodayLoginWorkAdapter.DecryptChapterText | fanficfare/adapters/adapter_authortoday_login_work.py:275-309 | the method computes the plain decryption |
| AuthorTodayLoginWork.AuthorTodayLoginWorkAdapter.PageSecret | fanficfare/adapters/adapter_authortoday_login_work.py:601-606 | the pattern loop returns the first match |
| AuthorTodayLoginWork.AuthorTodayLoginWorkAdapter.LookUpSecretHeader | fanficfare/adapters/adapter_authortoday_login_work.py:646-649 | the header loop returns the first secret header present |
| AuthorTodayLoginWork.AuthorTodayLoginWorkAdapter.GetChapterText | fanficfare/adapters/adapter_authortoday_login_work.py:564-689 | no ids give "" before any login; a failed login gives ""; otherwise the text is the chapter plaintext for the new user id |
| AuthorTodayBackup.LoginFallback | fanficfare/adapters/adapter_authortoday_backup.py:74-106 | the configured credentials are used iff the adapter's username is empty; a login with no username anywhere fails; the user id changes only on success with a match |
| AuthorTodayBackup.SecretHeaderIsFirst | fanficfare/adapters/adapter_authortoday_backup.py:420-424 | a secret is found iff some header is `reader-secret` in any case, and it is the first such header's value |
| AuthorTodayBackup.ChapterRoundTrip | fanficfare/adapters/adapter_authortoday_backup.py:382-434 | a chapter encrypted with the first reader-secret header comes back unchanged |
| AuthorTodayBackup.NoHeaderNoText | fanficfare/adapters/adapter_authortoday_backup.py:420-428 | without a reader-secret header the chapter is "" |
| AuthorTodayBackup.AuthorTodayBackupAdapter.constructor | fanficfare/adapters/adapter_authortoday_backup.py:25-28 | no username, password or user id |
| AuthorTodayBackup.AuthorTodayBackupAdapter.PerformLogin | fanficfare/adapters/adapter_authortoday_backup.py:74-106 | the outcome and new user id are those of `Login` |
| AuthorTodayBackup.AuthorTodayBackupAdapter.DecryptChapterText | fanficfare/adapters/adapter_authortoday_backup.py:108-127 | the method computes the plain decryption |
| AuthorTodayBackup.AuthorTodayBackupAdapter.FindSecretHeader | fanficfare/adapters/adapter_authortoday_backup.py:420-424 | the loop with `break` returns the first reader-secret header |
| AuthorTodayBackup.AuthorTodayBackupAdapter.GetChapterText | fanficfare/adapters/adapter_authortoday_backup.py:382-446 | the text is the chapter plaintext |
| TlRulate.StoryId | fanficfare/adapters/adapter_tlrulateru.py:43 | an id exists iff the path has more than two segments |
| TlRulate.StoryIdIsThirdSegment | fanficfare/adapters/adapter_tlrulateru.py:41-46 | the id is the third path segment, and the URL is `https://tl.rulate.ru/book/<id>` |
| TlRulate.CoverUrl | fanficfare/adapters/adapter_tlrulateru.py:114-118 | an absolutised cover URL starts with "http" |
| TlRulate.CoverUrlForms | fanficfare/adapters/adapter_tlrulateru.py:114-118 | `http…` is kept, `//x` gets `https:`, `/x` gets the site root, `x` gets the site root and one slash; absolutising is idempotent |
| TlRulate.CoverRuleProperties | fanficfare/adapters/adapter_tlrulateru.py:109-125 | the cover comes from the first tag alone; every later tag with a URL adds one image, in order |
| TlRulate.StatusValues | fanficfare/adapters/adapter_tlrulateru.py:158-160 | the status is set iff the text is non-empty; it is In-Progress iff the lowered text contains "продолжается", else Completed |
| TlRulate.CapitalisedOngoing | fanficfare/adapters/adapter_tlrulateru.py:159-160 | "Продолжается" also counts as ongoing |
| TlRulate.ChapterUrl | fanficfare/adapters/adapter_tlrulateru.py:199-201 | a chapter URL starts with "http" |
| TlRulate.ChaptersAreReadableRows | fanficfare/adapters/adapter_tlrulateru.py:190-202 | one chapter per readable row and no other, each built from its row |
| TlRulate.ChapterOrderProperties | fanficfare/adapters/adapter_tlrulateru.py:205-206 | reversed iff the sort input is '0'; the order changes and nothing else |
| TlRulate.InlineUrl | fanficfare/adapters/adapter_tlrulateru.py:255-269 | every image URL handed on starts with "http" |
| TlRulate.InlineUrlForms | fanficfare/adapters/adapter_tlrulateru.py:257-269 | no URL or `/html/…` is skipped, `http…` is kept, `//x` gets `https:`, `/x` gets the site root, `x` gets the site root and one slash |
| TlRulate.InlineUrls | fanficfare/adapters/adapter_tlrulateru.py:255-278 | at most one URL per tag, none starting with `/html/` |
| TlRulate.ProcessedChanges | fanficfare/adapters/adapter_tlrulateru.py:271-281 | only alt (where empty and a title exists) and src (to the normalised URL after a failed hand-over) change; a skipped tag is untouched; the tag yields the same URL afterwards |
| TlRulate.TlRulateAdapter.constructor | fanficfare/adapters/adapter_tlrulateru.py:36-46 | no cover, images, status or chapters |
| TlRulate.TlRulateAdapter.ProcessCovers | fanficfare/adapters/adapter_tlrulateru.py:109-123 | the cover and the image list are those of `CoverRule` |
| TlRulate.TlRulateAdapter.SetStatus | fanficfare/adapters/adapter_tlrulateru.py:158-160 | the status becomes `Status` of the text when that is set, else stays |
| TlRulate.CollectChapters | fanficfare/adapters/adapter_tlrulateru.py:188-202 | the loop collects exactly the chapters of `Chapters`: one per readable row, in row order |
| TlRulate.ProcessImage | fanficfare/adapters/adapter_tlrulateru.py:255-281 | one tag yields its `InlineUrl` and becomes its processed form |
| TlRulate.TlRulateAdapter.BuildChapters | fanficfare/adapters/adapter_tlrulateru.py:188-206 | the chapter list is `ChapterOrder` of the rows |
| TlRulate.TlRulateAdapter.ProcessImages | fanficfare/adapters/adapter_tlrulateru.py:252-281 | the URLs handed on are `InlineUrls` of the tags, and every tag becomes its processed form |
| TlRulate.ReverseInPlace | fanficfare/adapters/adapter_tlrulateru.py:206 | `list.reverse()` leaves the array reversed |

## Left out

- HTTP traffic: every request is a parameter holding its answer. That covers the solver channel, the login pages, token and profile requests, chapter and reader pages, and image fetches. Request headers, timeouts and URLs built for the site are not modelled.
- HTML parsing and regular expressions over pages: their results enter as sequences. These are the CSRF inputs, `<img>` tags and attributes, chapter rows, the status text, secret-pattern matches and the `userId` match.
- The regular expressions over chapter URLs are modelled (module `ChapterUrls`). `\d` is read as the ASCII digits, not Python's Unicode digits.
- `base64.b64decode` is a parameter returning the bytes or nothing.
- `int()` of the timeout setting, `ensure_text` and the `str()` of a container are not modelled.
- The cookie jar keeps insertion order. The real `CookieJar` iterates sorted by domain, path and name.
- Cookie dicts from the solver are modelled as values. The in-place write of the clamped expiry into each input dict is not represented, as no caller reads those dicts afterwards.
- Logging, the percentages and success rates of `getChapterText`, and `download_images_concurrently` (threads) are out of scope.
- `test_cover_handling` is out of scope apart from `get_image_info`; it uses PIL and temporary files.
- `get_browser_cookie` and the browser-cache cookie import are outside the model. In the login models, the cache probe enters as a parameter.
- Token expiry of adapter_authortoday.py: `datetime.strptime` and `utcnow` enter as booleans, one for whether `expires` parses and one for whether the token has expired.
- The text of the `FailedToLogin` messages is not modelled. The models keep the error kind, and for login_work the site's rejection message.
- JSON values of an unexpected type are not modelled. For example, a null `text` or a non-string `userId` would raise and lead to "".
- The cleaning of decrypted HTML and `utf8FromSoup` are not modelled. The chapter models end at the decrypted text.
- The gallery path of `getChapterText` (a `None` URL returns the stored gallery HTML) is not modelled. Neither is the CSS block `make_gallery_chapter` puts before the items.
- tl.rulate.ru: the content selectors, special messages and `login`/`is_logged_in` of `getChapterText` are not modelled. Neither are author, genre and rating extraction.
- checkLogin of adapter_authortoday_login_work.py is not modelled. It is a single page fetch and a substring test.
- AuthorTodayBackup.Login: an unset (None) username or password is modelled as "".
- AuthorTodayLoginWork.ExpiredPageRetriesUpToThree: stated for an adapter without the browser cache. With the cache, the first attempt may end in the probe instead.
- TlRulate.InlineUrls: counts the URLs handed to `addImgUrl`, including those whose hand-over raised.
- CountChapterImages (AuthorToday.AuthorTodayAdapter.CountChapterImages): counts each downloaded image under its own content type, the corrected behaviour of Findings row 2. The code counts every image under the chapter reply's `content-type` (`ReplyJson.contentType`); that count is `TallyAll` with `ChapterClassifier`, stated by `TallyAsWritten`.
- CountImage (AuthorToday.AuthorTodayAdapter.CountImage): counts one downloaded image under its own content type, the corrected behaviour of Findings row 2; the code uses the chapter reply's `content-type` (`TallyImageAsWritten` states that step).
- SolverCookies.ExpiryOf (and SolverCookies.Jarable): a cookie's `expires`/`expiry` is an integer here. The solver may send a fractional number of seconds, which the code stores and sends back as a float. The clamp and the `== -1` test treat a float the same way, so the stated properties still describe the code.
- RecordImages (AuthorToday.AuthorTodayAdapter.RecordImages): tallies through CountChapterImages, so the same correction applies: each image is counted under its own type, not the chapter reply's.
- GetChapterText (AuthorToday.AuthorTodayAdapter.GetChapterText): its image tally is the corrected one of Findings row 2; the code as written counts every downloaded image under the chapter reply's `content-type`, so for a JSON reply only "other" grows.
- ExtractImages (AuthorToday.AuthorTodayAdapter.ExtractImages): the corrected member of Findings rows 1 and 3. As written, `extract_images` returns no image at all (`ExtractedAsWritten`).
- FlareSolverr.ProxyFetcher.Request: `fs_session` is a string, with "" standing for every falsy value. A session id that is itself "" counts as absent, as in the code.

## Findings

| source | as written | input that shows it | evidently intended | confidence | as-written member | corrected member |
|---|---|---|---|---|---|---|
| fanficfare/adapters/adapter_authortoday.py:1285-1297 | the duplicate test compares the raw `src` with the stored URLs, but the normalised URL is stored | two tags with `src="//cm.author.today/a.jpg"`: the raw value is never stored, so `https://cm.author.today/a.jpg` is stored twice | no image URL stored twice | not executed | AuthorToday.DuplicateSourceAsWritten | AuthorToday.SourcesUnique |
| fanficfare/adapters/adapter_authortoday.py:993-1003 | a downloaded image is counted under the content type of the chapter's API response, not of the image | a `text/html` chapter reply with one image that downloads as `image/jpeg`: the image is counted as "other" and the JPEG counter stays 0 | each image counted under its own content type | not executed | AuthorToday.ChapterTallyDiscrepancy | AuthorToday.TallyCounts |
| fanficfare/adapters/adapter_authortoday.py:1327 | `download_image(img_url, headers=headers)` is called, but `download_image` (line 1067) takes no `headers`; the TypeError is caught for every URL | a page with one image under `https://cm.author.today/` that would download: `extract_images` returns no image | the accepted downloads returned in source order | not executed | AuthorToday.ExtractedDiscrepancy | AuthorToday.AuthorTodayAdapter.ExtractImages |
