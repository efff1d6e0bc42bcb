/** Work and chapter ids read from an author.today chapter URL.

    `re.match(r'.*?/reader/(\d+)/(\d+)', url)` tries the start positions of
    "/reader/" from left to right (`.*?` is lazy and does not cross a newline)
    and takes the first one where the rest of the pattern matches; the greedy
    `\d+` takes the whole digit run. `re.search` in the backup adapter tries
    every start position, across newlines too. */
module ChapterUrls {
  import opened Common

  const ReaderMark: string := "/reader/"
  const WorkMark: string := "/work/"
  const ChapterMark: string := "/chapter/"

  /** The length of the run of digits starting at `i`: what a greedy `\d+` takes. */
  function DigitRun(s: string, i: nat): (n: nat)
    requires i <= |s|
    ensures i + n <= |s|
    ensures forall k :: i <= k < i + n ==> IsDigit(s[k])
    ensures i + n == |s| || !IsDigit(s[i + n])
    decreases |s| - i
  {
    if i < |s| && IsDigit(s[i]) then 1 + DigitRun(s, i + 1) else 0
  }

  /** `/reader/(\d+)/(\d+)` matched at position `p`: the two groups. */
  function ReaderAt(url: string, p: nat): (ids: Option<(string, string)>)
    ensures ids.Some? ==> |ids.value.0| > 0 && AllDigits(ids.value.0)
    ensures ids.Some? ==> |ids.value.1| > 0 && AllDigits(ids.value.1)
    ensures ids.Some? ==> OccursAt(url, ReaderMark + ids.value.0 + "/" + ids.value.1, p)
  {
    if !OccursAt(url, ReaderMark, p) then None
    else
      var a := p + |ReaderMark|;
      var n1 := DigitRun(url, a);
      if n1 == 0 || a + n1 == |url| || url[a + n1] != '/' then None
      else
        var b := a + n1 + 1;
        var n2 := DigitRun(url, b);
        if n2 == 0 then None
        else
          assert url[p..b + n2] == ReaderMark + url[a..a + n1] + "/" + url[b..b + n2];
          Some((url[a..a + n1], url[b..b + n2]))
  }

  /** `/work/(\d+)(?:/chapter/(\d+))?` matched at position `p`: the work id, and
      the chapter id when "/chapter/" and digits follow the work id at once. */
  function WorkAt(url: string, p: nat): (ids: Option<(string, Option<string>)>)
    ensures ids.Some? ==> |ids.value.0| > 0 && AllDigits(ids.value.0)
    ensures ids.Some? && ids.value.1.Some? ==> |ids.value.1.value| > 0 && AllDigits(ids.value.1.value)
    ensures ids.Some? ==> OccursAt(url, WorkMark + ids.value.0, p)
  {
    if !OccursAt(url, WorkMark, p) then None
    else
      var a := p + |WorkMark|;
      var n1 := DigitRun(url, a);
      if n1 == 0 then None
      else
        var c := a + n1;
        assert url[p..c] == WorkMark + url[a..c];
        if OccursAt(url, ChapterMark, c) && DigitRun(url, c + |ChapterMark|) > 0 then
          var b := c + |ChapterMark|;
          Some((url[a..c], Some(url[b..b + DigitRun(url, b)])))
        else Some((url[a..c], None))
  }

  /** The lazy prefix `.*?` can reach start position `q` from `p`: no newline
      lies before it, unless the search may cross lines. */
  predicate Reachable(url: string, p: nat, q: nat, acrossLines: bool)
  {
    p <= q <= |url| && (acrossLines || forall k :: p <= k < q ==> url[k] != '\n')
  }

  /** The leftmost reachable start position from `p` on where `at` matches,
      and what it matched there. */
  function FirstAt<T>(url: string, p: nat, acrossLines: bool, at: nat -> Option<T>): Option<T>
    decreases |url| + 1 - p
  {
    if p > |url| then None
    else if at(p).Some? then at(p)
    else if p < |url| && (acrossLines || url[p] != '\n') then FirstAt(url, p + 1, acrossLines, at)
    else None
  }

  /** The search finds a match exactly when one is reachable, and what it finds
      is the match at the leftmost reachable position. */
  lemma {:induction false} FirstAtIsLeftmost<T>(url: string, p: nat, acrossLines: bool, at: nat -> Option<T>)
    ensures FirstAt(url, p, acrossLines, at).Some? <==>
              exists q: nat :: Reachable(url, p, q, acrossLines) && at(q).Some?
    ensures FirstAt(url, p, acrossLines, at).Some? ==>
              exists q: nat :: Reachable(url, p, q, acrossLines) && at(q) == FirstAt(url, p, acrossLines, at)
                && forall k :: p <= k < q ==> at(k).None?
    decreases |url| + 1 - p
  {
    if p <= |url| {
      if at(p).Some? {
        assert Reachable(url, p, p, acrossLines);
      } else if p < |url| && (acrossLines || url[p] != '\n') {
        FirstAtIsLeftmost(url, p + 1, acrossLines, at);
        if exists q: nat :: Reachable(url, p, q, acrossLines) && at(q).Some? {
          var q :| Reachable(url, p, q, acrossLines) && at(q).Some?;
          assert q != p;
          assert Reachable(url, p + 1, q, acrossLines);
        }
        if FirstAt(url, p + 1, acrossLines, at).Some? {
          var q :| Reachable(url, p + 1, q, acrossLines) && at(q) == FirstAt(url, p + 1, acrossLines, at)
                   && forall k :: p + 1 <= k < q ==> at(k).None?;
          assert Reachable(url, p, q, acrossLines);
        }
      } else {
        forall q: nat | Reachable(url, p, q, acrossLines)
          ensures at(q).None?
        {
        }
      }
    }
  }

  /** The search stops at the first reachable match. */
  lemma {:induction false} FirstAtStops<T>(url: string, p: nat, q: nat, acrossLines: bool, at: nat -> Option<T>)
    requires Reachable(url, p, q, acrossLines) && at(q).Some?
    requires forall k :: p <= k < q ==> at(k).None?
    ensures FirstAt(url, p, acrossLines, at) == at(q)
    decreases q - p
  {
    if p < q {
      assert Reachable(url, p + 1, q, acrossLines);
      FirstAtStops(url, p + 1, q, acrossLines, at);
    }
  }

  /** `re.match` (or, across lines, `re.search`) of the reader pattern. */
  function FirstReader(url: string, acrossLines: bool): (ids: Option<(string, string)>)
    ensures ids.Some? ==> |ids.value.0| > 0 && AllDigits(ids.value.0)
    ensures ids.Some? ==> |ids.value.1| > 0 && AllDigits(ids.value.1)
  {
    FirstAtIsLeftmost(url, 0, acrossLines, q => ReaderAt(url, q));
    FirstAt(url, 0, acrossLines, q => ReaderAt(url, q))
  }

  /** `re.match` of the work pattern. */
  function FirstWork(url: string): (ids: Option<(string, Option<string>)>)
    ensures ids.Some? ==> |ids.value.0| > 0 && AllDigits(ids.value.0)
    ensures ids.Some? && ids.value.1.Some? ==> |ids.value.1.value| > 0 && AllDigits(ids.value.1.value)
  {
    FirstAtIsLeftmost(url, 0, false, q => WorkAt(url, q));
    FirstAt(url, 0, false, q => WorkAt(url, q))
  }

  /** The id extraction of `getChapterText` in adapter_authortoday.py and
      adapter_authortoday_login_work.py: the reader pattern first, then the work
      pattern with the chapter id defaulting to "1"; None when neither matches
      (the caller then returns ""). Both ids are
      non-empty digit strings. */
  function ChapterIds(url: string): (ids: Option<(string, string)>)
    ensures ids.Some? ==> |ids.value.0| > 0 && AllDigits(ids.value.0)
    ensures ids.Some? ==> |ids.value.1| > 0 && AllDigits(ids.value.1)
  {
    match FirstReader(url, false)
    case Some(ids) => Some(ids)
    case None =>
      match FirstWork(url)
      case None => None
      case Some((work, chapter)) => Some((work, if chapter.Some? then chapter.value else "1"))
  }

  /** The reader pattern wins whenever it matches anywhere reachable. */
  lemma ReaderPatternFirst(url: string)
    requires exists q: nat :: Reachable(url, 0, q, false) && ReaderAt(url, q).Some?
    ensures exists q: nat :: Reachable(url, 0, q, false) && ReaderAt(url, q) == ChapterIds(url)
  {
    FirstAtIsLeftmost(url, 0, false, q => ReaderAt(url, q));
  }

  /** Nothing is found exactly when neither pattern matches at any reachable position. */
  lemma ChapterIdsNone(url: string)
    ensures ChapterIds(url).None? <==>
              forall q: nat :: Reachable(url, 0, q, false) ==> ReaderAt(url, q).None? && WorkAt(url, q).None?
  {
    FirstAtIsLeftmost(url, 0, false, q => ReaderAt(url, q));
    FirstAtIsLeftmost(url, 0, false, q => WorkAt(url, q));
  }

  /** A URL without the reader form whose first work match has no chapter part
      names chapter "1" of that work. */
  lemma WorkUrlDefaultsToFirstChapter(url: string, q: nat)
    requires Reachable(url, 0, q, false) && WorkAt(url, q).Some? && WorkAt(url, q).value.1.None?
    requires forall k: nat :: Reachable(url, 0, k, false) ==> ReaderAt(url, k).None?
    requires forall k :: 0 <= k < q ==> WorkAt(url, k).None?
    ensures ChapterIds(url) == Some((WorkAt(url, q).value.0, "1"))
  {
    FirstAtIsLeftmost(url, 0, false, q => ReaderAt(url, q));
    FirstAtStops(url, 0, q, false, q => WorkAt(url, q));
  }

  /** The chapter id of adapter_authortoday_backup.py: the second group of the
      first `/reader/\d+/(\d+)` anywhere in the URL; None (the caller returns "")
      when there is none. */
  function BackupChapterId(url: string): (id: Option<string>)
    ensures id.Some? ==> |id.value| > 0 && AllDigits(id.value)
  {
    match FirstReader(url, true)
    case None => None
    case Some(ids) => Some(ids.1)
  }

  /** The backup adapter finds a chapter id exactly when the URL holds
      "/reader/", digits, "/", digits somewhere. */
  lemma BackupChapterIdFound(url: string)
    ensures BackupChapterId(url).Some? <==> exists q: nat :: 0 <= q <= |url| && ReaderAt(url, q).Some?
  {
    FirstAtIsLeftmost(url, 0, true, q => ReaderAt(url, q));
    if exists q: nat :: 0 <= q <= |url| && ReaderAt(url, q).Some? {
      var q :| 0 <= q <= |url| && ReaderAt(url, q).Some?;
      assert Reachable(url, 0, q, true);
    }
  }
}
