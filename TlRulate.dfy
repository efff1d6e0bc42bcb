/** The tl.rulate.ru adapter (adapter_tlrulateru.py): the story id and URL,
    the cover rule, the status mapping, the chapter list, and the inline image
    handling of `getChapterText`. The parsed page enters as parameters: the
    cover `<img>` tags, the status text, the chapter rows and the chapter's
    `<img>` tags. */
module TlRulate {
  import opened Common

  const SiteDomain: string := "tl.rulate.ru"
  const SiteRoot: string := "https://tl.rulate.ru"
  /** The label of the button of a readable chapter. */
  const ReadLabel: string := "читать"
  const Ongoing: string := "продолжается"

  // ---------------------------------------------------------------- story id

  /** `path.split('/')[2]`: None when the path has fewer than three segments
      (an IndexError). */
  function StoryId(path: string): (id: Option<string>)
    ensures id.Some? <==> |Split(path, '/')| > 2
  {
    var parts := Split(path, '/');
    if |parts| > 2 then Some(parts[2]) else None
  }

  /** The normalised story URL. */
  function StoryUrl(path: string): (url: Option<string>)
    ensures url.Some? <==> StoryId(path).Some?
  {
    match StoryId(path)
    case None => None
    case Some(id) => Some("https://" + SiteDomain + "/book/" + id)
  }

  /** A path made of segments without '/' has its third segment as the id, so
      `/book/<id>` and `/book/<id>/...` both give `<id>`. */
  lemma StoryIdIsThirdSegment(parts: seq<string>)
    requires |parts| > 2
    requires forall k :: 0 <= k < |parts| ==> '/' !in parts[k]
    ensures StoryId(Join(parts, '/')) == Some(parts[2])
    ensures StoryUrl(Join(parts, '/')) == Some("https://tl.rulate.ru/book/" + parts[2])
  {
    StoryIdOfJoin(parts);
    BookPrefix();
  }

  lemma StoryIdOfJoin(parts: seq<string>)
    requires |parts| > 2
    requires forall k :: 0 <= k < |parts| ==> '/' !in parts[k]
    ensures StoryId(Join(parts, '/')) == Some(parts[2])
  {
    JoinSplit(parts, '/');
  }

  lemma BookPrefix()
    ensures "https://" + SiteDomain + "/book/" == "https://tl.rulate.ru/book/"
  {
  }

  // ---------------------------------------------------------------- cover

  /** The absolutisation of a cover URL. */
  function CoverUrl(u: string): (r: string)
    ensures StartsWith(r, "http")
  {
    if StartsWith(u, "http") then u
    else if StartsWith(u, "//") then "https:" + u
    else SiteRoot + (if StartsWith(u, "/") then "" else "/") + u
  }

  /** Each form of a cover URL maps as documented: exactly one slash joins the
      site and a relative path. */
  lemma CoverUrlForms(u: string)
    ensures StartsWith(u, "http") ==> CoverUrl(u) == u
    ensures !StartsWith(u, "http") && StartsWith(u, "//") ==> CoverUrl(u) == "https:" + u
    ensures !StartsWith(u, "http") && !StartsWith(u, "//") && StartsWith(u, "/") ==> CoverUrl(u) == SiteRoot + u
    ensures !StartsWith(u, "/") && !StartsWith(u, "http") ==> CoverUrl(u) == SiteRoot + "/" + u
    ensures CoverUrl(CoverUrl(u)) == CoverUrl(u)
  {
  }

  /** A cover `<img>`: its `data-src` and `src` attributes. */
  datatype CoverImg = CoverImg(dataSrc: Option<string>, src: Option<string>)

  /** `data-src or src`: None when neither is a non-empty string. */
  function ImgSource(dataSrc: Option<string>, src: Option<string>): Option<string>
  {
    if dataSrc.Some? && dataSrc.value != "" then dataSrc
    else if src.Some? && src.value != "" then src
    else None
  }

  /** What the cover loop hands to the story: the cover, and the other images. */
  datatype Covers = Covers(cover: Option<string>, images: seq<string>)

  /** The cover loop over the tags: the image at position 0 becomes the cover,
      every later one an extra image; a tag without a URL is skipped, and
      when that is the first tag there is no cover. */
  /** One more cover tag: the first sets the cover, a later one adds an image. */
  lemma CoverRuleStep(imgs: seq<CoverImg>, i: nat)
    requires i < |imgs|
    ensures var before := CoverRule(imgs[..i]);
            CoverRule(imgs[..i + 1])
            == match ImgSource(imgs[i].dataSrc, imgs[i].src)
               case None => before
               case Some(u) =>
                 if i == 0 then before.(cover := Some(CoverUrl(u)))
                 else before.(images := before.images + [CoverUrl(u)])
  {
    assert imgs[..i + 1][..i] == imgs[..i];
  }

  function CoverRule(imgs: seq<CoverImg>): (c: Covers)
    ensures |c.images| < |imgs| || (imgs == [] && c.images == [])
    decreases |imgs|
  {
    if imgs == [] then Covers(None, [])
    else
      var before := CoverRule(imgs[..|imgs| - 1]);
      var i := |imgs| - 1;
      match ImgSource(imgs[i].dataSrc, imgs[i].src)
      case None => before
      case Some(u) =>
        if i == 0 then before.(cover := Some(CoverUrl(u)))
        else before.(images := before.images + [CoverUrl(u)])
  }

  /** The cover comes from the first tag alone, and every tag after it with a
      URL adds one image, in order. */
  lemma {:induction false} CoverRuleProperties(imgs: seq<CoverImg>)
    ensures CoverRule(imgs).cover.Some? <==> imgs != [] && ImgSource(imgs[0].dataSrc, imgs[0].src).Some?
    ensures CoverRule(imgs).cover.Some? ==>
              CoverRule(imgs).cover.value == CoverUrl(ImgSource(imgs[0].dataSrc, imgs[0].src).value)
    ensures imgs != [] ==> CoverRule(imgs).images == Extras(imgs[1..])
    decreases |imgs|
  {
    if |imgs| > 1 {
      var init := imgs[..|imgs| - 1];
      CoverRuleProperties(init);
      assert init[0] == imgs[0];
      assert imgs[1..][..|imgs[1..]| - 1] == init[1..];
    }
  }

  /** The absolutised URLs of the tags that have one. */
  function Extras(imgs: seq<CoverImg>): seq<string>
    decreases |imgs|
  {
    if imgs == [] then []
    else
      var before := Extras(imgs[..|imgs| - 1]);
      match ImgSource(imgs[|imgs| - 1].dataSrc, imgs[|imgs| - 1].src)
      case None => before
      case Some(u) => before + [CoverUrl(u)]
  }

  // ---------------------------------------------------------------- status

  /** The status metadata: set only for a non-empty status text; "In-Progress"
      when its lower case contains "продолжается", else "Completed". */
  function Status(statusText: Option<string>): (s: Option<string>)
  {
    match statusText
    case None => None
    case Some(t) =>
      if t == "" then None
      else if Contains(Lower(t), Ongoing) then Some("In-Progress")
      else Some("Completed")
  }

  /** The status is one of the two values whenever it is set, and it is
      "In-Progress" exactly when the text mentions an ongoing release. */
  lemma StatusValues(statusText: Option<string>)
    ensures Status(statusText).Some? <==> statusText.Some? && statusText.value != ""
    ensures Status(statusText) == Some("In-Progress") <==>
              statusText.Some? && statusText.value != "" && Contains(Lower(statusText.value), Ongoing)
    ensures Status(statusText).Some? ==> Status(statusText).value in {"In-Progress", "Completed"}
  {
  }

  /** The capitalised form on the page counts as ongoing too. */
  lemma CapitalisedOngoing()
    ensures Status(Some("Продолжается")) == Some("In-Progress")
  {
    assert Lower("Продолжается") == Ongoing;
    assert Contains(Ongoing, Ongoing) by { assert StartsWith(Ongoing, Ongoing); }
  }

  // ---------------------------------------------------------------- chapters

  /** A row of the chapter table: the text of its `td>a.btn` button and of its
      `td.t a` link with the link's `href`, None when absent. */
  datatype ChapterRow = ChapterRow(button: Option<string>, link: Option<(string, string)>)

  /** A chapter: its title and URL. */
  datatype Chapter = Chapter(title: string, url: string)

  /** A relative chapter href gets the site root prepended, with no slash added. */
  function ChapterUrl(href: string): (url: string)
    ensures StartsWith(url, "http")
  {
    if StartsWith(href, "http") then href else SiteRoot + href
  }

  /** Whether a row is a readable chapter with a link. */
  predicate Readable(row: ChapterRow)
  {
    row.button.Some? && Strip(row.button.value) == ReadLabel && row.link.Some?
  }

  /** The chapter list built from the rows, in table order. */
  function Chapters(rows: seq<ChapterRow>): (cs: seq<Chapter>)
    ensures |cs| <= |rows|
    ensures forall k :: 0 <= k < |cs| ==> StartsWith(cs[k].url, "http")
    decreases |rows|
  {
    if rows == [] then []
    else
      var before := Chapters(rows[..|rows| - 1]);
      var row := rows[|rows| - 1];
      if Readable(row) then before + [Chapter(Strip(row.link.value.0), ChapterUrl(row.link.value.1))]
      else before
  }

  /** Only readable rows give chapters, each readable row gives one, in table
      order: the list is the readable rows mapped to their chapters. */
  lemma {:induction false} ChaptersAreReadableRows(rows: seq<ChapterRow>)
    ensures |Chapters(rows)| == CountReadable(rows)
    ensures forall r :: r in rows && Readable(r) ==>
              Chapter(Strip(r.link.value.0), ChapterUrl(r.link.value.1)) in Chapters(rows)
    ensures forall c :: c in Chapters(rows) ==>
              exists r :: r in rows && Readable(r) && c == Chapter(Strip(r.link.value.0), ChapterUrl(r.link.value.1))
    decreases |rows|
  {
    if rows != [] {
      var init := rows[..|rows| - 1];
      ChaptersAreReadableRows(init);
      assert rows == init + [rows[|rows| - 1]];
      forall r | r in rows && Readable(r)
        ensures Chapter(Strip(r.link.value.0), ChapterUrl(r.link.value.1)) in Chapters(rows)
      {
        if r in init {
        } else {
          assert r == rows[|rows| - 1];
        }
      }
    }
  }

  function CountReadable(rows: seq<ChapterRow>): nat
    decreases |rows|
  {
    if rows == [] then 0
    else CountReadable(rows[..|rows| - 1]) + (if Readable(rows[|rows| - 1]) then 1 else 0)
  }

  /** The order the chapters are added in: reversed when the page's sort input
      has value '0'. */
  function ChapterOrder(rows: seq<ChapterRow>, sortedDescending: bool): (cs: seq<Chapter>)
  {
    if sortedDescending then Reverse(Chapters(rows)) else Chapters(rows)
  }

  /** The row loop of `extractChapterUrlsAndMetadata`: one chapter per readable row. */
  method CollectChapters(rows: seq<ChapterRow>) returns (list: seq<Chapter>)
    ensures list == Chapters(rows)
  {
    list := [];
    var i := 0;
    while i < |rows|
      invariant 0 <= i <= |rows|
      invariant list == Chapters(rows[..i])
    {
      assert rows[..i + 1][..i] == rows[..i];
      var row := rows[i];
      if row.button.Some? && Strip(row.button.value) == ReadLabel {
        if row.link.Some? {
          var (text, href) := row.link.value;
          var url := if StartsWith(href, "http") then href else SiteRoot + href;
          list := list + [Chapter(Strip(text), url)];
        }
      }
      i := i + 1;
    }
    assert rows[..i] == rows;
  }

  /** Reversal keeps the chapters and puts the last one first. */
  lemma ChapterOrderProperties(rows: seq<ChapterRow>, sortedDescending: bool)
    ensures |ChapterOrder(rows, sortedDescending)| == |Chapters(rows)|
    ensures forall k :: 0 <= k < |Chapters(rows)| ==>
              ChapterOrder(rows, sortedDescending)[k]
              == Chapters(rows)[if sortedDescending then |Chapters(rows)| - 1 - k else k]
    ensures multiset(ChapterOrder(rows, sortedDescending)) == multiset(Chapters(rows))
  {
    if sortedDescending {
      ReverseIsPermutation(Chapters(rows));
    }
  }

  lemma {:induction false} ReverseIsPermutation<T>(s: seq<T>)
    ensures multiset(Reverse(s)) == multiset(s)
    decreases |s|
  {
    if s != [] {
      ReverseIsPermutation(s[1..]);
      assert s == [s[0]] + s[1..];
    }
  }

  // ---------------------------------------------------------------- chapter images

  /** An `<img>` of the chapter text. */
  datatype InlineImg = InlineImg(dataSrc: Option<string>, src: Option<string>,
                                 alt: Option<string>, title: Option<string>)

  /** The URL handed to the story for an image, or None when it is skipped:
      no URL, or an XPath-like `/html/...` value. */
  function InlineUrl(img: InlineImg): (u: Option<string>)
    ensures u.Some? ==> StartsWith(u.value, "http")
  {
    match ImgSource(img.dataSrc, img.src)
    case None => None
    case Some(raw) =>
      if StartsWith(raw, "/html/") then None
      else
        var u := if !(StartsWith(raw, "http") || StartsWith(raw, "//"))
                 then SiteRoot + (if StartsWith(raw, "/") then "" else "/") + raw
                 else raw;
        if StartsWith(u, "//") then Some("https:" + u) else Some(u)
  }

  /** Each form of an image URL maps as documented. */
  lemma InlineUrlForms(img: InlineImg)
    ensures var raw := ImgSource(img.dataSrc, img.src);
            (raw.None? ==> InlineUrl(img).None?)
            && (raw.Some? && StartsWith(raw.value, "/html/") ==> InlineUrl(img).None?)
            && (raw.Some? && StartsWith(raw.value, "http") ==> InlineUrl(img) == raw)
            && (raw.Some? && StartsWith(raw.value, "//") ==> InlineUrl(img) == Some("https:" + raw.value))
            && (raw.Some? && !StartsWith(raw.value, "/") && !StartsWith(raw.value, "http") ==>
                  InlineUrl(img) == Some(SiteRoot + "/" + raw.value))
            && (raw.Some? && StartsWith(raw.value, "/") && !StartsWith(raw.value, "//")
                && !StartsWith(raw.value, "/html/") ==>
                  InlineUrl(img) == Some(SiteRoot + raw.value))
  {
    var raw := ImgSource(img.dataSrc, img.src);
    if raw.Some? {
      var x := raw.value;
      if StartsWith(x, "http") {
        PrefixesDiffer(x, "http", "//", 0);
        PrefixesDiffer(x, "http", "/html/", 0);
      } else if StartsWith(x, "//") {
        PrefixesDiffer(x, "//", "/html/", 1);
      } else if !StartsWith(x, "/") {
        PrefixesDiffer(SiteRoot + "/" + x, "http", "//", 0);
        assert StartsWith(SiteRoot + "/" + x, "http");
      } else if !StartsWith(x, "/html/") {
        PrefixesDiffer(x, "/", "http", 0);
        assert SiteRoot + "" + x == SiteRoot + x;
        assert StartsWith(SiteRoot + x, "http");
        PrefixesDiffer(SiteRoot + x, "http", "//", 0);
      }
    }
  }

  /** A string cannot start with two prefixes that differ at some index. */
  lemma PrefixesDiffer(x: string, p: string, q: string, k: nat)
    requires k < |p| && k < |q| && p[k] != q[k] && StartsWith(x, p)
    ensures !StartsWith(x, q)
  {
    assert x[k] == p[k];
  }

  /** The tag after processing. An image that is not skipped gets its title
      as alt when it has a non-empty title but no non-empty alt; when handing its
      URL to the story raises (`fails`), its `src` is set to the normalised URL. */
  function Processed(img: InlineImg, fails: string -> bool): (r: InlineImg)
  {
    match InlineUrl(img)
    case None => img
    case Some(u) =>
      var withAlt := if !(img.alt.Some? && img.alt.value != "") && img.title.Some? && img.title.value != ""
                     then img.(alt := img.title) else img;
      if fails(u) then withAlt.(src := Some(u)) else withAlt
  }

  function InlineUrls(imgs: seq<InlineImg>): (urls: seq<string>)
    ensures |urls| <= |imgs|
    ensures forall k :: 0 <= k < |urls| ==> StartsWith(urls[k], "http") && !StartsWith(urls[k], "/html/")
    decreases |imgs|
  {
    if imgs == [] then []
    else
      var before := InlineUrls(imgs[..|imgs| - 1]);
      match InlineUrl(imgs[|imgs| - 1])
      case None => before
      case Some(u) => before + [u]
  }

  /** One more tag adds its URL, if any, to the URLs of the tags before it. */
  lemma InlineUrlsStep(imgs: seq<InlineImg>, i: nat)
    requires i < |imgs|
    ensures InlineUrls(imgs[..i + 1])
            == InlineUrls(imgs[..i]) + (if InlineUrl(imgs[i]).Some? then [InlineUrl(imgs[i]).value] else [])
  {
    assert imgs[..i + 1][..i] == imgs[..i];
  }

  /** Only `alt` and `src` ever change: `alt` only where it was empty and a
      title exists, `src` only to the normalised URL after a failed hand-over;
      a skipped image is left alone, and the processed tag yields the same URL. */
  lemma ProcessedChanges(img: InlineImg, fails: string -> bool)
    ensures Processed(img, fails).(alt := img.alt, src := img.src) == img
    ensures Processed(img, fails).alt != img.alt ==>
              Processed(img, fails).alt == img.title && !(img.alt.Some? && img.alt.value != "")
    ensures Processed(img, fails).src != img.src ==>
              InlineUrl(img).Some? && fails(InlineUrl(img).value) && Processed(img, fails).src == InlineUrl(img)
    ensures InlineUrl(img).None? ==> Processed(img, fails) == img
    ensures InlineUrl(Processed(img, fails)) == InlineUrl(img)
  {
    var r := Processed(img, fails);
    if InlineUrl(img).Some? && fails(InlineUrl(img).value) && !(img.dataSrc.Some? && img.dataSrc.value != "") {
      var u := InlineUrl(img).value;
      assert ImgSource(r.dataSrc, r.src) == Some(u);
      InlineUrlForms(r);
    }
  }

  // ---------------------------------------------------------------- the adapter

  /** The parts of the adapter's story the modelled rules write. */
  class TlRulateAdapter {
    var cover: Option<string>
    var imageUrls: seq<string>
    var status: Option<string>
    var chapters: seq<Chapter>

    constructor()
      ensures cover == None && imageUrls == [] && status == None && chapters == []
    {
      cover := None;
      imageUrls := [];
      status := None;
      chapters := [];
    }

    /** The cover loop of `extractChapterUrlsAndMetadata`. */
    method ProcessCovers(imgs: seq<CoverImg>)
      modifies this`cover, this`imageUrls
      ensures cover == (if CoverRule(imgs).cover.Some? then CoverRule(imgs).cover else old(cover))
      ensures imageUrls == old(imageUrls) + CoverRule(imgs).images
    {
      var i := 0;
      while i < |imgs|
        invariant 0 <= i <= |imgs|
        invariant cover == (if CoverRule(imgs[..i]).cover.Some? then CoverRule(imgs[..i]).cover else old(cover))
        invariant imageUrls == old(imageUrls) + CoverRule(imgs[..i]).images
      {
        CoverRuleStep(imgs, i);
        var u := ImgSource(imgs[i].dataSrc, imgs[i].src);
        if u.Some? {
          var coverUrl := CoverUrl(u.value);
          if i == 0 {
            cover := Some(coverUrl);
          } else {
            imageUrls := imageUrls + [coverUrl];
          }
        }
        i := i + 1;
      }
      assert imgs[..i] == imgs;
    }

    /** The status rule of `extractChapterUrlsAndMetadata`. */
    method SetStatus(statusText: Option<string>)
      modifies this`status
      ensures status == (if Status(statusText).Some? then Status(statusText) else old(status))
    {
      if statusText.Some? && statusText.value != "" {
        status := Some(if Contains(Lower(statusText.value), Ongoing) then "In-Progress" else "Completed");
      }
    }

    /** The chapter loop and the optional `chapters.reverse()`. */
    method BuildChapters(rows: seq<ChapterRow>, sortedDescending: bool)
      modifies this`chapters
      ensures chapters == ChapterOrder(rows, sortedDescending)
    {
      var list := CollectChapters(rows);
      if sortedDescending {
        var a := new Chapter[|list|](k requires 0 <= k < |list| => list[k]);
        ReverseInPlace(a);
        list := a[..];
      }
      chapters := list;
    }

    /** The image loop of `getChapterText`: hands each image URL to the story,
        sets `alt` from `title` where needed, and writes the URL back to `src`
        when the hand-over raises (`fails`). */
    method ProcessImages(imgs: array<InlineImg>, fails: string -> bool) returns (urls: seq<string>)
      modifies imgs
      ensures urls == InlineUrls(old(imgs[..]))
      ensures forall k :: 0 <= k < imgs.Length ==> imgs[k] == Processed(old(imgs[k]), fails)
    {
      urls := [];
      var i := 0;
      while i < imgs.Length
        invariant 0 <= i <= imgs.Length
        invariant urls == InlineUrls(old(imgs[..])[..i])
        invariant forall k :: 0 <= k < i ==> imgs[k] == Processed(old(imgs[k]), fails)
        invariant forall k :: i <= k < imgs.Length ==> imgs[k] == old(imgs[k])
      {
        InlineUrlsStep(old(imgs[..]), i);
        assert old(imgs[..])[i] == old(imgs[i]);
        var processed, url := ProcessImage(imgs[i], fails);
        imgs[i] := processed;
        if url.Some? {
          urls := urls + [url.value];
        }
        i := i + 1;
      }
      assert old(imgs[..])[..i] == old(imgs[..]);
    }
  }

  /** One `<img>` of the image loop: its URL, and the tag after setting `alt`
      and, when the hand-over raises, `src`. */
  method ProcessImage(img: InlineImg, fails: string -> bool) returns (r: InlineImg, url: Option<string>)
    ensures r == Processed(img, fails) && url == InlineUrl(img)
  {
    r := img;
    url := InlineUrl(img);
    if url.Some? {
      if !(img.alt.Some? && img.alt.value != "") && img.title.Some? && img.title.value != "" {
        r := r.(alt := img.title);
      }
      if fails(url.value) {
        r := r.(src := url);
      }
    }
  }

  /** `list.reverse()` on an array. */
  method ReverseInPlace<T>(a: array<T>)
    modifies a
    ensures a[..] == Reverse(old(a[..]))
  {
    var i := 0;
    var j := a.Length - 1;
    while i < j
      invariant 0 <= i <= a.Length && j == a.Length - 1 - i
      invariant i > j ==> i == j + 1 || i == j + 2
      invariant forall k :: 0 <= k < i ==> a[k] == old(a[a.Length - 1 - k])
      invariant forall k :: j < k < a.Length ==> a[k] == old(a[a.Length - 1 - k])
      invariant forall k :: i <= k <= j ==> a[k] == old(a[k])
    {
      a[i], a[j] := a[j], a[i];
      i := i + 1;
      j := j - 1;
    }
  }
}
