/** The chapter-text cipher of the author.today adapters (`decrypt_chapter_text`).
    The server sends each chapter XOR-ed, code point by code point, with a key
    that cycles over the text. The key is the reversed reader secret, then "@_@",
    then the user id.

    Python strings are sequences of code points, lone surrogates included, so
    this module works on `seq<CodePoint>` rather than on Dafny strings, which
    cannot hold surrogates. */
module ChapterCipher {
  import opened Common

  const MaxCodePoint: bv21 := 0x10FFFF

  /** One element of a Python `str`: an `ord` value, which fits in 21 bits. */
  type CodePoint = c: bv21 | c <= 0x10FFFF

  /** A Python `str`. */
  type PyText = seq<CodePoint>

  const LessThan: CodePoint := 0x3C     // '<'
  const GreaterThan: CodePoint := 0x3E  // '>'
  const KeyJoint: PyText := [0x40, 0x5F, 0x40]  // "@_@"

  /** Python's `a ^ b` on two code points. The result fits in 21 bits too, but
      can exceed the largest code point. */
  function Xor(a: CodePoint, b: CodePoint): (r: bv21)
  {
    a ^ b
  }

  /** XOR-ing twice with the same key code point gives back the original. */
  lemma XorTwice(a: CodePoint, b: CodePoint)
    requires Xor(a, b) <= MaxCodePoint
    ensures Xor(Xor(a, b), b) == a
  {
  }

  /** The decryption key: `reader_secret[::-1] + "@_@" + (user_id or "")`. */
  function Key(secret: PyText, userId: Option<PyText>): (key: PyText)
    ensures |key| == |secret| + 3 + (if userId.Some? then |userId.value| else 0)
    ensures key[..|secret|] == Reverse(secret)
    ensures key[|secret|..|secret| + 3] == KeyJoint
  {
    Reverse(secret) + KeyJoint + (if userId.Some? then userId.value else [])
  }

  /** The XOR of `text` with `key` repeated over it, before `chr` is applied:
      position `i` uses key position `i % |key|`. */
  function Stream(text: PyText, key: PyText): (codes: seq<bv21>)
    requires |key| > 0
    ensures |codes| == |text|
    ensures forall i :: 0 <= i < |text| ==> codes[i] == Xor(text[i], key[i % |key|])
    decreases |text|
  {
    if text == [] then []
    else Stream(text[..|text| - 1], key) + [Xor(text[|text| - 1], key[(|text| - 1) % |key|])]
  }

  /** Every code is something `chr` accepts. */
  predicate AllCodePoints(codes: seq<bv21>)
  {
    forall i :: 0 <= i < |codes| ==> codes[i] <= MaxCodePoint
  }

  /** `''.join(chr(c) for c in Stream(text, key))`: None when some `chr` raises
      ValueError, because the XOR left the code-point range. */
  function Transform(text: PyText, key: PyText): (r: Option<PyText>)
    requires |key| > 0
  {
    var codes := Stream(text, key);
    if AllCodePoints(codes) then Some(codes) else None
  }

  /** The loop of `decrypt_chapter_text`: append `chr(text[pos] ^ key[pos % len])`
      for every position; the first out-of-range code ends it with an exception. */
  method XorCycle(text: PyText, key: PyText) returns (r: Option<PyText>)
    requires |key| > 0
    ensures r == Transform(text, key)
  {
    var result: PyText := [];
    var pos := 0;
    while pos < |text|
      invariant 0 <= pos <= |text|
      invariant result == Stream(text[..pos], key)
    {
      var code := Xor(text[pos], key[pos % |key|]);
      if code > MaxCodePoint {
        StreamPrefix(text, key, pos + 1);
        assert Stream(text[..pos + 1], key)[pos] == code;
        return None;
      }
      StreamSnoc(text, key, pos);
      result := result + [code];
      pos := pos + 1;
    }
    assert text[..pos] == text;
    r := Some(result);
  }

  /** The stream of a prefix is the prefix of the stream. */
  lemma StreamPrefix(text: PyText, key: PyText, n: nat)
    requires |key| > 0 && n <= |text|
    ensures Stream(text[..n], key) == Stream(text, key)[..n]
  {
  }

  /** One more position extends the stream by one code. */
  lemma StreamSnoc(text: PyText, key: PyText, pos: nat)
    requires |key| > 0 && pos < |text|
    ensures Stream(text[..pos + 1], key) == Stream(text[..pos], key) + [Xor(text[pos], key[pos % |key|])]
  {
    assert text[..pos + 1][..pos] == text[..pos];
  }

  /** A successful transform keeps the length and is undone by a second
      transform with the same key. */
  lemma {:induction false} TransformInvolution(text: PyText, key: PyText)
    requires |key| > 0 && Transform(text, key).Some?
    ensures |Transform(text, key).value| == |text|
    ensures Transform(Transform(text, key).value, key) == Some(text)
  {
    var out := Transform(text, key).value;
    var back := Stream(out, key);
    forall i | 0 <= i < |text|
      ensures back[i] == text[i]
    {
      XorTwice(text[i], key[i % |key|]);
    }
    assert back == text;
  }

  /** `decrypt_chapter_text` as in adapter_authortoday_login_work.py and
      adapter_authortoday_backup.py: an empty text or secret gives "", so does
      an exception in the loop; otherwise the transformed text. */
  function DecryptPlain(text: PyText, secret: PyText, userId: Option<PyText>): (r: PyText)
  {
    if text == [] || secret == [] then []
    else
      match Transform(text, Key(secret, userId))
      case None => []
      case Some(plain) => plain
  }

  /** `decrypt_chapter_text` as in adapter_authortoday.py: in addition, a result
      without both '<' and '>' is not taken for HTML and gives "". */
  function DecryptChecked(text: PyText, secret: PyText, userId: Option<PyText>): (r: PyText)
    ensures r == [] || r == DecryptPlain(text, secret, userId)
    ensures r != [] ==> LessThan in r && GreaterThan in r
  {
    var plain := DecryptPlain(text, secret, userId);
    if LessThan in plain && GreaterThan in plain then plain else []
  }

  /** The plain decryption: nothing for an empty text or secret, and otherwise
      either nothing (the XOR left the code-point range) or a text of the same
      length that encrypts back to the input. */
  lemma PlainProperties(text: PyText, secret: PyText, userId: Option<PyText>)
    ensures text == [] || secret == [] ==> DecryptPlain(text, secret, userId) == []
    ensures DecryptPlain(text, secret, userId) == []
            || |DecryptPlain(text, secret, userId)| == |text|
    ensures DecryptPlain(text, secret, userId) != [] ==>
              Transform(DecryptPlain(text, secret, userId), Key(secret, userId)) == Some(text)
  {
    if text != [] && secret != [] && Transform(text, Key(secret, userId)).Some? {
      TransformInvolution(text, Key(secret, userId));
    }
  }

  /** Encrypting a chapter with the key and decrypting it again gives the
      chapter back; for the checked variant the chapter must look like HTML. */
  lemma {:induction false} EncryptDecrypt(html: PyText, secret: PyText, userId: Option<PyText>)
    requires html != [] && secret != []
    requires Transform(html, Key(secret, userId)).Some?
    ensures DecryptPlain(Transform(html, Key(secret, userId)).value, secret, userId) == html
    ensures LessThan in html && GreaterThan in html ==>
              DecryptChecked(Transform(html, Key(secret, userId)).value, secret, userId) == html
  {
    TransformInvolution(html, Key(secret, userId));
  }

  /** A cipher text that decrypts to nothing, though text and secret are both
      present: the XOR with the key leaves the code-point range. */
  lemma OutOfRangeGivesNothing()
    ensures DecryptPlain([0xFFFFF], [0x100000], None) == []
  {
    var key := Key([0x100000], None);
    assert key[0] == 0x100000;
    var s := Stream([0xFFFFF], key);
    assert s[0] == 0x1FFFFF;
  }
}
