/** The form-parameter encoder of the FlareSolverr fetcher (`to_key_val_list`
    and `encode_params`, lifted from requests) and the `urlencode(..., doseq=True)`
    serializer it ends in. Python values are modelled by `PyValue`. */
module FormParams {
  import opened Common

  /** The Python values a caller can pass as `parameters`. */
  datatype PyValue =
    | PyNone
    | PyBool(flag: bool)
    | PyInt(num: int)
    | PyStr(text: string)
    | PyBytes(bytes: seq<byte>)
    | PyList(items: seq<PyValue>)
    | PyTuple(items: seq<PyValue>)
    | PyDict(entries: seq<(PyValue, PyValue)>)
    | PyReadable(lines: seq<string>)   // a file-like object: it has `read`, iterates over lines

  datatype PyError =
    | ValueError(message: string)
    | TypeError(message: string)
    | Unmodelled(what: string)   // `str()` of a container or a file object

  /** What `encode_params` returns: its argument itself, or the encoded query string. */
  datatype PostData = Unchanged(original: PyValue) | Encoded(query: string)

  const NotTwoTuples := "cannot encode objects that are not 2-tuples"

  // ---------------------------------------------------------------- Python iteration

  /** `iter(v)` as a sequence, or None when `v` is not iterable. Strings iterate
      over one-character strings, bytes over ints, dicts over their keys. */
  function Items(v: PyValue): (r: Option<seq<PyValue>>)
    ensures r.None? <==> v.PyNone? || v.PyBool? || v.PyInt?
  {
    match v
    case PyNone => None
    case PyBool(_) => None
    case PyInt(_) => None
    case PyStr(s) => Some(CharItems(s))
    case PyBytes(b) => Some(ByteItems(b))
    case PyList(xs) => Some(xs)
    case PyTuple(xs) => Some(xs)
    case PyDict(es) => Some(DictKeys(es))
    case PyReadable(ls) => Some(LineItems(ls))
  }

  function CharItems(s: string): (r: seq<PyValue>)
    ensures |r| == |s| && forall i :: 0 <= i < |s| ==> r[i] == PyStr([s[i]])
    decreases |s|
  {
    if s == [] then [] else [PyStr([s[0]])] + CharItems(s[1..])
  }

  function ByteItems(b: seq<byte>): (r: seq<PyValue>)
    ensures |r| == |b| && forall i :: 0 <= i < |b| ==> r[i] == PyInt(b[i])
    decreases |b|
  {
    if b == [] then [] else [PyInt(b[0])] + ByteItems(b[1..])
  }

  function DictKeys(es: seq<(PyValue, PyValue)>): (r: seq<PyValue>)
    ensures |r| == |es| && forall i :: 0 <= i < |es| ==> r[i] == es[i].0
    decreases |es|
  {
    if es == [] then [] else [es[0].0] + DictKeys(es[1..])
  }

  function LineItems(ls: seq<string>): (r: seq<PyValue>)
    ensures |r| == |ls| && forall i :: 0 <= i < |ls| ==> r[i] == PyStr(ls[i])
    decreases |ls|
  {
    if ls == [] then [] else [PyStr(ls[0])] + LineItems(ls[1..])
  }

  /** `dict.items()` as a list of 2-tuples. */
  function DictItems(es: seq<(PyValue, PyValue)>): (r: seq<PyValue>)
    ensures |r| == |es| && forall i :: 0 <= i < |es| ==> r[i] == PyTuple([es[i].0, es[i].1])
    decreases |es|
  {
    if es == [] then [] else [PyTuple([es[0].0, es[0].1])] + DictItems(es[1..])
  }

  /** `to_key_val_list`: None stays None, a scalar or string is refused, a dict
      becomes its list of (key, value) tuples, anything else becomes `list(value)`. */
  function ToKeyValList(value: PyValue): (r: Result<Option<seq<PyValue>>, PyError>)
    ensures value.PyNone? <==> r == Ok(None)
    ensures r.Err? <==> value.PyStr? || value.PyBytes? || value.PyBool? || value.PyInt?
    ensures r.Err? ==> r.error == ValueError(NotTwoTuples)
  {
    match value
    case PyNone => Ok(None)
    case PyStr(_) => Err(ValueError(NotTwoTuples))
    case PyBytes(_) => Err(ValueError(NotTwoTuples))
    case PyBool(_) => Err(ValueError(NotTwoTuples))
    case PyInt(_) => Err(ValueError(NotTwoTuples))
    case PyDict(es) => Ok(Some(DictItems(es)))
    case _ => Ok(Some(Items(value).value))
  }

  /** `k, vs = item`: unpacking into exactly two names. */
  function Unpack2(item: PyValue): (r: Result<(PyValue, PyValue), PyError>)
    ensures r.Ok? <==> Items(item).Some? && |Items(item).value| == 2
    ensures r.Ok? ==> r.value == (Items(item).value[0], Items(item).value[1])
  {
    match Items(item)
    case None => Err(TypeError("cannot unpack non-iterable object"))
    case Some(xs) =>
      if |xs| > 2 then Err(ValueError("too many values to unpack (expected 2)"))
      else if |xs| < 2 then Err(ValueError("not enough values to unpack (expected 2)"))
      else Ok((xs[0], xs[1]))
  }

  /** A dict's items unpack to exactly its entries, and a list is passed through
      unchanged: `to_key_val_list` loses and reorders nothing. */
  lemma ToKeyValListItems(value: PyValue)
    ensures value.PyDict? ==>
      var r := ToKeyValList(value).value.value;
      |r| == |value.entries| &&
      forall i :: 0 <= i < |r| ==> Unpack2(r[i]) == Ok(value.entries[i])
    ensures value.PyList? || value.PyTuple? ==> ToKeyValList(value) == Ok(Some(value.items))
  {
    if value.PyDict? {
      var r := ToKeyValList(value).value.value;
      forall i | 0 <= i < |r| ensures Unpack2(r[i]) == Ok(value.entries[i]) {
        assert Items(r[i]) == Some([value.entries[i].0, value.entries[i].1]);
      }
    }
  }

  /** The values a key is paired with: a string or a non-iterable is wrapped in a
      one-element list, anything else is iterated (bytes iterate to ints). */
  function ValuesOf(vs: PyValue): (r: seq<PyValue>)
    ensures vs.PyStr? || vs.PyNone? || vs.PyBool? || vs.PyInt? ==> r == [vs]
  {
    if vs.PyStr? || Items(vs).None? then [vs] else Items(vs).value
  }

  /** `x.encode('utf-8') if isinstance(x, text_type) else x` */
  function Utf8IfText(x: PyValue): (r: PyValue)
    ensures !r.PyStr?
    ensures r.PyNone? <==> x.PyNone?
  {
    if x.PyStr? then PyBytes(Utf8Encode(x.text)) else x
  }

  /** The pairs emitted for one key: one per value that is not None, in order. */
  function Emitted(k: PyValue, vals: seq<PyValue>): seq<(PyValue, PyValue)>
    decreases |vals|
  {
    if vals == [] then []
    else
      var last := vals[|vals| - 1];
      Emitted(k, vals[..|vals| - 1])
      + (if last.PyNone? then [] else [(Utf8IfText(k), Utf8IfText(last))])
  }

  /** Every emitted pair carries the encoded key and the encoded form of one
      non-None value; every non-None value is emitted. */
  lemma {:induction false} EmittedValues(k: PyValue, vals: seq<PyValue>)
    ensures |Emitted(k, vals)| <= |vals|
    ensures forall i :: 0 <= i < |Emitted(k, vals)| ==>
      Emitted(k, vals)[i].0 == Utf8IfText(k) && !Emitted(k, vals)[i].1.PyNone?
    ensures forall i :: 0 <= i < |Emitted(k, vals)| ==>
      exists j :: 0 <= j < |vals| && Emitted(k, vals)[i].1 == Utf8IfText(vals[j])
    ensures forall j :: 0 <= j < |vals| && !vals[j].PyNone? ==>
      (Utf8IfText(k), Utf8IfText(vals[j])) in Emitted(k, vals)
    decreases |vals|
  {
    if vals != [] {
      var front := vals[..|vals| - 1];
      EmittedValues(k, front);
      var last := vals[|vals| - 1];
      var ef := Emitted(k, front);
      var tail := if last.PyNone? then [] else [(Utf8IfText(k), Utf8IfText(last))];
      var e := Emitted(k, vals);
      assert e == ef + tail;
      forall i | 0 <= i < |e|
        ensures e[i].0 == Utf8IfText(k) && !e[i].1.PyNone?
      {
        if i < |ef| {
          assert e[i] == ef[i];
        }
      }
      forall i | 0 <= i < |e|
        ensures exists j :: 0 <= j < |vals| && e[i].1 == Utf8IfText(vals[j])
      {
        if i < |ef| {
          assert e[i] == ef[i];
          var j :| 0 <= j < |front| && ef[i].1 == Utf8IfText(front[j]);
          assert vals[j] == front[j];
        } else {
          assert e[i].1 == Utf8IfText(vals[|vals| - 1]);
        }
      }
      forall j | 0 <= j < |vals| && !vals[j].PyNone?
        ensures (Utf8IfText(k), Utf8IfText(vals[j])) in e
      {
        if j < |front| {
          assert front[j] == vals[j];
          assert (Utf8IfText(k), Utf8IfText(vals[j])) in ef;
        } else {
          assert e[|e| - 1] == (Utf8IfText(k), Utf8IfText(vals[j]));
        }
      }
    }
  }

  lemma EmittedOne(k: PyValue, x: PyValue)
    ensures Emitted(k, [x]) == if x.PyNone? then [] else [(Utf8IfText(k), Utf8IfText(x))]
  {
    assert [x][..0] == [];
    assert Emitted(k, []) == [];
  }

  /** The `result` list of `encode_params` for the first items of
      `to_key_val_list(data)`, or the error of the first item that does not unpack. */
  function PairsOf(kvs: seq<PyValue>): Result<seq<(PyValue, PyValue)>, PyError>
    decreases |kvs|
  {
    if kvs == [] then Ok([])
    else
      match PairsOf(kvs[..|kvs| - 1])
      case Err(e) => Err(e)
      case Ok(front) =>
        match Unpack2(kvs[|kvs| - 1])
        case Err(e) => Err(e)
        case Ok(kv) => Ok(front + Emitted(kv.0, ValuesOf(kv.1)))
  }

  /** Appending an item that unpacks appends its emitted pairs. */
  lemma PairsOfSnoc(kvs: seq<PyValue>, item: PyValue)
    requires PairsOf(kvs).Ok? && Unpack2(item).Ok?
    ensures PairsOf(kvs + [item]) ==
      Ok(PairsOf(kvs).value + Emitted(Unpack2(item).value.0, ValuesOf(Unpack2(item).value.1)))
  {
    assert (kvs + [item])[..|kvs|] == kvs;
  }

  /** The list fails exactly when one of its items does not unpack. */
  lemma {:induction false} PairsOfFails(kvs: seq<PyValue>)
    ensures PairsOf(kvs).Err? <==> exists i :: 0 <= i < |kvs| && Unpack2(kvs[i]).Err?
    decreases |kvs|
  {
    if kvs != [] {
      var front := kvs[..|kvs| - 1];
      PairsOfFails(front);
      if exists i :: 0 <= i < |front| && Unpack2(front[i]).Err? {
        var i :| 0 <= i < |front| && Unpack2(front[i]).Err?;
        assert kvs[i] == front[i];
      }
      if exists i :: 0 <= i < |kvs| && Unpack2(kvs[i]).Err? {
        var i :| 0 <= i < |kvs| && Unpack2(kvs[i]).Err?;
        if i < |front| {
          assert front[i] == kvs[i];
        }
      }
    }
  }

  /** The append loops of `encode_params`: for each item, unpack it, wrap a
      scalar value, and append one encoded pair per value that is not None. */
  method CollectPairs(kvs: seq<PyValue>) returns (r: Result<seq<(PyValue, PyValue)>, PyError>)
    ensures r == PairsOf(kvs)
  {
    var result: seq<(PyValue, PyValue)> := [];
    var i := 0;
    while i < |kvs|
      invariant 0 <= i <= |kvs|
      invariant PairsOf(kvs[..i]) == Ok(result)
    {
      assert kvs[..i + 1][..i] == kvs[..i];
      var kv := Unpack2(kvs[i]);
      if kv.Err? {
        r := Err(kv.error);
        PairsOfStopsAtError(kvs, i + 1);
        return;
      }
      var k := kv.value.0;
      var vals := ValuesOf(kv.value.1);
      var front := result;
      var j := 0;
      while j < |vals|
        invariant 0 <= j <= |vals|
        invariant result == front + Emitted(k, vals[..j])
      {
        assert vals[..j + 1][..j] == vals[..j];
        var v := vals[j];
        if !v.PyNone? {
          result := result + [(Utf8IfText(k), Utf8IfText(v))];
        }
        j := j + 1;
      }
      assert vals[..j] == vals;
      i := i + 1;
    }
    assert kvs[..i] == kvs;
    r := Ok(result);
  }

  /** Once a prefix fails, every longer prefix fails with the same error. */
  lemma {:induction false} PairsOfStopsAtError(kvs: seq<PyValue>, n: nat)
    requires n <= |kvs|
    requires PairsOf(kvs[..n]).Err?
    ensures PairsOf(kvs) == PairsOf(kvs[..n])
    decreases |kvs| - n
  {
    if n < |kvs| {
      assert kvs[..n + 1][..n] == kvs[..n];
      PairsOfStopsAtError(kvs, n + 1);
    } else {
      assert kvs[..n] == kvs;
    }
  }

  // ---------------------------------------------------------------- urlencode

  /** `str(x)` for the values whose text the model fixes. */
  function Str(x: PyValue): (r: Result<string, PyError>)
    ensures x.PyStr? ==> r == Ok(x.text)
    ensures x.PyInt? && x.num >= 0 ==> r.Ok? && AllDigits(r.value)
  {
    match x
    case PyNone => Ok("None")
    case PyBool(b) => Ok(if b then "True" else "False")
    case PyInt(n) => Ok(if n < 0 then "-" + NatToString(-n) else NatToString(n))
    case PyStr(s) => Ok(s)
    case _ => Err(Unmodelled("str() of a bytes, container or file object"))
  }

  /** The bytes `quote_plus` is applied to: bytes as they are, anything else
      through `str()` and UTF-8. */
  function FieldBytes(x: PyValue): Result<seq<byte>, PyError>
  {
    if x.PyBytes? then Ok(x.bytes)
    else match Str(x)
      case Err(e) => Err(e)
      case Ok(s) => Ok(Utf8Encode(s))
  }

  function FieldBytesAll(xs: seq<PyValue>): Result<seq<seq<byte>>, PyError>
    decreases |xs|
  {
    if xs == [] then Ok([])
    else match (FieldBytes(xs[0]), FieldBytesAll(xs[1..]))
      case (Err(e), _) => Err(e)
      case (_, Err(e)) => Err(e)
      case (Ok(b), Ok(rest)) => Ok([b] + rest)
  }

  /** The value side of `urlencode(..., doseq=True)`: bytes and str give one field;
      a value without `len()` gives `str(v)`; a sized value gives one field per element. */
  function FieldValues(v: PyValue): Result<seq<seq<byte>>, PyError>
  {
    match v
    case PyBytes(b) => Ok([b])
    case PyStr(s) => Ok([Utf8Encode(s)])
    case PyList(xs) => FieldBytesAll(xs)
    case PyTuple(xs) => FieldBytesAll(xs)
    case PyDict(_) => FieldBytesAll(Items(v).value)
    case _ =>
      match FieldBytes(v)
      case Err(e) => Err(e)
      case Ok(b) => Ok([b])
  }

  /** The (key, value) byte fields that `urlencode` serializes, in order. */
  function Fields(pairs: seq<(PyValue, PyValue)>): Result<seq<(seq<byte>, seq<byte>)>, PyError>
    decreases |pairs|
  {
    if pairs == [] then Ok([])
    else match (FieldBytes(pairs[0].0), FieldValues(pairs[0].1), Fields(pairs[1..]))
      case (Err(e), _, _) => Err(e)
      case (_, Err(e), _) => Err(e)
      case (_, _, Err(e)) => Err(e)
      case (Ok(k), Ok(vs), Ok(rest)) =>
        Ok(seq(|vs|, i requires 0 <= i < |vs| => (k, vs[i])) + rest)
  }

  /** The characters `quote_plus` leaves as they are. */
  predicate Unreserved(x: byte)
  {
    (0x41 <= x <= 0x5A) || (0x61 <= x <= 0x7A) || (0x30 <= x <= 0x39)
    || x == 0x5F || x == 0x2E || x == 0x2D || x == 0x7E
  }

  function HexDigit(n: nat): char
    requires n < 16
  {
    if n < 10 then (0x30 + n) as char else (0x41 + n - 10) as char
  }

  predicate IsHex(c: char)
  {
    ('0' <= c <= '9') || ('A' <= c <= 'F') || ('a' <= c <= 'f')
  }

  function HexValue(c: char): nat
    requires IsHex(c)
  {
    if '0' <= c <= '9' then c as int - 0x30
    else if 'A' <= c <= 'F' then c as int - 0x41 + 10
    else c as int - 0x61 + 10
  }

  /** `quote_plus` of one byte: kept, `+` for a space, else `%XX` in upper-case hex. */
  function QuoteByte(x: byte): (r: string)
    ensures '&' !in r && '=' !in r
  {
    if Unreserved(x) then [x as char]
    else if x == 0x20 then "+"
    else ['%', HexDigit(x / 16), HexDigit(x % 16)]
  }

  function QuotePlus(b: seq<byte>): (r: string)
    ensures '&' !in r && '=' !in r
    decreases |b|
  {
    if b == [] then "" else QuoteByte(b[0]) + QuotePlus(b[1..])
  }

  /** `unquote_plus` to bytes: the decoder `quote_plus` is checked against. */
  function UnquotePlus(s: string): seq<byte>
    decreases |s|
  {
    if s == [] then []
    else if s[0] == '+' then [0x20] + UnquotePlus(s[1..])
    else if s[0] == '%' && |s| >= 3 && IsHex(s[1]) && IsHex(s[2]) then
      [HexValue(s[1]) * 16 + HexValue(s[2])] + UnquotePlus(s[3..])
    else Utf8Char(s[0]) + UnquotePlus(s[1..])
  }

  lemma UnquoteQuoteByte(x: byte, rest: string)
    ensures UnquotePlus(QuoteByte(x) + rest) == [x] + UnquotePlus(rest)
  {
    var s := QuoteByte(x) + rest;
    if Unreserved(x) {
      assert s[0] == x as char && s[1..] == rest;
    } else if x == 0x20 {
      assert s[0] == '+' && s[1..] == rest;
    } else {
      assert s[0] == '%' && s[1] == HexDigit(x / 16) && s[2] == HexDigit(x % 16);
      assert s[3..] == rest;
    }
  }

  /** `unquote_plus` undoes `quote_plus` on every byte string. */
  lemma {:induction false} UnquoteQuote(b: seq<byte>)
    ensures UnquotePlus(QuotePlus(b)) == b
    decreases |b|
  {
    if b != [] {
      UnquoteQuote(b[1..]);
      UnquoteQuoteByte(b[0], QuotePlus(b[1..]));
    }
  }

  /** `k=v` joined with `&`, each side through `quote_plus`. */
  function Serialize(fields: seq<(seq<byte>, seq<byte>)>): string
  {
    Join(seq(|fields|, i requires 0 <= i < |fields| =>
           QuotePlus(fields[i].0) + "=" + QuotePlus(fields[i].1)), '&')
  }

  /** The query-string parser `Serialize` is checked against. */
  function Parse(query: string): seq<(seq<byte>, seq<byte>)>
  {
    if query == [] then []
    else
      var parts := Split(query, '&');
      seq(|parts|, i requires 0 <= i < |parts| =>
        var kv := Split(parts[i], '=');
        (UnquotePlus(kv[0]), if |kv| > 1 then UnquotePlus(kv[1]) else []))
  }

  /** Parsing a serialized query gives back exactly its fields, in order. */
  lemma ParseSerialize(fields: seq<(seq<byte>, seq<byte>)>)
    ensures Parse(Serialize(fields)) == fields
  {
    var parts := seq(|fields|, i requires 0 <= i < |fields| =>
                   QuotePlus(fields[i].0) + "=" + QuotePlus(fields[i].1));
    if fields == [] {
      assert Serialize(fields) == "";
    } else {
      forall k | 0 <= k < |parts| ensures '&' !in parts[k] {
        assert parts[k] == QuotePlus(fields[k].0) + "=" + QuotePlus(fields[k].1);
      }
      JoinSplit(parts, '&');
      assert Serialize(fields) != [] by {
        assert |parts[0]| >= 1;
        if |parts| > 1 {
          assert Join(parts, '&') == parts[0] + ['&'] + Join(parts[1..], '&');
        }
      }
      var r := Parse(Serialize(fields));
      assert |r| == |fields|;
      forall i | 0 <= i < |fields| ensures r[i] == fields[i] {
        var qk := QuotePlus(fields[i].0);
        var qv := QuotePlus(fields[i].1);
        assert parts[i] == Join([qk, qv], '=') by {
          assert Join([qv], '=') == qv;
          assert [qk, qv][1..] == [qv];
        }
        JoinSplit([qk, qv], '=');
        UnquoteQuote(fields[i].0);
        UnquoteQuote(fields[i].1);
      }
    }
  }

  /** `urlencode(pairs, doseq=True)`. */
  function UrlEncode(pairs: seq<(PyValue, PyValue)>): Result<string, PyError>
  {
    match Fields(pairs)
    case Err(e) => Err(e)
    case Ok(fs) => Ok(Serialize(fs))
  }

  // ---------------------------------------------------------------- encode_params

  /** What `encode_params(data)` returns. */
  function EncodedParams(data: PyValue): (r: Result<PostData, PyError>)
    ensures (data.PyStr? || data.PyBytes? || data.PyReadable? || data.PyNone?
             || data.PyBool? || data.PyInt?) ==> r == Ok(Unchanged(data))
    ensures r.Ok? && r.value.Encoded? ==> data.PyList? || data.PyTuple? || data.PyDict?
  {
    if data.PyStr? || data.PyBytes? || data.PyReadable? || Items(data).None? then
      Ok(Unchanged(data))
    else
      var kvs := ToKeyValList(data).value.value;
      match PairsOf(kvs)
      case Err(e) => Err(e)
      case Ok(pairs) =>
        match UrlEncode(pairs)
        case Err(e) => Err(e)
        case Ok(q) => Ok(Encoded(q))
  }

  /** `encode_params`, with its append loops. */
  method EncodeParams(data: PyValue) returns (r: Result<PostData, PyError>)
    ensures r == EncodedParams(data)
  {
    if data.PyStr? || data.PyBytes? {
      return Ok(Unchanged(data));
    } else if data.PyReadable? {
      return Ok(Unchanged(data));
    } else if Items(data).Some? {
      var kvs := ToKeyValList(data).value.value;
      var pairs := CollectPairs(kvs);
      if pairs.Err? {
        return Err(pairs.error);
      }
      var q := UrlEncode(pairs.value);
      if q.Err? {
        return Err(q.error);
      }
      return Ok(Encoded(q.value));
    } else {
      return Ok(Unchanged(data));
    }
  }

  /** A dict whose keys and values are all strings. */
  predicate StringEntries(es: seq<(PyValue, PyValue)>)
  {
    forall i :: 0 <= i < |es| ==> es[i].0.PyStr? && es[i].1.PyStr?
  }

  /** The UTF-8 fields such a dict should encode to, one per entry, in order. */
  function Utf8Entries(es: seq<(PyValue, PyValue)>): seq<(seq<byte>, seq<byte>)>
    requires StringEntries(es)
  {
    seq(|es|, i requires 0 <= i < |es| => (Utf8Encode(es[i].0.text), Utf8Encode(es[i].1.text)))
  }

  function BytesPairs(fs: seq<(seq<byte>, seq<byte>)>): seq<(PyValue, PyValue)>
  {
    seq(|fs|, i requires 0 <= i < |fs| => (PyBytes(fs[i].0), PyBytes(fs[i].1)))
  }

  lemma Utf8EntriesSnoc(es: seq<(PyValue, PyValue)>, n: nat)
    requires StringEntries(es) && 0 < n <= |es|
    ensures BytesPairs(Utf8Entries(es[..n])) == BytesPairs(Utf8Entries(es[..n - 1]))
      + [(PyBytes(Utf8Encode(es[n - 1].0.text)), PyBytes(Utf8Encode(es[n - 1].1.text)))]
  {
    var all := BytesPairs(Utf8Entries(es[..n]));
    var front := BytesPairs(Utf8Entries(es[..n - 1]));
    assert |all| == |front| + 1;
    forall i | 0 <= i < |front| ensures all[i] == front[i] {
      assert es[..n][i] == es[..n - 1][i];
    }
  }

  lemma {:induction false} StringPairs(kvs: seq<PyValue>, es: seq<(PyValue, PyValue)>, n: nat)
    requires StringEntries(es) && |kvs| == |es| && n <= |es|
    requires forall i :: 0 <= i < |es| ==> kvs[i] == PyTuple([es[i].0, es[i].1])
    ensures PairsOf(kvs[..n]) == Ok(BytesPairs(Utf8Entries(es[..n])))
    decreases n
  {
    if n > 0 {
      StringPairs(kvs, es, n - 1);
      var k, v := es[n - 1].0, es[n - 1].1;
      assert k.PyStr? && v.PyStr?;
      assert kvs[..n] == kvs[..n - 1] + [PyTuple([k, v])];
      assert Unpack2(PyTuple([k, v])) == Ok((k, v));
      PairsOfSnoc(kvs[..n - 1], PyTuple([k, v]));
      OneValuePairs(k.text, v.text);
      Utf8EntriesSnoc(es, n);
    } else {
      assert kvs[..n] == [];
      assert BytesPairs(Utf8Entries(es[..n])) == [];
    }
  }

  lemma {:induction false} BytesFields(fs: seq<(seq<byte>, seq<byte>)>)
    ensures Fields(BytesPairs(fs)) == Ok(fs)
    decreases |fs|
  {
    if fs != [] {
      BytesFields(fs[1..]);
      var ps := BytesPairs(fs);
      assert ps[1..] == BytesPairs(fs[1..]);
      assert FieldBytes(ps[0].0) == Ok(fs[0].0);
      assert FieldValues(ps[0].1) == Ok([fs[0].1]);
      assert seq(1, i requires 0 <= i < 1 => (fs[0].0, [fs[0].1][i])) == [fs[0]];
      assert fs == [fs[0]] + fs[1..];
    }
  }

  /** A dict of strings encodes to a query that parses back to its entries,
      UTF-8 encoded, one field per entry and in insertion order. */
  lemma StringDictRoundTrip(es: seq<(PyValue, PyValue)>)
    requires StringEntries(es)
    ensures EncodedParams(PyDict(es)).Ok?
    ensures EncodedParams(PyDict(es)).value.Encoded?
    ensures Parse(EncodedParams(PyDict(es)).value.query) == Utf8Entries(es)
  {
    StringDictQuery(es);
    ParseSerialize(Utf8Entries(es));
  }

  /** The query of a dict of strings is the serialisation of its UTF-8 entries. */
  lemma StringDictQuery(es: seq<(PyValue, PyValue)>)
    requires StringEntries(es)
    ensures EncodedParams(PyDict(es)) == Ok(Encoded(Serialize(Utf8Entries(es))))
  {
    var kvs := ToKeyValList(PyDict(es)).value.value;
    StringPairs(kvs, es, |es|);
    assert kvs[..|es|] == kvs;
    assert es[..|es|] == es;
    BytesFields(Utf8Entries(es));
  }

  /** The dict of the worked example below. */
  function ExampleDict(): PyValue
  {
    PyDict([(PyStr("a"), PyStr("1")), (PyStr("b"), PyList([PyStr("2"), PyStr("3")]))])
  }

  lemma ExampleAscii()
    ensures Utf8Encode("a") == [0x61] && Utf8Encode("b") == [0x62]
    ensures Utf8Encode("1") == [0x31] && Utf8Encode("2") == [0x32] && Utf8Encode("3") == [0x33]
  {
    Utf8Ascii("a"); Utf8Ascii("b"); Utf8Ascii("1"); Utf8Ascii("2"); Utf8Ascii("3");
  }

  lemma EmittedTwo(k: PyValue, a: PyValue, b: PyValue)
    requires !a.PyNone? && !b.PyNone?
    ensures Emitted(k, [a, b]) == [(Utf8IfText(k), Utf8IfText(a)), (Utf8IfText(k), Utf8IfText(b))]
  {
    EmittedOne(k, a);
    assert [a, b][..1] == [a];
  }

  lemma PairsOfTwo(t1: PyValue, t2: PyValue, e1: seq<(PyValue, PyValue)>, e2: seq<(PyValue, PyValue)>)
    requires Unpack2(t1).Ok? && Unpack2(t2).Ok?
    requires Emitted(Unpack2(t1).value.0, ValuesOf(Unpack2(t1).value.1)) == e1
    requires Emitted(Unpack2(t2).value.0, ValuesOf(Unpack2(t2).value.1)) == e2
    ensures PairsOf([t1, t2]) == Ok(e1 + e2)
  {
    var none: seq<PyValue> := [];
    assert PairsOf(none) == Ok([]);
    PairsOfSnoc(none, t1);
    assert none + [t1] == [t1];
    assert PairsOf([t1]) == Ok([] + e1);
    assert [] + e1 == e1;
    PairsOfSnoc([t1], t2);
    assert [t1] + [t2] == [t1, t2];
  }

  lemma OneValuePairs(k: string, v: string)
    ensures Emitted(PyStr(k), ValuesOf(PyStr(v))) == [(PyBytes(Utf8Encode(k)), PyBytes(Utf8Encode(v)))]
  {
    EmittedOne(PyStr(k), PyStr(v));
  }

  lemma TwoValuePairs(k: string, a: string, b: string)
    ensures Emitted(PyStr(k), ValuesOf(PyList([PyStr(a), PyStr(b)]))) ==
      [(PyBytes(Utf8Encode(k)), PyBytes(Utf8Encode(a))), (PyBytes(Utf8Encode(k)), PyBytes(Utf8Encode(b)))]
  {
    assert ValuesOf(PyList([PyStr(a), PyStr(b)])) == [PyStr(a), PyStr(b)];
    EmittedTwo(PyStr(k), PyStr(a), PyStr(b));
  }

  lemma ExamplePairs()
    ensures PairsOf(ToKeyValList(ExampleDict()).value.value) ==
      Ok([(PyBytes([0x61]), PyBytes([0x31])), (PyBytes([0x62]), PyBytes([0x32])),
          (PyBytes([0x62]), PyBytes([0x33]))])
  {
    ExampleAscii();
    var t1 := PyTuple([PyStr("a"), PyStr("1")]);
    var t2 := PyTuple([PyStr("b"), PyList([PyStr("2"), PyStr("3")])]);
    assert ToKeyValList(ExampleDict()).value.value == [t1, t2];
    var e1 := [(PyBytes([0x61]), PyBytes([0x31]))];
    var e2 := [(PyBytes([0x62]), PyBytes([0x32])), (PyBytes([0x62]), PyBytes([0x33]))];
    OneValuePairs("a", "1");
    TwoValuePairs("b", "2", "3");
    assert Unpack2(t1) == Ok((PyStr("a"), PyStr("1")));
    assert Unpack2(t2) == Ok((PyStr("b"), PyList([PyStr("2"), PyStr("3")])));
    PairsOfTwo(t1, t2, e1, e2);
    assert e1 + e2 == [e1[0], e2[0], e2[1]];
  }

  /** An unreserved byte is quoted as its own character. */
  lemma QuoteUnreserved(x: byte)
    requires Unreserved(x)
    ensures QuotePlus([x]) == [x as char]
  {
    assert [x][1..] == [];
  }

  /** A field of two unreserved bytes serializes as `k=v`. */
  lemma QuoteField(k: byte, v: byte)
    requires Unreserved(k) && Unreserved(v)
    ensures QuotePlus([k]) + "=" + QuotePlus([v]) == [k as char, '=', v as char]
  {
    QuoteUnreserved(k);
    QuoteUnreserved(v);
  }

  /** Three parts joined with '&'. */
  lemma JoinThree(p: string, q: string, r: string)
    ensures Join([p, q, r], '&') == p + "&" + q + "&" + r
  {
    assert [p, q, r][1..] == [q, r];
    assert [q, r][1..] == [r];
    assert Join([r], '&') == r;
    assert Join([q, r], '&') == q + ['&'] + r;
    assert Join([p, q, r], '&') == p + ['&'] + (q + ['&'] + r);
  }

  lemma ExampleSerialize()
    ensures Serialize([([0x61], [0x31]), ([0x62], [0x32]), ([0x62], [0x33])]) == "a=1&b=2&b=3"
  {
    var fs: seq<(seq<byte>, seq<byte>)> := [([0x61], [0x31]), ([0x62], [0x32]), ([0x62], [0x33])];
    QuoteField(0x61, 0x31);
    QuoteField(0x62, 0x32);
    QuoteField(0x62, 0x33);
    var quoted := seq(|fs|, i requires 0 <= i < |fs| => QuotePlus(fs[i].0) + "=" + QuotePlus(fs[i].1));
    assert quoted == ["a=1", "b=2", "b=3"];
    JoinThree("a=1", "b=2", "b=3");
  }

  /** `{"a": "1", "b": ["2", "3"]}` encodes to `a=1&b=2&b=3`. */
  lemma ExampleQuery()
    ensures EncodedParams(ExampleDict()) == Ok(Encoded("a=1&b=2&b=3"))
  {
    ExamplePairs();
    var fs: seq<(seq<byte>, seq<byte>)> := [([0x61], [0x31]), ([0x62], [0x32]), ([0x62], [0x33])];
    var pairs := BytesPairs(fs);
    assert pairs == [(PyBytes([0x61]), PyBytes([0x31])), (PyBytes([0x62]), PyBytes([0x32])),
                     (PyBytes([0x62]), PyBytes([0x33]))];
    BytesFields(fs);
    ExampleSerialize();
    EncodedDict(ExampleDict().entries, pairs, "a=1&b=2&b=3");
  }

  lemma EncodedDict(es: seq<(PyValue, PyValue)>, pairs: seq<(PyValue, PyValue)>, q: string)
    requires PairsOf(DictItems(es)) == Ok(pairs) && UrlEncode(pairs) == Ok(q)
    ensures EncodedParams(PyDict(es)) == Ok(Encoded(q))
  {
  }
}
