/**
 * The `onload` logic of `fileToGenerativePart`: the browser's data URL is kept whole as the
 * preview, and the payload is the second comma-separated field of it (`result.split(',')[1]`).
 * An absent or empty field rejects, and so does a failed read.
 */
module FileUtils {
  import opened Wrappers

  /** What the extraction produces: the payload, the declared type and the whole data URL. */
  datatype FileData = FileData(base64: string, mimeType: string, previewUrl: string)

  /** What the `FileReader` hands back: the data URL it read, or an error event. */
  datatype ReadOutcome = Loaded(result: string) | ReadFailed

  /** Why the promise rejects: the read failed, or no payload could be isolated. */
  datatype EncodeError = ReadError | ExtractionFailed

  /** The position of the first occurrence of `c` in `s`. */
  function IndexOf(s: string, c: char): (i: nat)
    requires c in s
    ensures i < |s| && s[i] == c && c !in s[..i]
  {
    if s[0] == c then 0
    else
      var k := IndexOf(s[1..], c);
      assert s[..k + 1] == [s[0]] + s[1..][..k];
      k + 1
  }

  /** The first occurrence is the only position holding `c` with no `c` before it. */
  lemma IndexOfUnique(s: string, c: char, i: nat)
    requires i < |s| && s[i] == c && c !in s[..i]
    ensures c in s && IndexOf(s, c) == i
  {
    var k := IndexOf(s, c);
    forall j | 0 <= j < i ensures s[j] != c {
      assert s[j] == s[..i][j];
    }
    forall j | 0 <= j < k ensures s[j] != c {
      assert s[j] == s[..k][j];
    }
  }

  /** The fields of `parts` with `sep` between them (the inverse of `Split`). */
  function Join(parts: seq<string>, sep: char): string
  {
    if |parts| == 0 then []
    else if |parts| == 1 then parts[0]
    else parts[0] + [sep] + Join(parts[1..], sep)
  }

  /**
   * `s.split(sep)` for a one-character separator: the maximal runs between separators, in order.
   * There is always at least one field (the empty string splits into `[""]`).
   */
  function Split(s: string, sep: char): (parts: seq<string>)
    ensures |parts| >= 1
    ensures forall k :: 0 <= k < |parts| ==> sep !in parts[k]
    ensures Join(parts, sep) == s
    decreases |s|
  {
    if sep in s then
      var i := IndexOf(s, sep);
      var rest := Split(s[i + 1..], sep);
      assert ([s[..i]] + rest)[1..] == rest;
      assert s == s[..i] + [sep] + s[i + 1..];
      [s[..i]] + rest
    else
      [s]
  }

  /** Splitting a join of separator-free fields gives back exactly those fields. */
  lemma {:induction false} SplitJoin(parts: seq<string>, sep: char)
    requires |parts| >= 1
    requires forall k :: 0 <= k < |parts| ==> sep !in parts[k]
    ensures Split(Join(parts, sep), sep) == parts
  {
    if |parts| > 1 {
      var s := Join(parts, sep);
      var p := parts[0];
      var tail := Join(parts[1..], sep);
      assert s == p + [sep] + tail;
      assert s[..|p|] == p;
      IndexOfUnique(s, sep, |p|);
      assert s[|p| + 1..] == tail;
      SplitJoin(parts[1..], sep);
      assert parts == [p] + parts[1..];
    }
  }

  /** `result.split(',')[1]`, where an index past the end gives `undefined` (None). */
  function SecondField(result: string): (field: Option<string>)
    ensures field.Some? <==> ',' in result
    ensures field.Some? ==> ',' !in field.value
  {
    var parts := Split(result, ',');
    if |parts| > 1 then Some(parts[1]) else None
  }

  /** `p` is the run of `t` up to its first `sep` (or to its end when there is none). */
  predicate LeadingField(t: string, sep: char, p: string)
  {
    |p| <= |t| && t[..|p|] == p && sep !in p && (|p| == |t| || t[|p|] == sep)
  }

  /** `p` sits right after the first comma of `url` and runs to the next comma or to the end. */
  predicate IsSecondField(url: string, p: string)
  {
    ',' in url && LeadingField(url[IndexOf(url, ',') + 1..], ',', p)
  }

  /** A string has one leading field. */
  lemma LeadingFieldUnique(t: string, sep: char, p: string, q: string)
    requires LeadingField(t, sep, p) && LeadingField(t, sep, q)
    ensures p == q
  {
    forall j | 0 <= j < |p| ensures t[j] != sep {
      assert t[j] == p[j];
    }
    forall j | 0 <= j < |q| ensures t[j] != sep {
      assert t[j] == q[j];
    }
    assert |p| == |q|;
  }

  /** The first field `Split` returns is the leading field. */
  lemma SplitHead(t: string, sep: char)
    ensures LeadingField(t, sep, Split(t, sep)[0])
  {
    if sep in t {
      var i := IndexOf(t, sep);
      assert Split(t, sep)[0] == t[..i];
    }
  }

  /** `split(',')[1]` is defined and equal to `p` exactly when `p` is the second field by position. */
  lemma {:induction false} SecondFieldIff(url: string, p: string)
    ensures SecondField(url) == Some(p) <==> IsSecondField(url, p)
  {
    if ',' in url {
      var i := IndexOf(url, ',');
      var t := url[i + 1..];
      assert Split(url, ',') == [url[..i]] + Split(t, ',');
      SplitHead(t, ',');
      assert SecondField(url) == Some(Split(t, ',')[0]);
      if IsSecondField(url, p) {
        LeadingFieldUnique(t, ',', p, Split(t, ',')[0]);
      }
    }
  }

  /** A `FileData` as extraction builds it: a non-empty payload that is the preview's second field. */
  predicate WellFormed(fd: FileData)
  {
    |fd.base64| > 0 && IsSecondField(fd.previewUrl, fd.base64)
  }

  /**
   * The `onload`/`onerror` outcome of `fileToGenerativePart(file)` for a file of declared type
   * `fileType`: the preview is the whole read string and the type passes through unchecked.
   */
  function FileToGenerativePart(read: ReadOutcome, fileType: string): (r: Result<FileData, EncodeError>)
    ensures read.ReadFailed? ==> r == Failure(ReadError)
    ensures r.Success? ==> read.Loaded? && r.value.previewUrl == read.result
    ensures r.Success? ==> r.value.mimeType == fileType && WellFormed(r.value)
  {
    match read
    case ReadFailed => Failure(ReadError)
    case Loaded(result) =>
      var base64 := SecondField(result);
      if base64.None? || base64.value == "" then Failure(ExtractionFailed)
      else
        SecondFieldIff(result, base64.value);
        Success(FileData(base64.value, fileType, result))
  }

  /**
   * A read string fails extraction exactly when it has no comma, or its first comma is the last
   * character or is directly followed by another comma.
   */
  lemma ExtractionFailsExactly(result: string, fileType: string)
    ensures FileToGenerativePart(Loaded(result), fileType).Failure? <==>
      (',' !in result ||
       (var i := IndexOf(result, ','); i + 1 == |result| || result[i + 1] == ','))
    ensures FileToGenerativePart(Loaded(result), fileType).Failure? ==>
      FileToGenerativePart(Loaded(result), fileType).error == ExtractionFailed
  {
    if ',' in result {
      var i := IndexOf(result, ',');
      var t := result[i + 1..];
      var field := SecondField(result);
      SecondFieldIff(result, Split(t, ',')[0]);
      SplitHead(t, ',');
      assert Split(result, ',') == [result[..i]] + Split(t, ',');
      assert field.Some?;
      SecondFieldIff(result, field.value);
      assert field.value == "" <==> (|t| == 0 || t[0] == ',');
    }
  }

  /**
   * A well-formed data URL `prefix,payload` (optionally followed by further comma-led text)
   * yields exactly `payload`, and the preview is the whole URL.
   */
  lemma {:induction false} WellFormedDataUrl(prefix: string, payload: string, rest: string, fileType: string)
    requires ',' !in prefix && ',' !in payload && |payload| > 0
    requires rest == [] || rest[0] == ','
    ensures FileToGenerativePart(Loaded(prefix + "," + payload + rest), fileType)
      == Success(FileData(payload, fileType, prefix + "," + payload + rest))
  {
    var url := prefix + "," + payload + rest;
    assert url[..|prefix|] == prefix;
    IndexOfUnique(url, ',', |prefix|);
    var t := url[|prefix| + 1..];
    assert t == payload + rest;
    assert t[..|payload|] == payload;
    assert LeadingField(t, ',', payload);
    SecondFieldIff(url, payload);
  }

  /**
   * The converse: every successful extraction splits its preview as `prefix,payload rest`, with a
   * comma-free prefix and `rest` empty or starting with a comma.
   */
  lemma PreviewEmbedsPayload(read: ReadOutcome, fileType: string)
    requires FileToGenerativePart(read, fileType).Success?
    ensures var fd := FileToGenerativePart(read, fileType).value;
      var url := fd.previewUrl;
      var i := IndexOf(url, ',');
      var rest := url[i + 1 + |fd.base64|..];
      ',' !in url[..i] && (rest == [] || rest[0] == ',') &&
      url == url[..i] + "," + fd.base64 + rest
  {
    var fd := FileToGenerativePart(read, fileType).value;
    var url := fd.previewUrl;
    var i := IndexOf(url, ',');
    var j := i + 1 + |fd.base64|;
    assert url[i + 1..][..|fd.base64|] == url[i + 1..j];
    assert url == url[..i] + [url[i]] + url[i + 1..j] + url[j..];
  }
}
