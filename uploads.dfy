/** Naming of uploaded files: the MIME allow-list of the multipart upload, Node's
    `path.extname`, the data-URI pattern of the Base64 upload, and the
    time-derived file names both paths store under. */
module Uploads {
  import opened Values
  import opened Text

  /** The MIME types `fileFilter` lets through. */
  const AllowedTypes: seq<string> := ["image/jpeg", "image/png", "image/gif"]

  /** `fileFilter`: a file is admitted exactly when its declared type is one of the
      three image types, compared as exact strings. */
  function FileFilter(mimeType: string): (admit: bool)
    ensures admit <==> mimeType == "image/jpeg" || mimeType == "image/png" || mimeType == "image/gif"
  {
    mimeType in AllowedTypes
  }

  /** The position of the last `c` in `s`, or -1. */
  function LastIndexOf(s: string, c: char): (r: int)
    ensures -1 <= r < |s|
    ensures r >= 0 ==> s[r] == c && forall j :: r < j < |s| ==> s[j] != c
    ensures r == -1 ==> forall j :: 0 <= j < |s| ==> s[j] != c
  {
    if s == [] then -1
    else if s[|s| - 1] == c then |s| - 1
    else LastIndexOf(s[..|s| - 1], c)
  }

  /** `s` without its trailing slashes. */
  function TrimTrailingSlashes(s: string): (t: string)
    ensures |t| <= |s| && t == s[..|t|]
    ensures t == [] || t[|t| - 1] != '/'
    ensures forall j :: |t| <= j < |s| ==> s[j] == '/'
  {
    if s != [] && s[|s| - 1] == '/' then TrimTrailingSlashes(s[..|s| - 1]) else s
  }

  /** The last component of a POSIX path, trailing slashes ignored. */
  function LastComponent(path: string): (name: string)
    ensures '/' !in name
  {
    var trimmed := TrimTrailingSlashes(path);
    var slash := LastIndexOf(trimmed, '/');
    trimmed[slash + 1..]
  }

  /** Node's POSIX `path.extname`: the last component from its last dot on; empty
      when that component has no dot, starts with its only leading dot, or is `..`. */
  function ExtName(path: string): (ext: string)
    ensures ext == "" || ext[0] == '.'
    ensures forall j :: 1 <= j < |ext| ==> ext[j] != '.' && ext[j] != '/'
  {
    var name := LastComponent(path);
    var dot := LastIndexOf(name, '.');
    if name == ".." || dot <= 0 then "" else name[dot..]
  }

  /** A path without slashes is its own last component. */
  lemma LastComponentOfName(name: string)
    requires forall j :: 0 <= j < |name| ==> name[j] != '/'
    ensures LastComponent(name) == name
  {
    assert TrimTrailingSlashes(name) == name;
  }

  /** A plain file name `<stem>.<ext>` has the extension `.<ext>`. */
  lemma ExtNameOfPlainName(stem: string, ext: string)
    requires stem != "" && '/' !in stem
    requires ext != "" && '.' !in ext && '/' !in ext
    ensures ExtName(stem + "." + ext) == "." + ext
  {
    var name := stem + "." + ext;
    forall j | 0 <= j < |name|
      ensures name[j] != '/'
      ensures j > |stem| ==> name[j] != '.'
    {
      if j < |stem| {
        assert name[j] == stem[j];
      } else if j > |stem| {
        assert name[j] == ext[j - |stem| - 1];
      }
    }
    LastComponentOfName(name);
    assert name[|stem|] == '.';
    assert LastIndexOf(name, '.') == |stem|;
    assert name[|stem|..] == "." + ext;
  }

  /** A name without a slash and without a dot after its first character has no
      extension (`photo`, `.bashrc`). */
  lemma ExtNameNone(name: string)
    requires forall j :: 0 <= j < |name| ==> name[j] != '/'
    requires forall j :: 0 < j < |name| ==> name[j] != '.'
    ensures ExtName(name) == ""
  {
    LastComponentOfName(name);
  }

  /** The name multer's storage gives an upload: `Date.now() + path.extname(originalname)`.
      Its leading digits read back as the upload time and the rest is the extension. */
  function MultipartFilename(nowMs: nat, originalName: string): (name: string)
    ensures 1 <= DigitRun(name) && (nowMs > 0 ==> name[0] != '0')
    ensures DecimalValue(name[..DigitRun(name)]) == nowMs
    ensures name[DigitRun(name)..] == ExtName(originalName)
  {
    DigitRunOfDecimal(nowMs, ExtName(originalName));
    DecimalRoundTrip(nowMs);
    var name := DecimalString(nowMs) + ExtName(originalName);
    assert name[..|DecimalString(nowMs)|] == DecimalString(nowMs);
    name
  }

  predicate IsWordChar(c: char)
  {
    ('a' <= c <= 'z') || ('A' <= c <= 'Z') || ('0' <= c <= '9') || c == '_'
  }

  /** The characters a regular-expression `.` does not match. */
  predicate IsLineTerminator(c: char)
  {
    c == '\n' || c == '\r' || c == '\U{2028}' || c == '\U{2029}'
  }

  const DataUriPrefix: string := "data:image/"
  const Base64Marker: string := ";base64,"

  /** The two groups of `^data:image\/(\w+);base64,(.+)$`. */
  datatype DataUri = DataUri(ext: string, payload: string)

  /** What the pattern demands of its groups: one or more word characters, then one
      or more characters that are not line terminators. */
  predicate WellFormed(d: DataUri)
  {
    && d.ext != [] && (forall i :: 0 <= i < |d.ext| ==> IsWordChar(d.ext[i]))
    && d.payload != [] && (forall i :: 0 <= i < |d.payload| ==> !IsLineTerminator(d.payload[i]))
  }

  /** The string a data URI is written as. */
  function Compose(d: DataUri): string
  {
    DataUriPrefix + d.ext + Base64Marker + d.payload
  }

  /** The length of the run of word characters `s` starts with. */
  function WordRun(s: string): (k: nat)
    ensures k <= |s|
    ensures forall i :: 0 <= i < k ==> IsWordChar(s[i])
    ensures k == |s| || !IsWordChar(s[k])
  {
    if s == [] || !IsWordChar(s[0]) then 0 else 1 + WordRun(s[1..])
  }

  /** `image_base64.match(...)`: the groups when the whole string matches the pattern.
      Word characters never include ';', so the extension is the whole word run. */
  function ParseDataUri(s: string): (r: Option<DataUri>)
    ensures r.Some? ==> WellFormed(r.value) && Compose(r.value) == s
  {
    if |s| < |DataUriPrefix| || s[..|DataUriPrefix|] != DataUriPrefix then None
    else
      var rest := s[|DataUriPrefix|..];
      var k := WordRun(rest);
      var tail := rest[k..];
      if k == 0 || |tail| < |Base64Marker| || tail[..|Base64Marker|] != Base64Marker then None
      else
        var payload := tail[|Base64Marker|..];
        if payload == [] || exists i :: 0 <= i < |payload| && IsLineTerminator(payload[i]) then None
        else
          var d := DataUri(rest[..k], payload);
          assert s == DataUriPrefix + rest;
          assert rest == d.ext + tail;
          assert tail == Base64Marker + payload;
          Some(d)
  }

  /** Every well-formed data URI is recognised, with its own groups. Together with the
      postcondition of `ParseDataUri`, a string matches exactly when it is `Compose(d)`
      of a well-formed `d`. */
  lemma ParseCompose(d: DataUri)
    requires WellFormed(d)
    ensures ParseDataUri(Compose(d)) == Some(d)
  {
    var s := Compose(d);
    assert s[..|DataUriPrefix|] == DataUriPrefix;
    var rest := s[|DataUriPrefix|..];
    assert rest == d.ext + (Base64Marker + d.payload);
    WordRunStops(d.ext, Base64Marker + d.payload);
    assert rest[WordRun(rest)..] == Base64Marker + d.payload;
    assert (Base64Marker + d.payload)[..|Base64Marker|] == Base64Marker;
  }

  /** A word followed by a non-word character is exactly one word run. */
  lemma {:induction false} WordRunStops(w: string, t: string)
    requires forall i :: 0 <= i < |w| ==> IsWordChar(w[i])
    requires t != [] && !IsWordChar(t[0])
    ensures WordRun(w + t) == |w|
  {
    if w != [] {
      assert (w + t)[1..] == w[1..] + t;
      WordRunStops(w[1..], t);
    } else {
      assert w + t == t;
    }
  }

  /** A string without the `data:image/` prefix never matches. */
  lemma ParseNeedsPrefix(s: string)
    requires |s| < |DataUriPrefix| || s[..|DataUriPrefix|] != DataUriPrefix
    ensures ParseDataUri(s) == None
  {
  }

  /** The name the Base64 upload stores under: `${Date.now()}.${ext}`. Its leading
      digits read back as the upload time and the rest is a dot and the extension. */
  function Base64Filename(nowMs: nat, ext: string): (name: string)
    ensures 1 <= DigitRun(name) && (nowMs > 0 ==> name[0] != '0')
    ensures DecimalValue(name[..DigitRun(name)]) == nowMs
    ensures name[DigitRun(name)..] == "." + ext
  {
    DigitRunOfDecimal(nowMs, "." + ext);
    DecimalRoundTrip(nowMs);
    var name := DecimalString(nowMs) + ("." + ext);
    assert name[..|DecimalString(nowMs)|] == DecimalString(nowMs);
    assert DecimalString(nowMs) + "." + ext == name;
    name
  }

  /** The length of the run of digits `s` starts with. */
  function DigitRun(s: string): (k: nat)
    ensures k <= |s|
    ensures forall i :: 0 <= i < k ==> IsDigit(s[i])
  {
    if s == [] || !IsDigit(s[0]) then 0 else 1 + DigitRun(s[1..])
  }

  lemma {:induction false} DigitRunOfDecimal(n: nat, t: string)
    requires t == [] || !IsDigit(t[0])
    ensures DigitRun(DecimalString(n) + t) == |DecimalString(n)|
  {
    DigitRunStops(DecimalString(n), t);
  }

  lemma {:induction false} DigitRunStops(w: string, t: string)
    requires forall i :: 0 <= i < |w| ==> IsDigit(w[i])
    requires t == [] || !IsDigit(t[0])
    ensures DigitRun(w + t) == |w|
  {
    if w != [] {
      assert (w + t)[1..] == w[1..] + t;
      DigitRunStops(w[1..], t);
    } else {
      assert w + t == t;
    }
  }

  /** A decimal timestamp followed by text that does not start with a digit
      determines the timestamp. */
  lemma TimePrefixDetermines(m: nat, n: nat, t1: string, t2: string)
    requires t1 == [] || !IsDigit(t1[0])
    requires t2 == [] || !IsDigit(t2[0])
    requires DecimalString(m) + t1 == DecimalString(n) + t2
    ensures m == n
  {
    DigitRunOfDecimal(m, t1);
    DigitRunOfDecimal(n, t2);
    var s := DecimalString(m) + t1;
    assert DecimalString(m) == s[..|DecimalString(m)|];
    assert DecimalString(n) == s[..|DecimalString(n)|];
    DecimalInjective(m, n);
  }

  /** Two names built at different milliseconds differ, on either upload path and
      across the two. */
  lemma FilenamesDistinct(m: nat, n: nat, ext1: string, ext2: string, original1: string, original2: string)
    requires m != n
    ensures Base64Filename(m, ext1) != Base64Filename(n, ext2)
    ensures Base64Filename(m, ext1) != MultipartFilename(n, original2)
    ensures MultipartFilename(m, original1) != MultipartFilename(n, original2)
  {
    assert Base64Filename(m, ext1) == DecimalString(m) + ("." + ext1);
    assert Base64Filename(n, ext2) == DecimalString(n) + ("." + ext2);
    if Base64Filename(m, ext1) == Base64Filename(n, ext2) {
      TimePrefixDetermines(m, n, "." + ext1, "." + ext2);
    }
    if Base64Filename(m, ext1) == MultipartFilename(n, original2) {
      TimePrefixDetermines(m, n, "." + ext1, ExtName(original2));
    }
    if MultipartFilename(m, original1) == MultipartFilename(n, original2) {
      TimePrefixDetermines(m, n, ExtName(original1), ExtName(original2));
    }
  }
}
