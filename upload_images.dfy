/** The desktop app's cover upload: the object path is built from the
    configured upload path, whose `{year}`, `{month}` and `{day}` are
    filled from today's date, and the image's SHA-256; an upload already
    recorded in the cache file returns its URL, and a new one is recorded
    there after the object is stored.

    Today's date, the hex digest, the outcomes of the S3 calls and of the
    WebP conversion, and whether the cache file could be read are
    parameters. */
module UploadImages {
  import opened Common

  /** The `s3_config` section of the configuration. */
  datatype S3Config = S3Config(
    enabled: bool,
    uploadPath: string,
    endpoint: string,
    region: string,
    bucketName: string,
    accessKey: string,
    secretKey: string,
    customUrl: string)

  /** A calendar date as the local clock reports it. */
  datatype Date = Date(year: nat, month: nat, day: nat)

  predicate ValidDate(d: Date)
  {
    d.year <= 9999 && 1 <= d.month <= 12 && 1 <= d.day <= 31
  }

  function Pow10(n: nat): (p: nat)
    ensures p >= 1
  {
    if n == 0 then 1 else 10 * Pow10(n - 1)
  }

  predicate IsDigit(c: char)
  {
    '0' <= c <= '9'
  }

  /** `n` in decimal, zero-padded to `width` digits (`%Y`, `%m`, `%d`). */
  function Digits(n: nat, width: nat): (s: string)
    requires n < Pow10(width)
    ensures |s| == width
    ensures forall i :: 0 <= i < |s| ==> IsDigit(s[i])
  {
    if width == 0 then []
    else Digits(n / 10, width - 1) + [('0' as int + n % 10) as char]
  }

  /** The number a string of decimal digits denotes. */
  function DecimalValue(s: string): (n: nat)
    requires forall i :: 0 <= i < |s| ==> IsDigit(s[i])
    ensures n < Pow10(|s|)
  {
    if s == [] then 0
    else
      assert IsDigit(s[|s| - 1]);
      10 * DecimalValue(s[..|s| - 1]) + (s[|s| - 1] as int - '0' as int)
  }

  /** The padded digits read back as the number. */
  lemma {:induction false} DigitsValue(n: nat, width: nat)
    requires n < Pow10(width)
    ensures DecimalValue(Digits(n, width)) == n
  {
    if width > 0 {
      DigitsValue(n / 10, width - 1);
      var s := Digits(n, width);
      assert s[..|s| - 1] == Digits(n / 10, width - 1);
    }
  }

  const YearField: string := "{year}"
  const MonthField: string := "{month}"
  const DayField: string := "{day}"

  /** `replace_bucket_path_template`: every `{year}`, then every `{month}`,
      then every `{day}` replaced by the date's padded digits. A path
      without placeholders is used as it is. */
  function ReplaceBucketPathTemplate(template: string, date: Date): (path: string)
    requires ValidDate(date)
    ensures !Contains(template, YearField) && !Contains(template, MonthField) && !Contains(template, DayField)
      ==> path == template
  {
    CountMatchesZero(template, YearField);
    var withYear := ReplaceAll(template, YearField, Digits(date.year, 4));
    CountMatchesZero(withYear, MonthField);
    var withMonth := ReplaceAll(withYear, MonthField, Digits(date.month, 2));
    CountMatchesZero(withMonth, DayField);
    ReplaceAll(withMonth, DayField, Digits(date.day, 2))
  }

  /** Digits are foreign to every placeholder. */
  lemma DigitsForeign(s: string, field: string)
    requires forall i :: 0 <= i < |s| ==> IsDigit(s[i])
    requires field == YearField || field == MonthField || field == DayField
    ensures forall x :: x in s ==> x !in field
  {
    forall x | x in s
      ensures x !in field
    {
      var i :| 0 <= i < |s| && s[i] == x;
      assert IsDigit(x);
    }
  }

  /** No placeholder survives the replacement. */
  lemma TemplateResolved(template: string, date: Date)
    requires ValidDate(date)
    ensures var path := ReplaceBucketPathTemplate(template, date);
      !Contains(path, YearField) && !Contains(path, MonthField) && !Contains(path, DayField)
  {
    var y, m, d := Digits(date.year, 4), Digits(date.month, 2), Digits(date.day, 2);
    var withYear := ReplaceAll(template, YearField, y);
    var withMonth := ReplaceAll(withYear, MonthField, m);
    DigitsForeign(y, YearField);
    DigitsForeign(m, YearField);
    DigitsForeign(m, MonthField);
    DigitsForeign(d, YearField);
    DigitsForeign(d, MonthField);
    DigitsForeign(d, DayField);
    ReplaceAllAvoids(template, YearField, y, YearField);
    ReplaceAllAvoids(withYear, MonthField, m, YearField);
    ReplaceAllAvoids(withYear, MonthField, m, MonthField);
    ReplaceAllAvoids(withMonth, DayField, d, YearField);
    ReplaceAllAvoids(withMonth, DayField, d, MonthField);
    ReplaceAllAvoids(withMonth, DayField, d, DayField);
  }

  /** A template seen as literal text and placeholders. */
  datatype DatePart = YearPart | MonthPart | DayPart
  datatype Piece = Text(text: string) | Field(part: DatePart)

  function Placeholder(p: DatePart): (field: string)
    ensures |field| >= 2 && field[0] == '{'
  {
    match p
    case YearPart => YearField
    case MonthPart => MonthField
    case DayPart => DayField
  }

  /** What each kind of placeholder is written as. */
  datatype Filling = Filling(year: string, month: string, day: string) {
    function Of(p: DatePart): string
    {
      match p
      case YearPart => year
      case MonthPart => month
      case DayPart => day
    }

    function With(p: DatePart, s: string): (f: Filling)
      ensures f.Of(p) == s && forall q :: q != p ==> f.Of(q) == Of(q)
    {
      match p
      case YearPart => this.(year := s)
      case MonthPart => this.(month := s)
      case DayPart => this.(day := s)
    }
  }

  /** The placeholders themselves, and the date's padded digits. */
  const Placeholders: Filling := Filling(YearField, MonthField, DayField)

  function DateFilling(date: Date): Filling
    requires ValidDate(date)
  {
    Filling(Digits(date.year, 4), Digits(date.month, 2), Digits(date.day, 2))
  }

  function Chunk(p: Piece, f: Filling): string
  {
    match p
    case Text(t) => t
    case Field(q) => f.Of(q)
  }

  /** The pieces written out in order. */
  function Render(ps: seq<Piece>, f: Filling): (s: string)
    ensures ps != [] ==> s == Chunk(ps[0], f) + Render(ps[1..], f)
  {
    if ps == [] then [] else Chunk(ps[0], f) + Render(ps[1..], f)
  }

  /** No literal part holds a `{`. */
  predicate PlainTexts(ps: seq<Piece>)
  {
    forall i :: 0 <= i < |ps| && ps[i].Text? ==> '{' !in ps[i].text
  }

  /** Placeholders of a different kind are clear of each other: they
      differ right after the brace. */
  lemma PlaceholdersClear(p: DatePart, q: DatePart)
    requires p != q
    ensures Clear(Placeholder(q), Placeholder(p))
  {
    var a, pat := Placeholder(q), Placeholder(p);
    assert a[1] != pat[1];
    assert pat[0] !in a[1..];
    ForeignIsClear(a[1..], pat);
    assert Mismatch(a[1..], pat[1..]);
  }

  /** One pass of the replacement turns every placeholder of kind `p`
      into `rep` and leaves the rest of the rendering as it was. */
  lemma {:induction false} RenderPass(ps: seq<Piece>, f: Filling, p: DatePart, rep: string)
    requires PlainTexts(ps) && f.Of(p) == Placeholder(p)
    requires forall q :: q != p ==> Clear(f.Of(q), Placeholder(p))
    ensures ReplaceAll(Render(ps, f), Placeholder(p), rep) == Render(ps, f.With(p, rep))
    decreases |ps|
  {
    var pat := Placeholder(p);
    if ps == [] {
      ReplaceAllShort([], pat, rep);
    } else {
      var chunk, rest := Chunk(ps[0], f), Render(ps[1..], f);
      assert PlainTexts(ps[1..]) by {
        forall i | 0 <= i < |ps[1..]| && ps[1..][i].Text?
          ensures '{' !in ps[1..][i].text
        {
          assert ps[1..][i] == ps[i + 1];
        }
      }
      RenderPass(ps[1..], f, p, rep);
      if ps[0] == Field(p) {
        ReplaceAllSplit([], pat, rest, rep);
        assert [] + pat + rest == chunk + rest;
      } else {
        if ps[0].Text? {
          assert ps[0].Text? && '{' !in ps[0].text;
          ForeignIsClear(chunk, pat);
        }
        ReplaceAllClear(chunk, rest, pat, rep);
      }
    }
  }

  /** A template whose literal parts hold no `{` becomes those parts with
      each placeholder replaced by the date's year, month or day. */
  lemma TemplateFilled(ps: seq<Piece>, date: Date)
    requires ValidDate(date) && PlainTexts(ps)
    ensures ReplaceBucketPathTemplate(Render(ps, Placeholders), date) == Render(ps, DateFilling(date))
  {
    var y, m, d := Digits(date.year, 4), Digits(date.month, 2), Digits(date.day, 2);
    var f1 := Filling(y, MonthField, DayField);
    var f2 := Filling(y, m, DayField);
    var withYear := ReplaceAll(Render(ps, Placeholders), YearField, y);
    var withMonth := ReplaceAll(withYear, MonthField, m);
    assert withYear == Render(ps, f1) by { FillYear(ps, y); }
    assert withMonth == Render(ps, f2) by { FillMonth(ps, y, m); }
    assert ReplaceAll(withMonth, DayField, d) == Render(ps, DateFilling(date)) by { FillDay(ps, y, m, d); }
  }

  /** The year pass, with the other placeholders still in place. */
  lemma FillYear(ps: seq<Piece>, y: string)
    requires PlainTexts(ps)
    ensures ReplaceAll(Render(ps, Placeholders), YearField, y) == Render(ps, Filling(y, MonthField, DayField))
  {
    forall q | q != YearPart
      ensures Clear(Placeholders.Of(q), Placeholder(YearPart))
    {
      PlaceholdersClear(YearPart, q);
    }
    RenderPass(ps, Placeholders, YearPart, y);
  }

  /** The month pass, after the year's digits are in. */
  lemma FillMonth(ps: seq<Piece>, y: string, m: string)
    requires PlainTexts(ps) && forall x :: x in y ==> IsDigit(x)
    ensures ReplaceAll(Render(ps, Filling(y, MonthField, DayField)), MonthField, m)
      == Render(ps, Filling(y, m, DayField))
  {
    var f := Filling(y, MonthField, DayField);
    PlaceholdersClear(MonthPart, DayPart);
    ForeignIsClear(y, MonthField);
    assert forall q :: q != MonthPart ==> Clear(f.Of(q), Placeholder(MonthPart));
    RenderPass(ps, f, MonthPart, m);
    assert f.With(MonthPart, m) == Filling(y, m, DayField);
  }

  /** The day pass, after the year's and the month's digits are in. */
  lemma FillDay(ps: seq<Piece>, y: string, m: string, d: string)
    requires PlainTexts(ps) && (forall x :: x in y ==> IsDigit(x)) && forall x :: x in m ==> IsDigit(x)
    ensures ReplaceAll(Render(ps, Filling(y, m, DayField)), DayField, d) == Render(ps, Filling(y, m, d))
  {
    var f := Filling(y, m, DayField);
    ForeignIsClear(y, DayField);
    ForeignIsClear(m, DayField);
    assert forall q :: q != DayPart ==> Clear(f.Of(q), Placeholder(DayPart));
    RenderPass(ps, f, DayPart, d);
    assert f.With(DayPart, d) == Filling(y, m, d);
  }

  const WebpExtension: string := ".webp"

  /** The object's file name: the hex digest and `.webp`. */
  function FileName(hash: string): (name: string)
    ensures |name| == |hash| + 5 && name[..|hash|] == hash && name[|hash|..] == WebpExtension
  {
    hash + WebpExtension
  }

  /** The object key: the file name alone under an empty prefix, otherwise
      the prefix with its slashes trimmed, `/`, and the file name. */
  function FullPath(prefix: string, fileName: string): (path: string)
    ensures |fileName| <= |path| && path[|path| - |fileName|..] == fileName
    ensures prefix == "" ==> path == fileName
    ensures prefix != "" ==> |path| > |fileName| && path[|path| - |fileName| - 1] == '/'
    ensures prefix != "" ==> path[..|path| - |fileName| - 1] == Trim(prefix, '/')
  {
    if prefix == "" then fileName else Trim(prefix, '/') + "/" + fileName
  }

  /** The base of public URLs: the custom URL when one is set, otherwise
      the endpoint and the bucket, each with its trailing slashes removed. */
  function UrlBase(s3: S3Config): (base: string)
    ensures s3.customUrl != "" ==> base == TrimEnd(s3.customUrl, '/')
    ensures s3.customUrl == "" ==> base == TrimEnd(s3.endpoint, '/') + "/" + s3.bucketName
  {
    if s3.customUrl != "" then TrimEnd(s3.customUrl, '/')
    else TrimEnd(s3.endpoint, '/') + "/" + s3.bucketName
  }

  /** The public URL of a stored object: the base, `/`, and the path. */
  function ObjectUrl(s3: S3Config, fullPath: string): (url: string)
    ensures |url| > |fullPath|
    ensures url[|url| - |fullPath| - 1..] == "/" + fullPath
    ensures url[..|url| - |fullPath| - 1] == UrlBase(s3)
  {
    var base := UrlBase(s3);
    var url := base + "/" + fullPath;
    assert url[..|url| - |fullPath| - 1] == base;
    assert url[|url| - |fullPath| - 1..] == "/" + fullPath;
    url
  }

  /** A stored object. */
  datatype PutObject = PutObject(path: string, data: seq<byte>, contentType: string)

  const WebpType: string := "image/webp"
  const S3DisabledMessage: string := "S3 未启用"
  const CredentialsFailedPrefix: string := "S3 凭证创建失败: "
  const BucketFailedPrefix: string := "S3 Bucket 初始化失败: "
  const UploadFailedPrefix: string := "上传失败: "

  /** The object path `upload_images` stores an image under. */
  function ObjectPath(s3: S3Config, date: Date, hash: string): (path: string)
    requires ValidDate(date)
    ensures |path| >= |hash| + 5 && path[|path| - |hash| - 5..] == hash + WebpExtension
    ensures s3.uploadPath == "" ==> path == hash + WebpExtension
  {
    FullPath(ReplaceBucketPathTemplate(s3.uploadPath, date), FileName(hash))
  }

  /** The `uploads.json` cache and the bucket's stored objects. */
  class UploadStore {
    /** The cache file's hash-to-URL map. */
    var uploads: map<string, string>
    /** Every `put_object` call made, recorded before its outcome is known. */
    ghost var attempted: seq<PutObject>

    constructor ()
      ensures uploads == map[] && attempted == []
    {
      uploads := map[];
      attempted := [];
    }

    /** `upload_images`. `cacheReadable` is false when the cache file is
        missing or unreadable, which makes the cache start empty;
        `written` is false when `save_cache` fails to write the file,
        an error it discards, so the URL is still returned. */
    method UploadImage(hash: string, s3: S3Config, date: Date, cacheReadable: bool,
                       credentials: Result<(), string>, bucket: Result<(), string>,
                       converted: Result<seq<byte>, string>, put: Result<(), string>,
                       written: bool)
      returns (r: Result<string, string>)
      requires ValidDate(date)
      modifies this
      ensures !s3.enabled ==> r == Err(S3DisabledMessage) && uploads == old(uploads) && attempted == old(attempted)
      ensures s3.enabled && cacheReadable && hash in old(uploads) ==>
        r == Ok(old(uploads)[hash]) && uploads == old(uploads) && attempted == old(attempted)
      ensures r.Ok? && !(cacheReadable && hash in old(uploads)) ==>
        converted.Ok? && r.value == ObjectUrl(s3, ObjectPath(s3, date, hash))
        && (written ==> uploads == (if cacheReadable then old(uploads) else map[])[hash := r.value])
        && attempted == old(attempted) + [PutObject(ObjectPath(s3, date, hash), converted.value, WebpType)]
      ensures r.Ok? <==>
        s3.enabled && ((cacheReadable && hash in old(uploads))
                       || (credentials.Ok? && bucket.Ok? && converted.Ok? && put.Ok?))
      ensures r.Err? || !written ==> uploads == old(uploads)
      ensures attempted != old(attempted) ==>
        s3.enabled && !(cacheReadable && hash in old(uploads))
        && credentials.Ok? && bucket.Ok? && converted.Ok?
    {
      if !s3.enabled {
        return Err(S3DisabledMessage);
      }
      var fullPath := ObjectPath(s3, date, hash);
      var cache := if cacheReadable then uploads else map[];
      if hash in cache {
        return Ok(cache[hash]);
      }
      if credentials.Err? {
        return Err(CredentialsFailedPrefix + credentials.error);
      }
      if bucket.Err? {
        return Err(BucketFailedPrefix + bucket.error);
      }
      if converted.Err? {
        return Err(converted.error);
      }
      r := PutAndRecord(hash, s3, fullPath, converted.value, cache, put, written);
    }

    /** The end of `upload_images`: the object is put, and on success its
        URL is added to the cache, which is written back when `written`. */
    method PutAndRecord(hash: string, s3: S3Config, fullPath: string, data: seq<byte>,
                        cache: map<string, string>, put: Result<(), string>, written: bool)
      returns (r: Result<string, string>)
      modifies this
      ensures attempted == old(attempted) + [PutObject(fullPath, data, WebpType)]
      ensures put.Err? ==> r == Err(UploadFailedPrefix + put.error) && uploads == old(uploads)
      ensures put.Ok? ==> r == Ok(ObjectUrl(s3, fullPath))
      ensures put.Ok? && written ==> uploads == cache[hash := r.value]
      ensures !written ==> uploads == old(uploads)
    {
      attempted := attempted + [PutObject(fullPath, data, WebpType)];
      if put.Err? {
        return Err(UploadFailedPrefix + put.error);
      }
      var url := ObjectUrl(s3, fullPath);
      var updated := cache[hash := url];
      uploads := if written then updated else uploads;
      r := Ok(url);
    }
  }
}
