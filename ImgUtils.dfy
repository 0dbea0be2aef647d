/** The URL, path and SVG helpers of ImgUtils.php, over the collaborators
    the code cannot see (the upload directory, `is_ssl`, `parse_url`, the
    file system probe and the resize engine), which come in as an `Env`. */
module ImgUtils {
  import opened Php
  import opened Resizers

  /** Everything outside the code: `wp_upload_dir()`'s `basedir` and `baseurl`,
      `is_ssl()`, `parse_url($url, PHP_URL_PATH)`, `file_exists`,
      `getimagesize` (width and height, or a failure) and `aq_resize`. */
  datatype Env = Env(
    basedir: string,
    baseurl: string,
    isSsl: bool,
    urlPath: string -> string,
    fileExists: string -> bool,
    imageSize: string -> Option<(int, int)>,
    engine: Engine)

  const HttpScheme: string := "http://"
  const HttpsScheme: string := "https://"
  const RelativeScheme: string := "//"

  // ------------------------------------------------- resizeImg

  /** The URL `resizeImg` hands to the engine: a URL that does not start with
      "http" (a protocol-relative one) gets the page's scheme in front. */
  function SchemePrefixed(env: Env, url: string): (r: string)
    ensures !Truthy(url) || StartsWith(url, "http") ==> r == url
    ensures Truthy(url) ==> StartsWith(r, "http")
    ensures EndsWith(r, url)
  {
    if Truthy(url) && !StartsWith(url, "http") then
      var scheme := if env.isSsl then "https:" else "http:";
      assert (scheme + url)[..4] == scheme[..4];
      assert (scheme + url)[|scheme|..] == url;
      scheme + url
    else url
  }

  /** `resizeImg`: the engine's URL for the prefixed URL, or the prefixed URL
      itself when the engine gives back nothing usable. */
  function ResizeImg(env: Env, url: string, width: int, height: Option<int> := None,
                     crop: bool := true, upscale: bool := true): (r: Result<string, Error>)
    ensures r.Failure? <==> env.engine(SchemePrefixed(env, url), width, height, crop, upscale).Raised?
    ensures var e := env.engine(SchemePrefixed(env, url), width, height, crop, upscale);
      r.Success? ==> r.value == SchemePrefixed(env, url) || (e.Done? && r.value == e.image.url)
    ensures var e := env.engine(SchemePrefixed(env, url), width, height, crop, upscale);
      e.Done? && Truthy(e.image.url) ==> r == Success(e.image.url)
    ensures var e := env.engine(SchemePrefixed(env, url), width, height, crop, upscale);
      e.Declined? || (e.Done? && !Truthy(e.image.url)) ==> r == Success(SchemePrefixed(env, url))
  {
    var u := SchemePrefixed(env, url);
    match env.engine(u, width, height, crop, upscale)
    case Done(image) => Success(if Truthy(image.url) then image.url else u)
    case Declined => Success(u)
    case Raised => Failure(AqException)
  }

  lemma ResizeImgPrefixing(env: Env, url: string)
    ensures StartsWith(url, "http") || !Truthy(url) ==> SchemePrefixed(env, url) == url
    ensures Truthy(url) && !StartsWith(url, "http") ==>
      SchemePrefixed(env, url) == (if env.isSsl then "https:" else "http:") + url
  {
  }

  /** A protocol-relative URL reaches the engine with the page's scheme. */
  lemma ResizeImgProtocolRelative(env: Env, rest: string, width: int, height: Option<int>)
    ensures SchemePrefixed(env, "//" + rest) == (if env.isSsl then "https://" else "http://") + rest
  {
    var url := "//" + rest;
    assert url[0] == '/';
    assert !StartsWith(url, "http") by {
      if |url| >= 4 { assert url[..4][0] == '/'; }
    }
    assert Truthy(url) by { assert |url| >= 2; }
  }

  /** When the engine declines or returns a falsy URL, `resizeImg` falls back
      to the (prefixed) input URL. */
  lemma ResizeImgFallback(env: Env, url: string, width: int, height: Option<int>, crop: bool, upscale: bool)
    requires var e := env.engine(SchemePrefixed(env, url), width, height, crop, upscale);
      e.Declined? || (e.Done? && !Truthy(e.image.url))
    ensures ResizeImg(env, url, width, height, crop, upscale) == Success(SchemePrefixed(env, url))
  {
  }

  // ------------------------------------------- getAttachmentPathByUrl

  /** The upload URL with its scheme made to match that of `url`. */
  function AlignScheme(url: string, uploadUrl: string): (r: string)
    ensures !StartsWith(url, HttpsScheme) && !StartsWith(url, HttpScheme) && !StartsWith(url, RelativeScheme) ==>
      r == uploadUrl
    ensures !Occurs(HttpScheme, uploadUrl) && !Occurs(HttpsScheme, uploadUrl) ==> r == uploadUrl
  {
    var absent := !Occurs(HttpScheme, uploadUrl) && !Occurs(HttpsScheme, uploadUrl);
    if StartsWith(url, HttpsScheme) then
      var aligned := ReplaceAll(uploadUrl, HttpScheme, HttpsScheme);
      assert absent ==> aligned == uploadUrl by {
        if absent { ReplaceAllAbsent(uploadUrl, HttpScheme, HttpsScheme); }
      }
      aligned
    else if StartsWith(url, HttpScheme) then
      var aligned := ReplaceAll(uploadUrl, HttpsScheme, HttpScheme);
      assert absent ==> aligned == uploadUrl by {
        if absent { ReplaceAllAbsent(uploadUrl, HttpsScheme, HttpScheme); }
      }
      aligned
    else if StartsWith(url, RelativeScheme) then
      var aligned := ReplaceAll(ReplaceAll(uploadUrl, HttpScheme, RelativeScheme), HttpsScheme, RelativeScheme);
      assert absent ==> aligned == uploadUrl by {
        if absent {
          ReplaceAllAbsent(uploadUrl, HttpScheme, RelativeScheme);
          ReplaceAllAbsent(uploadUrl, HttpsScheme, RelativeScheme);
        }
      }
      aligned
    else uploadUrl
  }

  /** `getAttachmentPathByUrl`: the local file path of an uploaded image. */
  function GetAttachmentPathByUrl(env: Env, url: string): (r: Result<string, Error>)
    ensures !Truthy(url) ==> r == Failure(InvalidArgument("Empty $url"))
    ensures Truthy(url) && !Occurs(AlignScheme(url, env.baseurl), url) ==> r == Failure(Runtime("$url is not local"))
    ensures r.Success? ==> StartsWith(r.value, env.basedir)
  {
    if !Truthy(url) then Failure(InvalidArgument("Empty $url"))
    else
      var uploadUrl := AlignScheme(url, env.baseurl);
      if !Occurs(uploadUrl, url) then Failure(Runtime("$url is not local"))
      else
        var relPath := ReplaceAll(url, uploadUrl, "");
        assert (env.basedir + relPath)[..|env.basedir|] == env.basedir;
        Success(env.basedir + relPath)
  }

  /** The scheme prefixes, as the letters after the leading 'h'. */
  lemma SchemeTailsHaveNoH()
    ensures forall i :: 0 <= i < |HttpScheme[1..]| ==> HttpScheme[1..][i] != 'h'
    ensures forall i :: 0 <= i < |HttpsScheme[1..]| ==> HttpsScheme[1..][i] != 'h'
    ensures forall i :: 0 <= i < |RelativeScheme| ==> RelativeScheme[i] != 'h'
  {
  }

  /** Neither scheme occurs in the other one followed by a host free of it. */
  lemma {:induction false} OtherSchemeAbsent(needle: string, scheme: string, host: string)
    requires (needle == HttpScheme && scheme == HttpsScheme) || (needle == HttpsScheme && scheme == HttpScheme)
    requires !Occurs(needle, host)
    ensures !Occurs(needle, scheme + host)
  {
    var s := scheme + host;
    assert s[4] != needle[4];
    if |needle| <= |s| {
      assert s[..|needle|][4] == s[4];
    }
    assert !StartsWith(s, needle);
    assert s[1..] == scheme[1..] + host;
    SchemeTailsHaveNoH();
    NotOccursAfterForeignPrefix(needle, scheme[1..], host);
  }

  lemma {:induction false} RelativeAbsent(needle: string, host: string)
    requires needle == HttpScheme || needle == HttpsScheme
    requires !Occurs(needle, host)
    ensures !Occurs(needle, RelativeScheme + host)
  {
    SchemeTailsHaveNoH();
    NotOccursAfterForeignPrefix(needle, RelativeScheme, host);
  }

  lemma {:induction false} ReplaceLeadingScheme(scheme: string, host: string, replacement: string)
    requires scheme != [] && !Occurs(scheme, host)
    ensures ReplaceAll(scheme + host, scheme, replacement) == replacement + host
  {
    ReplaceAllLeading(scheme, host, replacement);
    ReplaceAllAbsent(host, scheme, replacement);
  }

  /** The scheme the upload URL takes for a given page URL. */
  function AlignedScheme(url: string, uploadScheme: string): string {
    if StartsWith(url, HttpsScheme) then HttpsScheme
    else if StartsWith(url, HttpScheme) then HttpScheme
    else if StartsWith(url, RelativeScheme) then RelativeScheme
    else uploadScheme
  }

  /** For an upload URL `scheme + host` whose host names no scheme, the
      aligned upload URL is the host behind the scheme of `url`: https for an
      https URL, http for an http URL, "//" for a protocol-relative one, and
      unchanged otherwise. */
  lemma AlignSchemeOfUploadUrl(url: string, scheme: string, host: string)
    requires scheme == HttpScheme || scheme == HttpsScheme
    requires !Occurs(HttpScheme, host) && !Occurs(HttpsScheme, host)
    ensures AlignScheme(url, scheme + host) == AlignedScheme(url, scheme) + host
  {
    var upload := scheme + host;
    if StartsWith(url, HttpsScheme) {
      if scheme == HttpScheme {
        ReplaceLeadingScheme(HttpScheme, host, HttpsScheme);
      } else {
        OtherSchemeAbsent(HttpScheme, HttpsScheme, host);
        ReplaceAllAbsent(upload, HttpScheme, HttpsScheme);
      }
    } else if StartsWith(url, HttpScheme) {
      if scheme == HttpsScheme {
        ReplaceLeadingScheme(HttpsScheme, host, HttpScheme);
      } else {
        OtherSchemeAbsent(HttpsScheme, HttpScheme, host);
        ReplaceAllAbsent(upload, HttpsScheme, HttpScheme);
      }
    } else if StartsWith(url, RelativeScheme) {
      RelativeAbsent(HttpsScheme, host);
      if scheme == HttpScheme {
        ReplaceLeadingScheme(HttpScheme, host, RelativeScheme);
      } else {
        OtherSchemeAbsent(HttpScheme, HttpsScheme, host);
        ReplaceAllAbsent(upload, HttpScheme, RelativeScheme);
        ReplaceLeadingScheme(HttpsScheme, host, RelativeScheme);
      }
      ReplaceAllAbsent(RelativeScheme + host, HttpsScheme, RelativeScheme);
    }
  }

  /** A URL made of the aligned upload URL and a relative path that does not
      repeat it resolves to the upload directory followed by that path. */
  lemma LocalPathOfUploadedUrl(env: Env, url: string, rel: string)
    requires Truthy(url)
    requires AlignScheme(url, env.baseurl) != []
    requires url == AlignScheme(url, env.baseurl) + rel
    requires !Occurs(AlignScheme(url, env.baseurl), rel)
    ensures GetAttachmentPathByUrl(env, url) == Success(env.basedir + rel)
  {
    var u := AlignScheme(url, env.baseurl);
    OccursAtStart(u, rel);
    assert Occurs(u, url);
    ReplaceAllLeading(u, rel, "");
    ReplaceAllAbsent(rel, u, "");
    assert ReplaceAll(url, u, "") == rel;
  }

  /** End to end: with uploads at `scheme + host`, the URL of an uploaded file
      under any of the schemes maps to the same local path. */
  lemma LocalPathAcrossSchemes(env: Env, scheme: string, host: string, page: string, rel: string)
    requires scheme == HttpScheme || scheme == HttpsScheme
    requires page == HttpScheme || page == HttpsScheme || page == RelativeScheme
    requires env.baseurl == scheme + host && host != []
    requires !Occurs(HttpScheme, host) && !Occurs(HttpsScheme, host)
    requires !Occurs(page + host, rel)
    ensures GetAttachmentPathByUrl(env, page + host + rel) == Success(env.basedir + rel)
  {
    var url := page + host + rel;
    assert StartsWith(url, page) by { assert url[..|page|] == page; }
    if page == HttpScheme {
      assert url[..8] != HttpsScheme by { assert url[4] == ':'; }
    } else if page == RelativeScheme {
      assert url[0] == '/';
      assert !StartsWith(url, HttpsScheme) && !StartsWith(url, HttpScheme) by {
        if |url| >= 7 { assert url[..7][0] == '/'; }
        if |url| >= 8 { assert url[..8][0] == '/'; }
      }
    }
    assert AlignedScheme(url, scheme) == page;
    AlignSchemeOfUploadUrl(url, scheme, host);
    assert url == (page + host) + rel;
    assert Truthy(url) by { assert |url| >= 3; }
    LocalPathOfUploadedUrl(env, url, rel);
  }

  // ------------------------------------------- getAttachmentInfoByPath

  datatype Dims = Dims(width: int, height: int)

  /** `getAttachmentInfoByPath`: the probed pixel size of a local file. */
  function GetAttachmentInfoByPath(env: Env, path: string): (r: Result<Dims, Error>)
    ensures r.Success? <==>
      env.fileExists(path) && env.imageSize(path).Some? &&
      env.imageSize(path).value.0 != 0 && env.imageSize(path).value.1 != 0
    ensures r.Success? ==> r.value == Dims(env.imageSize(path).value.0, env.imageSize(path).value.1)
    ensures !env.fileExists(path) ==> r == Failure(InvalidArgument("File not exists: $imgPath"))
  {
    if !env.fileExists(path) then Failure(InvalidArgument("File not exists: $imgPath"))
    else match env.imageSize(path)
      case None => Failure(Runtime("Can`t get image size"))
      case Some((w, h)) =>
        if w == 0 || h == 0 then
          Failure(Runtime("Unexpected image size: [width:" + IntToString(w) + ", height:" + IntToString(h) + "]"))
        else Success(Dims(w, h))
  }

  /** `getAttachmentInfoByPath(getAttachmentPathByUrl($url))`, the probe the
      image classes fall back on for missing dimensions. */
  function ProbeUrl(env: Env, url: string): (r: Result<Dims, Error>)
    ensures r.Success? ==> r.value.width != 0 && r.value.height != 0
    ensures r.Success? <==>
      (GetAttachmentPathByUrl(env, url).Success? &&
       GetAttachmentInfoByPath(env, GetAttachmentPathByUrl(env, url).value).Success?)
  {
    match GetAttachmentPathByUrl(env, url)
    case Failure(e) => Failure(e)
    case Success(path) => GetAttachmentInfoByPath(env, path)
  }

  // ------------------------------------------- isSvgByAttachmentUrl

  /** `isSvgByAttachmentUrl`: the extension of the URL's path is "svg" in any case. */
  function IsSvgByAttachmentUrl(env: Env, url: string): (r: bool)
    ensures r <==> Truthy(url) && SvgSpelling(Extension(env.urlPath(url)))
  {
    LowerIsSvg(Extension(env.urlPath(url)));
    Truthy(url) && Lower(Extension(env.urlPath(url))) == "svg"
  }

  /** "svg" with each letter in either case. */
  predicate SvgSpelling(e: string) {
    |e| == 3 && e[0] in "sS" && e[1] in "vV" && e[2] in "gG"
  }

  /** The extensions that `strtolower` turns into "svg" are the eight
      spellings of "svg" in mixed case, and no others. */
  lemma LowerIsSvg(e: string)
    ensures Lower(e) == "svg" <==> SvgSpelling(e)
  {
    if |e| == 3 {
      assert Lower(e) == [LowerChar(e[0]), LowerChar(e[1]), LowerChar(e[2])];
    }
  }

  /** For a path ending in `.e`, the URL is SVG exactly when it is truthy and
      `e` reads "svg" once lowered ("SVG", "Svg", ...). */
  lemma IsSvgByExtension(env: Env, url: string, p: string, e: string)
    requires env.urlPath(url) == p + "." + e
    requires forall i :: 0 <= i < |e| ==> e[i] != '.' && e[i] != '/'
    ensures IsSvgByAttachmentUrl(env, url) <==> Truthy(url) && Lower(e) == "svg"
  {
    ExtensionOf(p, e);
  }

  lemma UpperCaseSvg()
    ensures Lower("SVG") == "svg" && Lower("Svg") == "svg"
  {
  }

  lemma EmptyUrlIsNotSvg(env: Env)
    ensures !IsSvgByAttachmentUrl(env, "") && !IsSvgByAttachmentUrl(env, "0")
  {
  }
}
