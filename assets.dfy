/**
 * The decisions inside the asset handlers of internal/server/assets.go: how an
 * upload's bytes, file name and MIME type are obtained and bounded, which
 * upload IDs are accepted, which local paths may be served, and how a media
 * URL is normalised before it is resolved.
 *
 * Paths are Unix paths and are taken to be absolute already. The file system,
 * the media download, SHA-256 naming of cached files, the MIME table and the
 * base64 decoders are parameters or outside the model.
 */
module Assets {
  import opened Wrappers
  import opened Text
  import opened ApiErrors

  type Bytes = seq<bv8>

  /** maxUploadSizeBytes: 500 MiB. */
  const MaxUploadSizeBytes: nat := 500 * 1024 * 1024

  const DefaultFileName: string := "file"
  const DefaultMimeType: string := "application/octet-stream"

  /* ---------- path helpers (path/filepath on Unix) ---------- */

  /** `s` without its trailing slashes. */
  function TrimTrailingSlashes(s: string): (r: string)
    ensures |r| <= |s| && r == s[..|r|] && (r == "" || r[|r| - 1] != '/')
    ensures forall i :: |r| <= i < |s| ==> s[i] == '/'
  {
    if |s| > 0 && s[|s| - 1] == '/' then TrimTrailingSlashes(s[..|s| - 1]) else s
  }

  /** What follows the last slash of `s` (all of `s` when it has none). */
  function LastElement(s: string): (r: string)
    ensures '/' !in r && HasSuffix(s, r)
    ensures |r| < |s| ==> s[|s| - |r| - 1] == '/'
  {
    if |s| == 0 then ""
    else if s[|s| - 1] == '/' then ""
    else
      var r := LastElement(s[..|s| - 1]) + [s[|s| - 1]];
      assert s[|s| - |r|..] == s[..|s| - 1][|s| - |r|..] + [s[|s| - 1]];
      r
  }

  /** filepath.Base: "." for "", "/" for slashes only, else the last element. */
  function Base(path: string): (r: string)
    ensures r != ""
    ensures r == "/" || '/' !in r
    ensures path == "" ==> r == "."
    ensures path != "" && TrimTrailingSlashes(path) == "" ==> r == "/"
    ensures var stripped := TrimTrailingSlashes(path);
      stripped != "" ==> ('/' !in r && HasSuffix(stripped, r)
        && (|r| == |stripped| || stripped[|stripped| - |r| - 1] == '/'))
  {
    if path == "" then "."
    else
      var stripped := TrimTrailingSlashes(path);
      if stripped == "" then "/" else
        var last := LastElement(stripped);
        assert last != "" by {
          assert stripped[|stripped| - 1] != '/';
        }
        last
  }

  /** The last element of a path that does not end in a slash grows by its last character. */
  lemma DotInLastElement(path: string)
    requires |path| > 0 && path[|path| - 1] != '/'
    ensures ('.' in LastElement(path)) <==> ('.' in LastElement(path[..|path| - 1]) || path[|path| - 1] == '.')
  {
    assert LastElement(path) == LastElement(path[..|path| - 1]) + [path[|path| - 1]];
  }

  /** filepath.Ext: from the last dot of the last element, or "". */
  function Ext(path: string): (r: string)
    ensures r == "" || (r[0] == '.' && HasSuffix(path, r) && '/' !in r && '.' !in r[1..])
    ensures r == "" <==> '.' !in LastElement(path)
  {
    if |path| == 0 || path[|path| - 1] == '/' then ""
    else
      DotInLastElement(path);
      if path[|path| - 1] == '.' then "."
      else
      var e := Ext(path[..|path| - 1]);
      if e == "" then ""
      else
        ExtStep(path, e);
        e + [path[|path| - 1]]
  }

  /** An extension of all but the last character, extended by a last character that is neither `/` nor `.`. */
  lemma ExtStep(path: string, e: string)
    requires |path| > 0 && path[|path| - 1] != '/' && path[|path| - 1] != '.'
    requires e != "" && e[0] == '.' && HasSuffix(path[..|path| - 1], e) && '/' !in e && '.' !in e[1..]
    ensures var r := e + [path[|path| - 1]];
      r[0] == '.' && HasSuffix(path, r) && '/' !in r && '.' !in r[1..]
  {
    var r := e + [path[|path| - 1]];
    assert r[1..] == e[1..] + [path[|path| - 1]];
    assert path[|path| - |r|..] == path[..|path| - 1][|path| - 1 - |e|..] + [path[|path| - 1]];
  }

  /* ---------- uploads ---------- */

  /** The file name an upload is stored under (uploadAsset, after the size check). */
  function StoredFileName(name: string): (r: string)
    ensures r != "" && r != "." && '/' !in r
    ensures name != "" && name != "." && '/' !in name ==> r == name
  {
    var named := if name == "" then DefaultFileName else name;
    var base := Base(named);
    if base == "." || base == "/" || base == "" then DefaultFileName else base
  }

  /** A name with directories keeps only its last element; nothing is left to climb out with but "..". */
  lemma StoredFileNameDropsDirectories(dir: string, name: string)
    requires name != "" && name != "." && '/' !in name
    ensures StoredFileName(dir + "/" + name) == name
  {
    var path := dir + "/" + name;
    assert TrimTrailingSlashes(path) == path by {
      assert path[|path| - 1] == name[|name| - 1];
    }
    LastElementAfterSlash(dir, name);
  }

  lemma {:induction false} LastElementAfterSlash(dir: string, name: string)
    requires '/' !in name
    ensures LastElement(dir + "/" + name) == name
    decreases |name|
  {
    var path := dir + "/" + name;
    if |name| == 0 {
      assert path[|path| - 1] == '/';
    } else {
      assert path[..|path| - 1] == dir + "/" + name[..|name| - 1];
      LastElementAfterSlash(dir, name[..|name| - 1]);
      assert name[..|name| - 1] + [name[|name| - 1]] == name;
    }
  }

  /**
   * The MIME type an upload is stored with: the one given, else the one the
   * file extension suggests (`byExtension` is mime.TypeByExtension), else
   * application/octet-stream.
   */
  function StoredMimeType(given: string, fileName: string, byExtension: string -> string): (r: string)
    ensures r != ""
    ensures given != "" ==> r == given
    ensures given == "" && byExtension(Ext(fileName)) != "" ==> r == byExtension(Ext(fileName))
    ensures given == "" && byExtension(Ext(fileName)) == "" ==> r == DefaultMimeType
  {
    var fromName := if given == "" then byExtension(Ext(fileName)) else given;
    if fromName == "" then DefaultMimeType else fromName
  }

  /** An upload as the parsers hand it to uploadAsset. */
  datatype Upload = Upload(data: Bytes, fileName: string, mimeType: string)

  /** The "file" part of a multipart form. */
  datatype FormFile = FormFile(content: Bytes, fileName: string, contentType: string, readErr: Option<GoError>)

  /** A multipart body: the form parser's failure, or the file part and the two text fields. */
  datatype MultipartForm =
    | InvalidForm(err: GoError)
    | Form(file: Option<FormFile>, fileNameField: string, mimeTypeField: string)

  /** io.LimitReader(file, limit): the first `limit` bytes. */
  function ReadAtMost(content: Bytes, limit: nat): (r: Bytes)
    ensures |r| <= limit && |r| <= |content| && r == content[..|r|]
    ensures |content| <= limit ==> r == content
  {
    if |content| <= limit then content else content[..limit]
  }

  /**
   * parseMultipartUpload: the file is read up to one byte past the limit, so
   * that an oversized file is seen and refused; the form fields win over
   * the part's own file name and content type.
   */
  function ParseMultipartUpload(form: MultipartForm): (r: Result<Upload, GoError>)
    ensures form.InvalidForm? ==> r == Failure(Wrapped("invalid multipart form", form.err))
    ensures form.Form? && form.file.None? ==> r == Failure(Plain("missing file field"))
    ensures r.Success? ==> form.Form? && form.file.Some?
    ensures r.Success? ==> r.value.data == form.file.value.content && |r.value.data| <= MaxUploadSizeBytes
    ensures form.Form? && form.file.Some? && form.file.value.readErr.None? ==>
      (r.Failure? <==> |form.file.value.content| > MaxUploadSizeBytes)
    ensures r.Success? ==>
      r.value.fileName == (if form.fileNameField != "" then form.fileNameField else form.file.value.fileName)
      && r.value.mimeType == (if form.mimeTypeField != "" then form.mimeTypeField else form.file.value.contentType)
  {
    match form
    case InvalidForm(err) => Failure(Wrapped("invalid multipart form", err))
    case Form(file, fileNameField, mimeTypeField) =>
      if file.None? then Failure(Plain("missing file field"))
      else
        var data := ReadAtMost(file.value.content, MaxUploadSizeBytes + 1);
        if file.value.readErr.Some? then Failure(Wrapped("failed to read uploaded file", file.value.readErr.value))
        else if |data| > MaxUploadSizeBytes then Failure(Plain("upload too large"))
        else
          var name := if fileNameField != "" then fileNameField else file.value.fileName;
          var mime := if mimeTypeField != "" then mimeTypeField else file.value.contentType;
          Success(Upload(data, name, mime))
  }

  /** The JSON body of a base64 upload. */
  datatype Base64Input = Base64Input(content: string, fileName: string, mimeType: string)

  /**
   * The two decoders tried in turn: padded standard base64, then the same
   * alphabet without padding (RFC 4648 section 4 and section 3.2).
   */
  datatype Base64Decoders = Base64Decoders(padded: string -> Option<Bytes>, unpadded: string -> Option<Bytes>)

  /** parseBase64Upload after the body is decoded (`body` is that decoding's outcome). */
  function ParseBase64Upload(body: Result<Base64Input, GoError>, dec: Base64Decoders): (r: Result<Upload, GoError>)
    ensures body.Failure? ==> r == Failure(body.error)
    ensures body.Success? && IsBlank(body.value.content) ==> r == Failure(Plain("content is required"))
    ensures body.Success? && !IsBlank(body.value.content) ==>
      if dec.padded(body.value.content).Some? then
        r == Success(Upload(dec.padded(body.value.content).value, body.value.fileName, body.value.mimeType))
      else if dec.unpadded(body.value.content).Some? then
        r == Success(Upload(dec.unpadded(body.value.content).value, body.value.fileName, body.value.mimeType))
      else r == Failure(Plain("invalid base64 content"))
  {
    if body.Failure? then Failure(body.error)
    else
      var input := body.value;
      if IsBlank(input.content) then Failure(Plain("content is required"))
      else
        var decoded := dec.padded(input.content);
        var decoded' := if decoded.Some? then decoded else dec.unpadded(input.content);
        if decoded'.None? then Failure(Plain("invalid base64 content"))
        else Success(Upload(decoded'.value, input.fileName, input.mimeType))
  }

  /** What uploadAsset goes on to store, or the error text it answers with. */
  datatype UploadOutcome = Rejected(message: string) | Store(data: Bytes, fileName: string, mimeType: string)

  /**
   * uploadAsset up to the point where it writes: the parser chosen by the
   * Content-Type, the overall size check, then the file name and MIME type
   * fallbacks.
   */
  function UploadAsset(contentType: string, form: MultipartForm, body: Result<Base64Input, GoError>,
                       dec: Base64Decoders, byExtension: string -> string): (r: UploadOutcome)
    ensures r.Store? ==> |r.data| <= MaxUploadSizeBytes
    ensures r.Store? ==> r.fileName != "" && r.fileName != "." && '/' !in r.fileName && r.mimeType != ""
    ensures Contains(contentType, "multipart/form-data") && ParseMultipartUpload(form).Failure? ==>
      r == Rejected(Message(ParseMultipartUpload(form).error))
    ensures !Contains(contentType, "multipart/form-data") && ParseBase64Upload(body, dec).Failure? ==>
      r == Rejected(Message(ParseBase64Upload(body, dec).error))
    ensures var parsed := if Contains(contentType, "multipart/form-data") then ParseMultipartUpload(form)
                          else ParseBase64Upload(body, dec);
      parsed.Success? ==>
        (|parsed.value.data| > MaxUploadSizeBytes ==> r == Rejected("Upload too large"))
        && (|parsed.value.data| <= MaxUploadSizeBytes ==>
              var name := StoredFileName(parsed.value.fileName);
              r == Store(parsed.value.data, name, StoredMimeType(parsed.value.mimeType, name, byExtension)))
  {
    var parsed := if Contains(contentType, "multipart/form-data") then ParseMultipartUpload(form)
                  else ParseBase64Upload(body, dec);
    if parsed.Failure? then Rejected(Message(parsed.error))
    else if |parsed.value.data| > MaxUploadSizeBytes then Rejected("Upload too large")
    else
      var name := StoredFileName(parsed.value.fileName);
      Store(parsed.value.data, name, StoredMimeType(parsed.value.mimeType, name, byExtension))
  }

  /** A base64 upload over the limit decodes fine but is refused before anything is written. */
  lemma OversizedBase64Refused(contentType: string, form: MultipartForm, input: Base64Input,
                               dec: Base64Decoders, byExtension: string -> string)
    requires !Contains(contentType, "multipart/form-data") && !IsBlank(input.content)
    requires dec.padded(input.content).Some? && |dec.padded(input.content).value| > MaxUploadSizeBytes
    ensures UploadAsset(contentType, form, Success(input), dec, byExtension) == Rejected("Upload too large")
  {
  }

  /* ---------- stored uploads ---------- */

  /** A character of `[a-zA-Z0-9_-]`. */
  predicate UploadIDChar(c: char)
  {
    ('a' <= c <= 'z') || ('A' <= c <= 'Z') || ('0' <= c <= '9') || c == '_' || c == '-'
  }

  /** safeUploadIDPattern: one or more of `[a-zA-Z0-9_-]`. */
  predicate ValidUploadID(uploadID: string)
  {
    |uploadID| > 0 && forall i :: 0 <= i < |uploadID| ==> UploadIDChar(uploadID[i])
  }

  /** loadUploadMetadataByID's first check. */
  function CheckUploadID(uploadID: string): (r: Option<ApiError>)
    ensures r.None? <==> ValidUploadID(uploadID)
    ensures r.Some? ==> r.value == Validation(FieldProblem("uploadID", "invalid uploadID"))
  {
    if ValidUploadID(uploadID) then None else Some(Validation(FieldProblem("uploadID", "invalid uploadID")))
  }

  /** An accepted ID names one directory right under the upload root: no separator, no dot entries. */
  lemma UploadIDStaysInRoot(uploadID: string)
    requires CheckUploadID(uploadID).None?
    ensures '/' !in uploadID && '.' !in uploadID
    ensures uploadID != "" && uploadID != "." && uploadID != ".."
  {
    assert forall c :: c in uploadID ==> UploadIDChar(c);
  }

  /** The IDs the server hands out, lower-case hex digits, are all accepted. */
  lemma HexIDsAccepted(uploadID: string)
    requires |uploadID| == 32
    requires forall i :: 0 <= i < |uploadID| ==> ('0' <= uploadID[i] <= '9') || ('a' <= uploadID[i] <= 'f')
    ensures CheckUploadID(uploadID).None?
  {
  }

  /* ---------- serving local files ---------- */

  /** The upload root and asset cache under the state directory. */
  function UploadRoot(stateDir: string): string
  {
    stateDir + "/api-uploads"
  }

  function AssetRoot(stateDir: string): string
  {
    stateDir + "/assets"
  }

  /** isAllowedServePath for an absolute path: strictly inside one of the two roots. */
  predicate AllowedServePath(absPath: string, stateDir: string)
  {
    HasPrefix(absPath, UploadRoot(stateDir) + "/") || HasPrefix(absPath, AssetRoot(stateDir) + "/")
  }

  /** Anything below either root may be served. */
  lemma InsideRootsAllowed(stateDir: string, rel: string)
    ensures AllowedServePath(UploadRoot(stateDir) + "/" + rel, stateDir)
    ensures AllowedServePath(AssetRoot(stateDir) + "/" + rel, stateDir)
  {
    var u := UploadRoot(stateDir) + "/";
    var a := AssetRoot(stateDir) + "/";
    assert (u + rel)[..|u|] == u;
    assert (a + rel)[..|a|] == a;
  }

  /**
   * The roots themselves are refused, and so is a sibling whose name merely
   * starts with a root's name ("/state/assets-old/x").
   */
  lemma RootsAndSiblingsRefused(stateDir: string, suffix: string)
    requires suffix == "" || suffix[0] != '/'
    ensures !AllowedServePath(UploadRoot(stateDir) + suffix, stateDir)
    ensures !AllowedServePath(AssetRoot(stateDir) + suffix, stateDir)
  {
    var n := |stateDir|;
    var u := UploadRoot(stateDir) + suffix;
    var a := AssetRoot(stateDir) + suffix;
    var uRoot := UploadRoot(stateDir) + "/";
    var aRoot := AssetRoot(stateDir) + "/";
    assert !HasPrefix(u, uRoot) by {
      if |uRoot| <= |u| {
        assert u[n + 12] == suffix[0] && uRoot[n + 12] == '/';
        assert u[..|uRoot|][n + 12] != uRoot[n + 12];
      }
    }
    assert !HasPrefix(u, aRoot) by {
      assert u[..|aRoot|][n + 2] == 'p' && aRoot[n + 2] == 's';
    }
    assert !HasPrefix(a, aRoot) by {
      if |aRoot| <= |a| {
        assert a[n + 7] == suffix[0] && aRoot[n + 7] == '/';
        assert a[..|aRoot|][n + 7] != aRoot[n + 7];
      }
    }
    assert !HasPrefix(a, uRoot) by {
      if |uRoot| <= |a| {
        assert a[..|uRoot|][n + 2] == 's' && uRoot[n + 2] == 'p';
      }
    }
  }

  /* ---------- media URLs ---------- */

  const LocalMxcScheme: string := "localmxc://"
  const MxcScheme: string := "mxc://"

  /** resolveAssetURL's first step: trim, and rewrite localmxc:// to mxc://. */
  function NormalizeAssetURL(raw: string): (r: string)
    ensures HasPrefix(TrimSpace(raw), LocalMxcScheme) ==>
      r == MxcScheme + TrimSpace(raw)[|LocalMxcScheme|..]
    ensures !HasPrefix(TrimSpace(raw), LocalMxcScheme) ==> r == TrimSpace(raw)
  {
    var normalized := TrimSpace(raw);
    if HasPrefix(normalized, LocalMxcScheme) then MxcScheme + TrimPrefix(normalized, LocalMxcScheme)
    else normalized
  }

  /** A local and a remote spelling of the same media resolve (and are cached) alike. */
  lemma LocalAndRemoteAgree(rest: string)
    ensures NormalizeAssetURL(LocalMxcScheme + rest) == NormalizeAssetURL(MxcScheme + rest)
  {
    TrimSchemeURL(LocalMxcScheme, rest);
    TrimSchemeURL(MxcScheme, rest);
    var l := LocalMxcScheme + TrimRight(rest);
    assert l[..|LocalMxcScheme|] == LocalMxcScheme;
    assert l[|LocalMxcScheme|..] == TrimRight(rest);
    var m := MxcScheme + TrimRight(rest);
    assert !HasPrefix(m, LocalMxcScheme) by {
      if |m| >= |LocalMxcScheme| {
        assert m[..|LocalMxcScheme|][0] == 'm';
      }
    }
  }

  /** Trimming a URL that starts with a scheme only trims its tail. */
  lemma TrimSchemeURL(scheme: string, rest: string)
    requires scheme != "" && !IsSpace(scheme[0]) && !IsSpace(scheme[|scheme| - 1])
    ensures TrimSpace(scheme + rest) == scheme + TrimRight(rest)
  {
    assert TrimLeft(scheme + rest) == scheme + rest;
    TrimRightAfter(scheme, rest);
  }

  lemma {:induction false} TrimRightAfter(p: string, s: string)
    requires p != "" && !IsSpace(p[|p| - 1])
    ensures TrimRight(p + s) == p + TrimRight(s)
    decreases |s|
  {
    if |s| == 0 {
      assert p + s == p;
    } else if IsSpace(s[|s| - 1]) {
      assert (p + s)[..|p + s| - 1] == p + s[..|s| - 1];
      TrimRightAfter(p, s[..|s| - 1]);
    }
  }

  /** Normalising twice is normalising once: the rewritten URL starts with "mxc://" and is already trimmed. */
  lemma NormalizeAssetURLIdempotent(raw: string)
    ensures NormalizeAssetURL(NormalizeAssetURL(raw)) == NormalizeAssetURL(raw)
  {
    var t := TrimSpace(raw);
    TrimSpaceFacts(raw);
    TrimSpaceIdempotent(raw);
    var n := NormalizeAssetURL(raw);
    if HasPrefix(t, LocalMxcScheme) {
      assert n[0] == 'm' && !IsSpace(n[0]);
      assert n[|n| - 1] == t[|t| - 1];
      assert TrimLeft(n) == n;
      assert TrimRight(n) == n;
      assert !HasPrefix(n, LocalMxcScheme) by {
        if |n| >= |LocalMxcScheme| {
          assert n[..|LocalMxcScheme|][0] == 'm';
        }
      }
    }
  }

  /**
   * The checks resolveAssetURL makes before touching the cache: the URL must
   * be a valid mxc:// URI (`validMxc` is mautrix's parse-and-validate).
   */
  function CheckAssetURL(raw: string, validMxc: string -> bool): (r: Result<string, GoError>)
    ensures r.Success? <==> validMxc(NormalizeAssetURL(raw))
    ensures r.Success? ==> r.value == NormalizeAssetURL(raw)
    ensures r.Failure? ==> r.error == Plain("URL must be mxc:// or localmxc://")
  {
    var normalized := NormalizeAssetURL(raw);
    if validMxc(normalized) then Success(normalized) else Failure(Plain("URL must be mxc:// or localmxc://"))
  }

  /**
   * resolveServePath: a file:// URL is served only from inside the roots
   * (`filePath` is url.Parse followed by filepath.Clean, None when parsing
   * fails); any other URL is resolved as media (`resolveMedia` is
   * resolveAssetURL) and a failure there is a 404.
   */
  function ResolveServePath(raw: string, stateDir: string, filePath: string -> Option<string>,
                            resolveMedia: string -> Result<string, GoError>): (r: Result<string, ApiError>)
    ensures HasPrefix(raw, "file://") && r.Success? ==> AllowedServePath(r.value, stateDir)
    ensures HasPrefix(raw, "file://") && filePath(raw).None? ==>
      r == Failure(Validation(FieldProblem("url", "invalid file url")))
    ensures HasPrefix(raw, "file://") && filePath(raw).Some? && !AllowedServePath(filePath(raw).value, stateDir) ==>
      r == Failure(Forbidden("Access denied: path is outside allowed directories"))
    ensures HasPrefix(raw, "file://") && filePath(raw).Some? && AllowedServePath(filePath(raw).value, stateDir) ==>
      r == Success(filePath(raw).value)
    ensures !HasPrefix(raw, "file://") ==>
      r == match resolveMedia(raw)
           case Success(path) => Success(path)
           case Failure(err) => Failure(NotFound(Message(err)))
  {
    if HasPrefix(raw, "file://") then
      match filePath(raw)
      case None => Failure(Validation(FieldProblem("url", "invalid file url")))
      case Some(path) =>
        if !AllowedServePath(path, stateDir) then Failure(Forbidden("Access denied: path is outside allowed directories"))
        else Success(path)
    else
      match resolveMedia(raw)
      case Success(path) => Success(path)
      case Failure(err) => Failure(NotFound(Message(err)))
  }

  /** serveAsset: the trimmed `url` query value is required, then resolved. */
  function ServeAsset(url: string, stateDir: string, filePath: string -> Option<string>,
                      resolveMedia: string -> Result<string, GoError>): (r: Result<string, ApiError>)
    ensures IsBlank(url) ==> r == Failure(Validation(FieldProblem("url", "url is required")))
    ensures !IsBlank(url) ==> r == ResolveServePath(TrimSpace(url), stateDir, filePath, resolveMedia)
  {
    var assetURL := TrimSpace(url);
    if assetURL == "" then Failure(Validation(FieldProblem("url", "url is required")))
    else ResolveServePath(assetURL, stateDir, filePath, resolveMedia)
  }
}
