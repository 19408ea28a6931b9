/** Attachment bundles: their canonical form, and the generic objects they are stored as. */
module Bundle {
  import opened Text

  /** The library operations the helpers rest on: lowering a rune, the base name and the
      extension of a reference, and copying metadata by way of its JSON text. */
  datatype Env = Env(lower: char -> char, base: string -> string, ext: string -> string, copy: Metadata -> Metadata)

  /** Opaque values by key; a nil map and an empty one are both empty. */
  type Metadata = map<string, string>

  /** Lowering is idempotent, keeps white space apart from the rest, and leaves alone every
      ASCII rune that is no upper-case letter. */
  ghost predicate Lowers(env: Env) {
    && (forall c :: env.lower(env.lower(c)) == env.lower(c))
    && (forall c :: IsSpace(env.lower(c)) <==> IsSpace(c))
    && (forall c: char :: c < '\U{0080}' && !('A' <= c <= 'Z') ==> env.lower(c) == c)
  }

  function Lower(s: string, env: Env): (r: string)
    ensures |r| == |s|
  {
    seq(|s|, i requires 0 <= i < |s| => env.lower(s[i]))
  }

  // ----- The helpers -----

  /** What precedes the first occurrence of a rune. */
  function Before(s: string, c: char): (r: string)
    ensures r <= s && c !in r
  {
    if s == "" || s[0] == c then "" else [s[0]] + Before(s[1..], c)
  }

  function NormalizeMime(raw: string, env: Env): string {
    var lowered := Lower(TrimSpace(raw), env);
    var mime := if ';' in lowered then TrimSpace(Before(lowered, ';')) else lowered;
    if '/' in mime then mime else ""
  }

  predicate IsDataURL(raw: string, env: Env) {
    HasPrefix(Lower(TrimSpace(raw), env), "data:")
  }

  function MimeFromDataURL(raw: string, env: Env): string {
    var value := TrimSpace(raw);
    if !IsDataURL(raw, env) then ""
    else
      var rest := value[|"data:"|..];
      if ';' in rest then NormalizeMime(Before(rest, ';'), env)
      else if ',' in rest then NormalizeMime(Before(rest, ','), env)
      else ""
  }

  function NormalizeBase64DataURL(input: string, mime: string, env: Env): string {
    var value := TrimSpace(input);
    if value == "" || IsDataURL(value, env) then value
    else
      var m := NormalizeMime(mime, env);
      "data:" + (if m == "" then "application/octet-stream" else m) + ";base64," + value
  }

  predicate IsLocalPath(raw: string) {
    HasPrefix(TrimSpace(raw), "/")
  }

  function FirstNonEmpty(values: seq<string>): string {
    if values == [] then "" else if TrimSpace(values[0]) != "" then TrimSpace(values[0]) else FirstNonEmpty(values[1..])
  }

  function InferNameFromRef(raw: string, env: Env): string {
    if Blank(raw) || IsDataURL(raw, env) then "" else TrimSpace(env.base(TrimSpace(raw)))
  }

  /** A word of lower-case ASCII letters. */
  predicate Letters(s: string) {
    s != "" && forall i :: 0 <= i < |s| ==> 'a' <= s[i] <= 'z'
  }

  function KindWord(image: bool, audio: bool, video: bool): (kind: string)
    ensures Letters(kind)
  {
    if image then "image" else if audio then "audio" else if video then "video" else "file"
  }

  function InferTypeFromMime(raw: string, env: Env): string {
    var mime := NormalizeMime(raw, env);
    KindWord(HasPrefix(mime, "image/"), HasPrefix(mime, "audio/"), HasPrefix(mime, "video/"))
  }

  const IMAGES := [".jpg", ".jpeg", ".png", ".gif", ".webp", ".svg"]
  const AUDIOS := [".mp3", ".wav", ".ogg", ".flac", ".aac"]
  const VIDEOS := [".mp4", ".webm", ".avi", ".mov"]

  function InferTypeFromExt(raw: string, env: Env): string {
    var ext := Lower(env.ext(InferNameFromRef(raw, env)), env);
    KindWord(ext in IMAGES, ext in AUDIOS, ext in VIDEOS)
  }

  // ----- Normalize -----

  datatype Bundle = Bundle(
    kind: string, base64: string, path: string, url: string, platformKey: string, sourcePlatform: string,
    contentHash: string, name: string, mime: string, size: int, durationMs: int, width: int, height: int,
    thumbnailURL: string, caption: string, metadata: Metadata)

  /** Normalising is about the strings only. */
  predicate SameData(b: Bundle, b': Bundle) {
    && b'.size == b.size && b'.durationMs == b.durationMs && b'.width == b.width && b'.height == b.height
    && b'.metadata == b.metadata
  }

  function Trimmed(b: Bundle, env: Env): (r: Bundle)
    ensures SameData(b, r)
  {
    Bundle(Lower(TrimSpace(b.kind), env), TrimSpace(b.base64), TrimSpace(b.path), TrimSpace(b.url),
           TrimSpace(b.platformKey), TrimSpace(b.sourcePlatform), TrimSpace(b.contentHash), TrimSpace(b.name),
           NormalizeMime(b.mime, env), b.size, b.durationMs, b.width, b.height,
           TrimSpace(b.thumbnailURL), TrimSpace(b.caption), b.metadata)
  }

  /** A url that carries the data itself, or a local path, moves to its own field. */
  function Routed(b: Bundle, env: Env): (r: Bundle)
    ensures SameData(b, r)
  {
    var b := if b.base64 == "" && IsDataURL(b.url, env) then b.(base64 := b.url, url := "") else b;
    if b.path == "" && IsLocalPath(b.url) then b.(path := b.url, url := "") else b
  }

  function WithPayload(b: Bundle, env: Env): (r: Bundle)
    ensures SameData(b, r)
  {
    if b.base64 == "" then b
    else
      var b := b.(base64 := NormalizeBase64DataURL(b.base64, b.mime, env));
      if b.mime == "" then b.(mime := MimeFromDataURL(b.base64, env)) else b
  }

  function WithName(b: Bundle, env: Env): (r: Bundle)
    ensures SameData(b, r)
  {
    if b.name == "" then b.(name := InferNameFromRef(FirstNonEmpty([b.path, b.url]), env)) else b
  }

  /** A type is inferred where there is none; it is never empty. */
  function InferredKind(b: Bundle, env: Env): (kind: string)
    ensures Letters(kind)
  {
    if b.mime != "" then InferTypeFromMime(b.mime, env)
    else if b.base64 != "" then
      var mime := MimeFromDataURL(b.base64, env);
      if mime != "" then InferTypeFromMime(mime, env) else KindWord(false, false, false)
    else InferTypeFromExt(FirstNonEmpty([b.path, b.url, b.name]), env)
  }

  function WithKind(b: Bundle, env: Env): (r: Bundle)
    ensures SameData(b, r)
  {
    if b.kind == "" then b.(kind := InferredKind(b, env)) else b
  }

  function Normalize(b: Bundle, env: Env): (r: Bundle)
    ensures SameData(b, r)
  {
    WithKind(WithName(WithPayload(Routed(Trimmed(b, env), env), env), env), env)
  }

  // ----- The canonical form -----

  predicate Trim(s: string) {
    s == "" || (!IsSpace(s[0]) && !IsSpace(s[|s| - 1]))
  }

  /** A string that trimming and lowering leave alone. */
  predicate Token(s: string, env: Env) {
    Trim(s) && Lower(s, env) == s
  }

  /** No mime type, or a lower-case one without parameters. */
  predicate IsMime(s: string, env: Env) {
    s == "" || (Token(s, env) && '/' in s && ';' !in s)
  }

  /** The bundles that are as they should be. */
  predicate Canonical(b: Bundle, env: Env) {
    && Token(b.kind, env) && b.kind != ""
    && Trim(b.base64) && Trim(b.path) && Trim(b.url) && Trim(b.platformKey) && Trim(b.sourcePlatform)
    && Trim(b.contentHash) && Trim(b.name) && Trim(b.thumbnailURL) && Trim(b.caption)
    && IsMime(b.mime, env)
    && (b.base64 == "" ==> !IsDataURL(b.url, env))
    && (b.path == "" ==> !IsLocalPath(b.url))
    && (b.base64 != "" ==> IsDataURL(b.base64, env) && (b.mime == "" ==> MimeFromDataURL(b.base64, env) == ""))
    && (b.name == "" ==> InferNameFromRef(FirstNonEmpty([b.path, b.url]), env) == "")
  }

  lemma TrimmedIsTrim(s: string)
    ensures Trim(TrimSpace(s)) && (Trim(s) ==> TrimSpace(s) == s)
  {
    if Trim(s) {
      TrimSpaceIdempotent(s);
    }
  }

  lemma LoweredIsToken(s: string, env: Env)
    requires Lowers(env) && Trim(s)
    ensures Token(Lower(s, env), env)
  {
  }

  lemma TokenPart(s: string, part: string, env: Env)
    requires Lower(s, env) == s && part <= s
    ensures Lower(TrimSpace(part), env) == TrimSpace(part)
  {
    var before, after := TrimSpaceSplits(part);
    var t := TrimSpace(part);
    forall i | 0 <= i < |t|
      ensures env.lower(t[i]) == t[i]
    {
      assert t[i] == part[|before| + i] == s[|before| + i] == Lower(s, env)[|before| + i];
    }
  }

  /** Normalised mime types are canonical, and canonical ones stay as they are. */
  lemma MimeCanonical(raw: string, env: Env)
    requires Lowers(env)
    ensures IsMime(NormalizeMime(raw, env), env)
    ensures IsMime(raw, env) ==> NormalizeMime(raw, env) == raw
  {
    hide TrimSpace, Lowers;
    var lowered := Lower(TrimSpace(raw), env);
    TrimmedIsTrim(raw);
    LoweredIsToken(TrimSpace(raw), env);
    if ';' in lowered {
      TrimmedIsTrim(Before(lowered, ';'));
      TokenPart(lowered, Before(lowered, ';'), env);
      TrimmedLacks(Before(lowered, ';'), ';');
    }
  }

  lemma TrimmedLacks(s: string, c: char)
    requires c !in s
    ensures c !in TrimSpace(s)
  {
    var before, after := TrimSpaceSplits(s);
  }

  lemma {:induction false} BeforeIs(a: string, c: char, b: string)
    requires c !in a
    ensures Before(a + [c] + b, c) == a
  {
    if a != "" {
      assert c !in a[1..];
      assert (a + [c] + b)[1..] == a[1..] + [c] + b;
      BeforeIs(a[1..], c, b);
    }
  }

  lemma {:induction false} TrimRightSpace(s: string, space: string)
    requires Trim(s) && s != "" && AllSpace(space)
    ensures TrimRight(s + space) == s
  {
    if space == "" {
      assert s + space == s;
    } else {
      var n := |space| - 1;
      assert (s + space)[..|s + space| - 1] == s + space[..n];
      TrimRightSpace(s, space[..n]);
    }
  }

  /** A mime type is found whatever its case, the space around it and its parameters. */
  lemma MimeIsFound(raw: string, m: string, space: string, params: string, env: Env)
    requires Lowers(env) && IsMime(m, env) && m != "" && AllSpace(space)
    requires Lower(TrimSpace(raw), env) == m + space + ";" + params
    ensures NormalizeMime(raw, env) == m
  {
    hide Lower, Lowers, TrimSpace, IsMime, AllSpace;
    var lowered := m + space + [';'] + params;
    MimeLacks(m, env);
    SpaceLacks(space);
    BeforeIs(m + space, ';', params);
    TrimMime(m, space, env);
    assert lowered[|m + space|] == ';';
    assert Before(lowered, ';') == m + space;
  }

  lemma SpaceLacks(space: string)
    requires AllSpace(space)
    ensures ';' !in space
  {
  }

  lemma TrimMime(m: string, space: string, env: Env)
    requires IsMime(m, env) && m != "" && AllSpace(space)
    ensures TrimSpace(m + space) == m && '/' in m
  {
    hide AllSpace, Lower;
    TrimRightSpace(m, space);
    assert (m + space)[0] == m[0];
  }

  /** The data URL made of a payload carries its mime type. */
  lemma PayloadCarriesMime(input: string, mime: string, env: Env)
    requires Lowers(env) && Trim(input) && input != "" && !IsDataURL(input, env)
    ensures MimeFromDataURL(NormalizeBase64DataURL(input, mime, env), env)
            == if NormalizeMime(mime, env) == "" then "application/octet-stream" else NormalizeMime(mime, env)
  {
    hide TrimSpace, NormalizeMime, MimeFromDataURL, IsDataURL, Lower, Lowers, IsMime, Trim;
    var m := if NormalizeMime(mime, env) == "" then "application/octet-stream" else NormalizeMime(mime, env);
    TrimmedIsTrim(input);
    PayloadCanonical(input, mime, env);
    MimeCanonical(mime, env);
    OctetStream(env);
    var url := NormalizeBase64DataURL(input, mime, env);
    assert url == "data:" + m + ";" + ("base64," + input);
    MimeOfDataURL(url, m, "base64," + input, env);
  }

  lemma MimeOfDataURL(url: string, m: string, tail: string, env: Env)
    requires Lowers(env) && Trim(url) && IsDataURL(url, env) && IsMime(m, env) && url == "data:" + m + ";" + tail
    ensures MimeFromDataURL(url, env) == m
  {
    hide TrimSpace, NormalizeMime, IsDataURL, Lower, Lowers, IsMime, Trim;
    TrimmedIsTrim(url);
    MimeCanonical(m, env);
    MimeLacks(m, env);
    var rest := m + [';'] + tail;
    assert url[5..] == rest && rest[|m|] == ';';
    BeforeIs(m, ';', tail);
  }

  lemma OctetStream(env: Env)
    requires Lowers(env)
    ensures IsMime("application/octet-stream", env)
  {
  }

  lemma MimeLacks(m: string, env: Env)
    requires IsMime(m, env)
    ensures ';' !in m
  {
  }

  /** A payload made into a data URL is one, and one that is already stays as it is. */
  lemma PayloadCanonical(input: string, mime: string, env: Env)
    requires Lowers(env) && Trim(input) && input != ""
    ensures var url := NormalizeBase64DataURL(input, mime, env); Trim(url) && url != "" && IsDataURL(url, env)
    ensures IsDataURL(input, env) ==> NormalizeBase64DataURL(input, mime, env) == input
  {
    hide TrimSpace, Lowers;
    TrimmedIsTrim(input);
    var url := NormalizeBase64DataURL(input, mime, env);
    TrimmedIsTrim(url);
    if !IsDataURL(input, env) {
      assert url[..5] == "data:" && url[|url| - 1] == input[|input| - 1];
      PrefixLowers(url, env);
    }
  }

  lemma PrefixLowers(url: string, env: Env)
    requires Lowers(env) && |url| >= 5 && url[..5] == "data:"
    ensures HasPrefix(Lower(url, env), "data:")
    ensures !IsSpace(url[0])
  {
    assert forall i :: 0 <= i < 5 ==> url[i] == url[..5][i];
    assert Lower(url, env)[..5] == "data:";
  }

  lemma NameTrim(ref: string, env: Env)
    ensures Trim(InferNameFromRef(ref, env))
  {
    hide TrimSpace;
    TrimmedIsTrim(env.base(TrimSpace(ref)));
  }

  lemma DataMimeCanonical(url: string, env: Env)
    requires Lowers(env)
    ensures IsMime(MimeFromDataURL(url, env), env)
  {
    hide TrimSpace, Lowers, NormalizeMime, Before, IsMime;
    var value := TrimSpace(url);
    if IsDataURL(url, env) {
      MimeCanonical(Before(value[5..], ';'), env);
      MimeCanonical(Before(value[5..], ','), env);
    }
    assert IsMime("", env) by {
      NoMime(env);
    }
  }

  lemma NoMime(env: Env)
    ensures IsMime("", env)
  {
  }

  lemma KindCanonical(kind: string, env: Env)
    requires Lowers(env) && Letters(kind)
    ensures Token(kind, env)
  {
  }

  lemma TrimmedCanonical(b: Bundle, env: Env)
    requires Lowers(env)
    ensures var t := Trimmed(b, env);
            && Token(t.kind, env) && Trim(t.base64) && Trim(t.path) && Trim(t.url) && Trim(t.platformKey)
            && Trim(t.sourcePlatform) && Trim(t.contentHash) && Trim(t.name) && Trim(t.thumbnailURL) && Trim(t.caption)
            && IsMime(t.mime, env)
  {
    hide TrimSpace, Lowers, Trim, Token, NormalizeMime, IsMime, Lower;
    TrimmedIsTrim(b.kind);
    LoweredIsToken(TrimSpace(b.kind), env);
    TrimmedIsTrim(b.base64);
    TrimmedIsTrim(b.path);
    TrimmedIsTrim(b.url);
    TrimmedIsTrim(b.platformKey);
    TrimmedIsTrim(b.sourcePlatform);
    TrimmedIsTrim(b.contentHash);
    TrimmedIsTrim(b.name);
    TrimmedIsTrim(b.thumbnailURL);
    TrimmedIsTrim(b.caption);
    MimeCanonical(b.mime, env);
  }

  lemma NoReference(env: Env)
    ensures Trim("") && !IsDataURL("", env) && !IsLocalPath("")
  {
  }

  /** What Normalize yields is canonical. */
  lemma NormalizeIsCanonical(b: Bundle, env: Env)
    requires Lowers(env)
    ensures Canonical(Normalize(b, env), env)
  {
    hide TrimSpace, Lowers, Trim, Token, IsMime, IsDataURL, IsLocalPath, Trimmed, NormalizeBase64DataURL,
      MimeFromDataURL, InferNameFromRef, InferredKind, FirstNonEmpty;
    var t := Trimmed(b, env);
    var r := Routed(t, env);
    var p := WithPayload(r, env);
    TrimmedCanonical(b, env);
    NoReference(env);
    if r.base64 != "" {
      PayloadCanonical(r.base64, r.mime, env);
      DataMimeCanonical(p.base64, env);
    }
    NameTrim(FirstNonEmpty([p.path, p.url]), env);
    KindCanonical(InferredKind(WithName(p, env), env), env);
  }

  /** A canonical bundle is left as it is. */
  lemma CanonicalStays(b: Bundle, env: Env)
    requires Lowers(env) && Canonical(b, env)
    ensures Normalize(b, env) == b
  {
    hide TrimSpace, Lowers, IsMime, IsDataURL, IsLocalPath, NormalizeBase64DataURL, MimeFromDataURL,
      InferNameFromRef, InferredKind, FirstNonEmpty, NormalizeMime, Trim, Lower;
    TrimmedIsTrim(b.kind);
    TrimmedIsTrim(b.base64);
    TrimmedIsTrim(b.path);
    TrimmedIsTrim(b.url);
    TrimmedIsTrim(b.platformKey);
    TrimmedIsTrim(b.sourcePlatform);
    TrimmedIsTrim(b.contentHash);
    TrimmedIsTrim(b.name);
    TrimmedIsTrim(b.thumbnailURL);
    TrimmedIsTrim(b.caption);
    MimeCanonical(b.mime, env);
    assert Trimmed(b, env) == b;
    assert Routed(b, env) == b;
    if b.base64 != "" {
      PayloadCanonical(b.base64, b.mime, env);
    }
  }

  /** Normalising is idempotent, and the bundles it leaves alone are exactly the canonical ones. */
  lemma NormalizeIdempotent(b: Bundle, env: Env)
    requires Lowers(env)
    ensures Normalize(Normalize(b, env), env) == Normalize(b, env)
    ensures Canonical(b, env) <==> Normalize(b, env) == b
  {
    hide *;
    NormalizeIsCanonical(b, env);
    CanonicalStays(Normalize(b, env), env);
    if Canonical(b, env) {
      CanonicalStays(b, env);
    }
  }

  /** The extension of what a bundle refers to. */
  function ExtensionOf(b: Bundle, env: Env): string {
    Lower(env.ext(InferNameFromRef(FirstNonEmpty([b.path, b.url, b.name]), env)), env)
  }

  /** The type of a normalised bundle that had none: by its mime type, else by the extension of
      what it refers to unless it holds the data itself. */
  ghost predicate RightKind(n: Bundle, env: Env) {
    var ext := if n.mime == "" && n.base64 == "" then ExtensionOf(n, env) else "";
    && (n.kind == "image" <==>
          HasPrefix(n.mime, "image/") || ext in {".jpg", ".jpeg", ".png", ".gif", ".webp", ".svg"})
    && (n.kind == "audio" <==> HasPrefix(n.mime, "audio/") || ext in {".mp3", ".wav", ".ogg", ".flac", ".aac"})
    && (n.kind == "video" <==> HasPrefix(n.mime, "video/") || ext in {".mp4", ".webm", ".avi", ".mov"})
    && n.kind in {"image", "audio", "video", "file"}
  }

  lemma WordMeans(image: bool, audio: bool, video: bool)
    ensures var kind := KindWord(image, audio, video);
            && (kind == "image" <==> image) && (kind == "audio" <==> !image && audio)
            && (kind == "video" <==> !image && !audio && video)
            && kind in {"image", "audio", "video", "file"}
  {
    assert "image"[0] == 'i' && "audio"[0] == 'a' && "video"[0] == 'v' && "file"[0] == 'f';
  }

  lemma OneFamily(mime: string)
    ensures !(HasPrefix(mime, "image/") && HasPrefix(mime, "audio/"))
    ensures !(HasPrefix(mime, "image/") && HasPrefix(mime, "video/"))
    ensures !(HasPrefix(mime, "audio/") && HasPrefix(mime, "video/"))
  {
    assert "image/"[0] == 'i' && "audio/"[0] == 'a' && "video/"[0] == 'v';
  }

  lemma OneExtension(ext: string)
    ensures !(ext in IMAGES && ext in AUDIOS) && !(ext in IMAGES && ext in VIDEOS) && !(ext in AUDIOS && ext in VIDEOS)
    ensures ext in IMAGES <==> ext in {".jpg", ".jpeg", ".png", ".gif", ".webp", ".svg"}
    ensures ext in AUDIOS <==> ext in {".mp3", ".wav", ".ogg", ".flac", ".aac"}
    ensures ext in VIDEOS <==> ext in {".mp4", ".webm", ".avi", ".mov"}
    ensures "" !in IMAGES && "" !in AUDIOS && "" !in VIDEOS
  {
  }

  /** A type that is inferred is the right one. */
  lemma KindIsRight(b: Bundle, env: Env)
    requires Lowers(env) && Blank(b.kind)
    ensures RightKind(Normalize(b, env), env)
  {
    hide Lowers, Lower, TrimSpace, NormalizeMime, Trimmed, IsDataURL, IsLocalPath, NormalizeBase64DataURL,
      MimeFromDataURL, InferNameFromRef, FirstNonEmpty, KindWord, IsMime, HasPrefix;
    var p := WithName(WithPayload(Routed(Trimmed(b, env), env), env), env);
    var n := Normalize(b, env);
    NoKind(b, env);
    NormalizeIsCanonical(b, env);
    MimeCanonical(n.mime, env);
    assert n == p.(kind := InferredKind(p, env));
    OneFamily(n.mime);
    OneExtension(ExtensionOf(n, env));
    NoFamily();
    if n.mime != "" {
      WordMeans(HasPrefix(n.mime, "image/"), HasPrefix(n.mime, "audio/"), HasPrefix(n.mime, "video/"));
    } else if n.base64 != "" {
      WordMeans(false, false, false);
    } else {
      var ext := ExtensionOf(n, env);
      WordMeans(ext in IMAGES, ext in AUDIOS, ext in VIDEOS);
    }
  }

  /** A name that is inferred is the base name of the path, or of the url if there is no path;
      a mime type that is inferred is that of the data. */
  lemma NameAndMimeAreRight(b: Bundle, env: Env)
    requires Lowers(env)
    ensures var n := Normalize(b, env);
            var ref := if n.path != "" then n.path else n.url;
            && (Blank(b.name) ==>
                  n.name == if ref == "" || IsDataURL(ref, env) then "" else TrimSpace(env.base(ref)))
            && (NormalizeMime(b.mime, env) == "" ==>
                  n.mime == if n.base64 == "" then "" else MimeFromDataURL(n.base64, env))
  {
    hide Lowers, Lower, TrimSpace, NormalizeMime, IsDataURL, IsLocalPath, NormalizeBase64DataURL, Trimmed,
      MimeFromDataURL, InferredKind, InferNameFromRef, FirstNonEmpty, IsMime, HasPrefix, Trim, Token;
    var n, t, r := Normalize(b, env), Trimmed(b, env), Routed(Trimmed(b, env), env);
    NormalizeIsCanonical(b, env);
    TrimmedCanonical(b, env);
    assert t.name == TrimSpace(b.name) && t.mime == NormalizeMime(b.mime, env) by { TrimmedFields(b, env); }
    if r.base64 != "" {
      PayloadCanonical(r.base64, r.mime, env);
    }
    NameFromRef(n.path, n.url, env);
  }

  lemma TrimmedFields(b: Bundle, env: Env)
    ensures Trimmed(b, env).name == TrimSpace(b.name) && Trimmed(b, env).mime == NormalizeMime(b.mime, env)
  {
    hide TrimSpace, NormalizeMime;
  }

  lemma NameFromRef(path: string, url: string, env: Env)
    requires Trim(path) && Trim(url)
    ensures var ref := if path != "" then path else url;
            InferNameFromRef(FirstNonEmpty([path, url]), env)
            == if ref == "" || IsDataURL(ref, env) then "" else TrimSpace(env.base(ref))
  {
    hide TrimSpace, IsDataURL;
    TrimmedIsTrim(path);
    TrimmedIsTrim(url);
    assert [path, url][1..] == [url] && [url][1..] == [];
    assert FirstNonEmpty([url]) == url;
  }

  lemma NoKind(b: Bundle, env: Env)
    requires Blank(b.kind)
    ensures Trimmed(b, env).kind == ""
  {
    hide TrimSpace, NormalizeMime;
    BlankKinds(b.kind, env);
  }

  lemma NoFamily()
    ensures !HasPrefix("", "image/") && !HasPrefix("", "audio/") && !HasPrefix("", "video/")
  {
    OneExtension("");
  }

  /** The payload, path and url that result: a reference moves at most from the url to the
      field for its kind. */
  lemma NormalizeKeepsReferences(b: Bundle, env: Env)
    requires Lowers(env)
    ensures var n, url := Normalize(b, env), TrimSpace(b.url);
            if Blank(b.base64) && IsDataURL(url, env) then
              n.base64 == url && n.path == TrimSpace(b.path) && n.url == ""
            else if Blank(b.path) && IsLocalPath(url) then n.path == url && n.url == ""
            else n.path == TrimSpace(b.path) && n.url == url
    ensures Blank(b.base64) && !IsDataURL(TrimSpace(b.url), env) ==> Normalize(b, env).base64 == ""
    ensures !Blank(b.base64) ==> HasSuffix(Normalize(b, env).base64, TrimSpace(b.base64))
  {
    hide TrimSpace, Lowers, NormalizeMime, IsDataURL, IsLocalPath, NormalizeBase64DataURL, MimeFromDataURL,
      InferNameFromRef, InferredKind, FirstNonEmpty, Lower, HasSuffix, Trim;
    var t := Trimmed(b, env);
    NormalizedReferences(b, env);
    NoReference(env);
    TrimmedIsTrim(b.base64);
    TrimmedIsTrim(b.url);
    if t.base64 != "" {
      PayloadEnds(t.base64, t.mime, env);
    } else if IsDataURL(t.url, env) {
      PayloadCanonical(t.url, t.mime, env);
    }
  }

  lemma NormalizedReferences(b: Bundle, env: Env)
    ensures var n, r := Normalize(b, env), Routed(Trimmed(b, env), env);
            && n.base64 == (if r.base64 == "" then "" else NormalizeBase64DataURL(r.base64, r.mime, env))
            && n.path == r.path && n.url == r.url
  {
    hide Trimmed, Routed, NormalizeBase64DataURL, MimeFromDataURL, InferNameFromRef, InferredKind, FirstNonEmpty;
  }

  /** What was set is not inferred anew, and the other fields are only trimmed. */
  lemma NormalizeKeepsFields(b: Bundle, env: Env)
    ensures var n := Normalize(b, env);
            && (!Blank(b.name) ==> n.name == TrimSpace(b.name))
            && (!Blank(b.kind) ==> n.kind == Lower(TrimSpace(b.kind), env))
            && (NormalizeMime(b.mime, env) != "" ==> n.mime == NormalizeMime(b.mime, env))
            && n.platformKey == TrimSpace(b.platformKey) && n.sourcePlatform == TrimSpace(b.sourcePlatform)
            && n.contentHash == TrimSpace(b.contentHash) && n.thumbnailURL == TrimSpace(b.thumbnailURL)
            && n.caption == TrimSpace(b.caption) && SameData(b, n)
  {
    hide TrimSpace, NormalizeMime, Lower, Routed, WithPayload, WithName, WithKind;
    BlankKinds(b.kind, env);
    var t := Trimmed(b, env);
    RoutedKeeps(t, env);
    PayloadKeeps(Routed(t, env), env);
    NameAndKindKeep(WithPayload(Routed(t, env), env), env);
  }

  /** The fields that no step touches. */
  predicate SameTexts(b: Bundle, b': Bundle) {
    && b'.platformKey == b.platformKey && b'.sourcePlatform == b.sourcePlatform && b'.contentHash == b.contentHash
    && b'.thumbnailURL == b.thumbnailURL && b'.caption == b.caption
  }

  lemma RoutedKeeps(b: Bundle, env: Env)
    ensures var r := Routed(b, env); SameTexts(b, r) && r.name == b.name && r.kind == b.kind && r.mime == b.mime
  {
    hide IsDataURL, IsLocalPath;
  }

  lemma PayloadKeeps(b: Bundle, env: Env)
    ensures var r := WithPayload(b, env); SameTexts(b, r) && r.name == b.name && r.kind == b.kind
    ensures b.mime != "" ==> WithPayload(b, env).mime == b.mime
  {
    hide NormalizeBase64DataURL, MimeFromDataURL;
  }

  lemma NameAndKindKeep(b: Bundle, env: Env)
    ensures var r := WithKind(WithName(b, env), env); SameTexts(b, r) && r.mime == b.mime
    ensures b.name != "" ==> WithKind(WithName(b, env), env).name == b.name
    ensures b.kind != "" ==> WithKind(WithName(b, env), env).kind == b.kind
  {
    hide InferNameFromRef, InferredKind, FirstNonEmpty;
  }

  lemma BlankKinds(kind: string, env: Env)
    ensures Lower(TrimSpace(kind), env) == "" <==> Blank(kind)
  {
    hide TrimSpace;
  }

  lemma PayloadEnds(input: string, mime: string, env: Env)
    requires Trim(input) && input != ""
    ensures HasSuffix(NormalizeBase64DataURL(input, mime, env), input)
  {
    hide TrimSpace, NormalizeMime, IsDataURL;
    TrimmedIsTrim(input);
  }

  // ----- Generic objects -----

  /** Values of generic objects. */
  datatype Any = Str(s: string) | Number(n: int) | Object(entries: Metadata) | Other

  /** The keys a bundle owns. */
  datatype Field =
    | Kind | Base64 | Path | Url | PlatformKey | SourcePlatform | ContentHash | Name | Mime
    | Size | DurationMs | Width | Height | ThumbnailURL | Caption | Meta

  datatype ItemKey = Owned(field: Field) | Foreign(key: string)

  type Item = map<ItemKey, Any>

  function StringValue(item: Item, f: Field): string {
    if Owned(f) in item && item[Owned(f)].Str? then TrimSpace(item[Owned(f)].s) else ""
  }

  function Int64Value(item: Item, f: Field): int {
    if Owned(f) in item && item[Owned(f)].Number? then item[Owned(f)].n else 0
  }

  function Copied(m: Metadata, env: Env): Metadata {
    if m == map[] then map[] else env.copy(m)
  }

  function MetadataValue(item: Item, env: Env): Metadata {
    if Owned(Meta) in item && item[Owned(Meta)].Object? then Copied(item[Owned(Meta)].entries, env) else map[]
  }

  /** bundleFieldsFromMap */
  function Fields(item: Item, env: Env): Bundle {
    Bundle(StringValue(item, Kind), StringValue(item, Base64), StringValue(item, Path), StringValue(item, Url),
           StringValue(item, PlatformKey), StringValue(item, SourcePlatform), StringValue(item, ContentHash),
           StringValue(item, Name), StringValue(item, Mime), Int64Value(item, Size), Int64Value(item, DurationMs),
           Int64Value(item, Width), Int64Value(item, Height), StringValue(item, ThumbnailURL),
           StringValue(item, Caption), MetadataValue(item, env))
  }

  function BundleFromMap(item: Item, env: Env): Bundle {
    Normalize(Fields(item, env), env)
  }

  /** The value a bundle has for a field, as it would be stored. */
  function ValueOf(b: Bundle, f: Field, env: Env): Any {
    match f
    case Kind => Str(b.kind)
    case Base64 => Str(b.base64)
    case Path => Str(b.path)
    case Url => Str(b.url)
    case PlatformKey => Str(b.platformKey)
    case SourcePlatform => Str(b.sourcePlatform)
    case ContentHash => Str(b.contentHash)
    case Name => Str(b.name)
    case Mime => Str(b.mime)
    case Size => Number(b.size)
    case DurationMs => Number(b.durationMs)
    case Width => Number(b.width)
    case Height => Number(b.height)
    case ThumbnailURL => Str(b.thumbnailURL)
    case Caption => Str(b.caption)
    case Meta => Object(Copied(b.metadata, env))
  }

  /** Empty strings, numbers that are not positive and empty metadata are not stored. */
  predicate Stored(b: Bundle, f: Field, env: Env) {
    match ValueOf(b, f, env)
    case Str(s) => s != ""
    case Number(n) => n > 0
    case _ => b.metadata != map[]
  }

  /** The order in which the fields are stored. */
  function Index(f: Field): nat {
    match f
    case Kind => 0
    case Base64 => 1
    case Path => 2
    case Url => 3
    case PlatformKey => 4
    case SourcePlatform => 5
    case ContentHash => 6
    case Name => 7
    case Mime => 8
    case Size => 9
    case DurationMs => 10
    case Width => 11
    case Height => 12
    case ThumbnailURL => 13
    case Caption => 14
    case Meta => 15
  }

  lemma IndexIsUnique(f: Field, g: Field)
    requires Index(f) == Index(g)
    ensures f == g
  {
  }

  /** The entries of a bundle as it is. */
  function Entries(b: Bundle, env: Env): Item {
    map f: Field | Stored(b, f, env) :: Owned(f) := ValueOf(b, f, env)
  }

  /** Those of the first n fields. */
  function FirstEntries(b: Bundle, n: nat, env: Env): Item {
    Among(b, (set f | Index(f) < n), env)
  }

  function Among(b: Bundle, fields: set<Field>, env: Env): Item {
    map f | f in fields && Stored(b, f, env) :: Owned(f) := ValueOf(b, f, env)
  }

  method Add(b: Bundle, item: Item, f: Field, ghost n: nat, env: Env) returns (item': Item)
    requires Index(f) == n && item == FirstEntries(b, n, env)
    ensures item' == FirstEntries(b, n + 1, env)
  {
    item' := item;
    if Stored(b, f, env) {
      item' := item[Owned(f) := ValueOf(b, f, env)];
    }
    OneMore(b, f, n, env);
  }

  lemma NextIndex(f: Field, n: nat)
    requires Index(f) == n
    ensures forall g :: Index(g) < n + 1 <==> Index(g) < n || g == f
  {
    forall g | Index(g) == n
      ensures g == f
    {
      IndexIsUnique(f, g);
    }
  }

  lemma OneMore(b: Bundle, f: Field, n: nat, env: Env)
    requires Index(f) == n
    ensures FirstEntries(b, n + 1, env) ==
              if Stored(b, f, env) then FirstEntries(b, n, env)[Owned(f) := ValueOf(b, f, env)]
              else FirstEntries(b, n, env)
  {
    hide Stored, ValueOf, Index, Among;
    NextIndex(f, n);
    assert (set g | Index(g) < n + 1) == (set g | Index(g) < n) + {f};
    AmongMore(b, (set g | Index(g) < n), f, env);
  }

  lemma AmongMore(b: Bundle, fields: set<Field>, f: Field, env: Env)
    ensures Among(b, fields + {f}, env) ==
              if Stored(b, f, env) then Among(b, fields, env)[Owned(f) := ValueOf(b, f, env)] else Among(b, fields, env)
  {
    hide Stored, ValueOf;
  }

  /** ToMap: the fields of the normalised bundle, one after the other. */
  method ToMap(b: Bundle, env: Env) returns (item: Item)
    ensures item == Entries(Normalize(b, env), env)
  {
    hide *;
    Indices();
    var n := Normalize(b, env);
    item := map[];
    FirstAndAll(n, env);
    item := Add(n, item, Kind, 0, env);
    item := Add(n, item, Base64, 1, env);
    item := Add(n, item, Path, 2, env);
    item := Add(n, item, Url, 3, env);
    item := Add(n, item, PlatformKey, 4, env);
    item := Add(n, item, SourcePlatform, 5, env);
    item := Add(n, item, ContentHash, 6, env);
    item := Add(n, item, Name, 7, env);
    item := Add(n, item, Mime, 8, env);
    item := Add(n, item, Size, 9, env);
    item := Add(n, item, DurationMs, 10, env);
    item := Add(n, item, Width, 11, env);
    item := Add(n, item, Height, 12, env);
    item := Add(n, item, ThumbnailURL, 13, env);
    item := Add(n, item, Caption, 14, env);
    item := Add(n, item, Meta, 15, env);
  }

  lemma Indices()
    ensures Index(Kind) == 0 &&
            Index(Base64) == 1 &&
            Index(Path) == 2 &&
            Index(Url) == 3 &&
            Index(PlatformKey) == 4 &&
            Index(SourcePlatform) == 5 &&
            Index(ContentHash) == 6 &&
            Index(Name) == 7 &&
            Index(Mime) == 8 &&
            Index(Size) == 9 &&
            Index(DurationMs) == 10 &&
            Index(Width) == 11 &&
            Index(Height) == 12 &&
            Index(ThumbnailURL) == 13 &&
            Index(Caption) == 14 &&
            Index(Meta) == 15
  {
  }

  lemma FirstAndAll(b: Bundle, env: Env)
    ensures FirstEntries(b, 0, env) == map[] && FirstEntries(b, 16, env) == Entries(b, env)
  {
    hide Stored, ValueOf;
  }

  // ----- Reading back what was stored -----

  lemma StringBack(b: Bundle, f: Field, s: string, env: Env)
    requires ValueOf(b, f, env) == Str(s) && Trim(s)
    ensures StringValue(Entries(b, env), f) == s
  {
    hide TrimSpace, Trim;
    TrimmedIsTrim(s);
  }

  lemma NumberBack(b: Bundle, f: Field, n: int, env: Env)
    requires ValueOf(b, f, env) == Number(n)
    ensures Int64Value(Entries(b, env), f) == NotNegative(n)
  {
  }

  lemma MetadataBack(b: Bundle, env: Env)
    ensures MetadataValue(Entries(b, env), env) == Copied(Copied(b.metadata, env), env)
  {
    hide Copied;
    assert Stored(b, Meta, env) <==> b.metadata != map[];
    NothingToCopy(env);
  }

  lemma NothingToCopy(env: Env)
    ensures Copied(map[], env) == map[]
  {
  }

  function NotNegative(n: int): int {
    if n > 0 then n else 0
  }

  /** Every string of a canonical bundle reads back. */
  lemma StringsBack(b: Bundle, env: Env)
    requires Canonical(b, env)
    ensures var e := Entries(b, env);
            && StringValue(e, Kind) == b.kind && StringValue(e, Base64) == b.base64 && StringValue(e, Path) == b.path
            && StringValue(e, Url) == b.url && StringValue(e, PlatformKey) == b.platformKey
            && StringValue(e, SourcePlatform) == b.sourcePlatform && StringValue(e, ContentHash) == b.contentHash
            && StringValue(e, Name) == b.name && StringValue(e, Mime) == b.mime
            && StringValue(e, ThumbnailURL) == b.thumbnailURL && StringValue(e, Caption) == b.caption
  {
    hide Entries, StringValue, Trim, IsMime, TrimSpace, IsDataURL, IsLocalPath, MimeFromDataURL, InferNameFromRef,
      FirstNonEmpty, Lower;
    MimeTrim(b.mime, env);
    StringBack(b, Kind, b.kind, env);
    StringBack(b, Base64, b.base64, env);
    StringBack(b, Path, b.path, env);
    StringBack(b, Url, b.url, env);
    StringBack(b, PlatformKey, b.platformKey, env);
    StringBack(b, SourcePlatform, b.sourcePlatform, env);
    StringBack(b, ContentHash, b.contentHash, env);
    StringBack(b, Name, b.name, env);
    StringBack(b, Mime, b.mime, env);
    StringBack(b, ThumbnailURL, b.thumbnailURL, env);
    StringBack(b, Caption, b.caption, env);
  }

  /** What a canonical bundle reads back as. */
  lemma FieldsBack(b: Bundle, env: Env)
    requires Canonical(b, env)
    ensures Fields(Entries(b, env), env) ==
              b.(size := NotNegative(b.size), durationMs := NotNegative(b.durationMs), width := NotNegative(b.width),
                 height := NotNegative(b.height), metadata := Copied(Copied(b.metadata, env), env))
  {
    hide Canonical, Entries, StringValue, Int64Value, MetadataValue, Copied, NotNegative;
    StringsBack(b, env);
    NumberBack(b, Size, b.size, env);
    NumberBack(b, DurationMs, b.durationMs, env);
    NumberBack(b, Width, b.width, env);
    NumberBack(b, Height, b.height, env);
    MetadataBack(b, env);
  }

  lemma MimeTrim(mime: string, env: Env)
    requires IsMime(mime, env)
    ensures Trim(mime)
  {
  }

  lemma CanonicalNumbers(b: Bundle, b': Bundle, env: Env)
    requires Canonical(b, env)
    requires b' == b.(size := b'.size, durationMs := b'.durationMs, width := b'.width, height := b'.height,
                      metadata := b'.metadata)
    ensures Canonical(b', env)
  {
  }

  /** Copying the metadata on the way in and on the way out brings it back; no metadata is not
      stored at all. */
  predicate CopiesBack(m: Metadata, env: Env) {
    m != map[] ==> env.copy(m) != map[] && env.copy(env.copy(m)) == m
  }

  /** Storing a bundle and reading it back yields its normal form exactly if no number is
      negative and copying the metadata twice brings it back. */
  lemma RoundTrip(b: Bundle, env: Env)
    requires Lowers(env)
    ensures BundleFromMap(Entries(Normalize(b, env), env), env) == Normalize(b, env) <==>
              b.size >= 0 && b.durationMs >= 0 && b.width >= 0 && b.height >= 0
              && CopiesBack(b.metadata, env)
  {
    hide Canonical, Entries, Fields, Lowers, Normalize;
    var n := Normalize(b, env);
    NormalizeIsCanonical(b, env);
    FieldsBack(n, env);
    CanonicalNumbers(n, Fields(Entries(n, env), env), env);
    CanonicalStays(Fields(Entries(n, env), env), env);
  }

  // ----- Merging into an object -----

  /** The keys a merge deletes first. */
  const OWNED := [
    Base64, Path, Url, PlatformKey, SourcePlatform, ContentHash, Name, Mime,
    Size, DurationMs, Width, Height, ThumbnailURL, Caption, Meta, Kind]

  lemma AllOwned()
    ensures forall f :: f in OWNED
  {
    forall f
      ensures f in OWNED
    {
      assert OWNED[if f.Kind? then 15 else Index(f) - 1] == f;
    }
  }

  class JsonObject {
    var item: Item

    constructor (item: Item)
      ensures this.item == item
    {
      this.item := item;
    }

    /** MergeIntoMap: the fields that the bundle owns are replaced, all others kept. */
    method MergeIntoMap(b: Bundle, env: Env)
      requires Lowers(env)
      modifies this
      ensures item == Merged(old(item), b, env)
    {
      hide Entries, Normalize, Lowers;
      var n := Normalize(b, env);
      for i := 0 to |OWNED|
        invariant item == map k | k in old(item) && (k.Owned? ==> k.field !in OWNED[..i]) :: old(item)[k]
      {
        item := item - {Owned(OWNED[i])};
      }
      assert OWNED[..|OWNED|] == OWNED;
      AllOwned();
      var own := ToMap(n, env);
      NormalizeIdempotent(b, env);
      item := item + own;
    }
  }

  function Merged(item: Item, b: Bundle, env: Env): Item {
    (map k | k in item && k.Foreign? :: item[k]) + Entries(Normalize(b, env), env)
  }

  /** A merged object keeps every key the bundle does not own, its owned keys are those of the
      stored bundle, and it reads back as what was stored; merging again changes nothing. */
  lemma MergeIsExact(item: Item, b: Bundle, env: Env)
    ensures var m := Merged(item, b, env);
            && (forall k :: Foreign(k) in m <==> Foreign(k) in item)
            && (forall k :: Foreign(k) in item ==> m[Foreign(k)] == item[Foreign(k)])
            && (forall f :: Owned(f) in m <==> Owned(f) in Entries(Normalize(b, env), env))
            && (forall f :: Owned(f) in m ==> m[Owned(f)] == Entries(Normalize(b, env), env)[Owned(f)])
            && BundleFromMap(m, env) == BundleFromMap(Entries(Normalize(b, env), env), env)
            && Merged(m, b, env) == m
  {
    hide Normalize, Stored, ValueOf, TrimSpace, Copied, Fields;
    OwnedMatter(Merged(item, b, env), Entries(Normalize(b, env), env), env);
  }

  /** Reading looks at the owned keys only. */
  lemma OwnedMatter(m: Item, e: Item, env: Env)
    requires forall f :: Owned(f) in m <==> Owned(f) in e
    requires forall f :: Owned(f) in m ==> m[Owned(f)] == e[Owned(f)]
    ensures Fields(m, env) == Fields(e, env)
  {
    hide TrimSpace, Copied;
    forall f
      ensures StringValue(m, f) == StringValue(e, f) && Int64Value(m, f) == Int64Value(e, f)
    {
    }
  }
}
