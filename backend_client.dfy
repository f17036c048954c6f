/**
 * The GUI's HTTP client for the inspection backend, without the transport:
 * the base-address setter, the role id sent with every request, the media
 * type of an uploaded image, the multipart fields of a fit request, the
 * reply fallbacks and the decisions taken on status codes and error
 * details.
 */
module BackendClient {
  import opened Wrappers
  import opened Text

  // ---- Role ids ----

  /** Ordinal-ignore-case substring test (IndexOf(p, OrdinalIgnoreCase) >= 0). */
  predicate ContainsIgnoreCase(s: string, p: string)
  {
    Contains(Lower(s), Lower(p))
  }

  /** The role an ROI id names: an inspection prefix, else master1 or master2 anywhere, in any case. */
  function RoleFromRoiId(roiId: Option<string>): (r: Option<string>)
    ensures r.Some? ==> r.value == "Inspection" || r.value == "Master1" || r.value == "Master2"
    ensures roiId.None? || IsBlank(roiId.value) ==> r.None?
    ensures roiId.Some? && !IsBlank(roiId.value) && StartsWithIgnoreCase(Trim(roiId.value), "inspection") ==>
              r == Some("Inspection")
  {
    if roiId.None? || IsBlank(roiId.value) then None
    else
      var trimmed := Trim(roiId.value);
      if StartsWithIgnoreCase(trimmed, "inspection") then Some("Inspection")
      else if ContainsIgnoreCase(trimmed, "master1") then Some("Master1")
      else if ContainsIgnoreCase(trimmed, "master2") then Some("Master2")
      else None
  }

  lemma RoleNamesNotBlank()
    ensures !IsBlank("Inspection") && !IsBlank("Master1") && !IsBlank("Master2")
  {
    assert !IsWhiteSpace("Inspection"[0]);
    assert !IsWhiteSpace("Master1"[0]);
    assert !IsWhiteSpace("Master2"[0]);
  }

  /**
   * NormalizeRoleId: the role is taken from the ROI id when it names one,
   * else the role id given, else Inspection; the result is never blank.
   */
  function NormalizeRoleId(roleId: string, roiId: Option<string>): (r: string)
    ensures !IsBlank(r)
    ensures r == "Inspection" || r == "Master1" || r == "Master2" || r == roleId
    ensures RoleFromRoiId(roiId).Some? ==> r == RoleFromRoiId(roiId).value
    ensures RoleFromRoiId(roiId).None? ==> r == (if IsBlank(roleId) then "Inspection" else roleId)
  {
    RoleNamesNotBlank();
    var fromRoi := RoleFromRoiId(roiId);
    if fromRoi.Some? then fromRoi.value
    else if !IsBlank(roleId) then roleId
    else "Inspection"
  }

  /** Lower-casing a string gives `t` when it does so character by character. */
  lemma LowerIs(s: string, t: string)
    requires |s| == |t| && forall i :: 0 <= i < |s| ==> LowerChar(s[i]) == t[i]
    ensures Lower(s) == t
  {
  }

  lemma LowerConcat(a: string, b: string)
    ensures Lower(a + b) == Lower(a) + Lower(b)
  {
  }

  /** A string contains every string that occurs inside it. */
  lemma {:induction false} ContainsInfix(a: string, p: string, b: string)
    ensures Contains(a + p + b, p)
    decreases |a|
  {
    if a == [] {
      assert (a + p + b)[..|p|] == p;
    } else {
      assert (a + p + b)[1..] == a[1..] + p + b;
      ContainsInfix(a[1..], p, b);
    }
  }

  /** The case-folded form of a string contains the case-folded form of each of its infixes. */
  lemma ContainsIgnoreCaseInfix(a: string, p: string, b: string)
    ensures ContainsIgnoreCase(a + p + b, p)
  {
    LowerConcat(a + p, b);
    LowerConcat(a, p);
    ContainsInfix(Lower(a), Lower(p), Lower(b));
  }

  /** Any id that mentions master1 (in any case) but is not an inspection id is sent with role Master1. */
  lemma MasterOneIdsNormalize(roleId: string, a: string, b: string)
    requires !StartsWithIgnoreCase(Trim(a + "Master1" + b), "inspection")
    requires a + "Master1" + b == Trim(a + "Master1" + b)
    ensures NormalizeRoleId(roleId, Some(a + "Master1" + b)) == "Master1"
  {
    var s := a + "Master1" + b;
    MentionsMasterOne(a, b);
    MasterOneRole(s);
  }

  /** An id with "Master1" inside is not blank and mentions master1 in any case. */
  lemma MentionsMasterOne(a: string, b: string)
    ensures !IsBlank(a + "Master1" + b)
    ensures ContainsIgnoreCase(a + "Master1" + b, "master1")
  {
    var s := a + "Master1" + b;
    assert s[|a|] == 'M';
    assert !IsWhiteSpace(s[|a|]);
    ContainsIgnoreCaseInfix(a, "Master1", b);
    MasterOneFolds();
  }

  /** A trimmed, non-blank id that mentions master1 and is not an inspection id names Master1. */
  lemma MasterOneRole(s: string)
    requires s == Trim(s) && !IsBlank(s)
    requires !StartsWithIgnoreCase(s, "inspection") && ContainsIgnoreCase(s, "master1")
    ensures RoleFromRoiId(Some(s)) == Some("Master1")
  {
  }

  /** "Master1" and "master1" fold to the same text. */
  lemma MasterOneFolds()
    ensures Lower("Master1") == Lower("master1")
  {
    LowerIs("Master1", "master1");
    LowerIs("master1", "master1");
  }

  // ---- Media types ----

  predicate IsPathSeparator(c: char) { c == '/' || c == '\\' || c == ':' }

  /** The extension of the name after `p`, whose later characters are `tail` (no dot, no separator). */
  function ExtensionOf(p: string, tail: string): (r: string)
    ensures r == [] || (r[0] == '.' && |r| >= 2)
  {
    if p == [] then ""
    else
      var c := p[|p| - 1];
      if c == '.' then (if tail == [] then "" else "." + tail)
      else if IsPathSeparator(c) then ""
      else ExtensionOf(p[..|p| - 1], [c] + tail)
  }

  /** Path.GetExtension: the text from the last dot of the file name, or empty when there is none or it ends the name. */
  function Extension(path: string): (r: string)
    ensures r == [] || (r[0] == '.' && |r| >= 2)
  {
    ExtensionOf(path, [])
  }

  predicate PlainExtensionText(x: string)
  {
    forall i :: 0 <= i < |x| ==> x[i] != '.' && !IsPathSeparator(x[i])
  }

  lemma {:induction false} ExtensionOfPlainSuffix(p: string, x: string, tail: string)
    requires PlainExtensionText(x)
    ensures ExtensionOf(p + x, tail) == ExtensionOf(p, x + tail)
    decreases |x|
  {
    if x == [] {
      assert p + x == p && x + tail == tail;
    } else {
      var c := x[|x| - 1];
      assert (p + x)[..|p + x| - 1] == p + x[..|x| - 1];
      assert x[..|x| - 1] + ([c] + tail) == x + tail;
      ExtensionOfPlainSuffix(p, x[..|x| - 1], [c] + tail);
    }
  }

  /** Whatever the directory and base name, the extension is the text after the final dot. */
  lemma ExtensionOfName(stem: string, x: string)
    requires x != [] && PlainExtensionText(x)
    ensures Extension(stem + "." + x) == "." + x
  {
    ExtensionOfPlainSuffix(stem + ".", x, []);
    assert x + [] == x;
  }

  /** The media type of a lower-cased extension. */
  function MediaTypeOfExtension(ext: string): (r: string)
    ensures r in {"image/png", "image/jpeg", "image/bmp", "image/tiff", "application/octet-stream"}
  {
    if ext == ".png" then "image/png"
    else if ext == ".jpg" || ext == ".jpeg" then "image/jpeg"
    else if ext == ".bmp" then "image/bmp"
    else if ext == ".tif" || ext == ".tiff" then "image/tiff"
    else "application/octet-stream"
  }

  /** GuessMediaType: the image type of a known extension, in any case, else application/octet-stream. */
  function GuessMediaType(pathOrName: string): (r: string)
    ensures r in {"image/png", "image/jpeg", "image/bmp", "image/tiff", "application/octet-stream"}
  {
    MediaTypeOfExtension(Lower(Extension(pathOrName)))
  }

  /** The media type depends only on the extension, not on the directory or the base name. */
  lemma MediaTypeIgnoresStem(stem: string, x: string)
    requires x != [] && PlainExtensionText(x)
    ensures GuessMediaType(stem + "." + x) == MediaTypeOfExtension(Lower("." + x))
  {
    ExtensionOfName(stem, x);
  }

  /** Upper-case extensions are recognised: any *.PNG file is uploaded as image/png. */
  lemma MediaTypeOfUpperCasePng(stem: string)
    ensures GuessMediaType(stem + ".PNG") == "image/png"
  {
    ExtensionOfName(stem, "PNG");
    assert stem + ".PNG" == stem + "." + "PNG";
    LowerIs(".PNG", ".png");
  }

  /** A name without an extension is uploaded as an opaque byte stream. */
  lemma MediaTypeWithoutExtension(stem: string)
    ensures GuessMediaType(stem + ".") == "application/octet-stream"
  {
    assert (stem + ".")[|stem + "."| - 1] == '.';
  }

  /** The media type of the inference upload: never the opaque type, PNG in its place. */
  function InferMediaType(fileName: string): (r: string)
    ensures r in {"image/png", "image/jpeg", "image/bmp", "image/tiff"}
    ensures GuessMediaType(fileName) != "application/octet-stream" ==> r == GuessMediaType(fileName)
  {
    var m := GuessMediaType(fileName);
    if m == "application/octet-stream" then "image/png" else m
  }

  /** The file name sent with the inference upload. */
  function InferFileName(fileName: string): (r: string)
    ensures !IsBlank(r)
    ensures !IsBlank(fileName) ==> r == fileName
  {
    if IsBlank(fileName) then (assert !IsWhiteSpace("roi.png"[0]); "roi.png") else fileName
  }

  // ---- Fit requests ----

  /** A training image: its bytes, a non-blank file name and an optional explicit media type. */
  datatype FitImage = FitImage(bytes: seq<bv8>, fileName: string, mediaType: Option<string>)
  {
    predicate HasContent() { |bytes| > 0 }
  }

  /** new FitImage(...): a blank file name becomes sample.png and a blank media type is dropped. */
  function MakeFitImage(bytes: Option<seq<bv8>>, fileName: string, mediaType: Option<string>): (r: FitImage)
    ensures !IsBlank(r.fileName)
    ensures r.bytes == (if bytes.Some? then bytes.value else [])
    ensures !IsBlank(fileName) ==> r.fileName == fileName
    ensures r.mediaType.Some? <==> mediaType.Some? && !IsBlank(mediaType.value)
    ensures r.mediaType.Some? ==> r.mediaType == mediaType
  {
    var name := if IsBlank(fileName) then (assert !IsWhiteSpace("sample.png"[0]); "sample.png") else fileName;
    var media := if mediaType.None? || IsBlank(mediaType.value) then None else mediaType;
    FitImage(if bytes.Some? then bytes.value else [], name, media)
  }

  /** One "images" part of the multipart fit request. */
  datatype ImagePart = ImagePart(bytes: seq<bv8>, fileName: string, mediaType: string)

  /** The part an image contributes: its own media type if it has one, else the guessed type. */
  function PartOf(image: FitImage): ImagePart
  {
    ImagePart(image.bytes, image.fileName,
              if image.mediaType.Some? && !IsBlank(image.mediaType.value) then image.mediaType.value
              else GuessMediaType(image.fileName))
  }

  /** Some image of the list has content. */
  predicate HasAnyContent(images: seq<FitImage>)
  {
    images != [] && (HasAnyContent(images[..|images| - 1]) || images[|images| - 1].HasContent())
  }

  lemma {:induction false} HasAnyContentIff(images: seq<FitImage>)
    ensures HasAnyContent(images) <==> exists i :: 0 <= i < |images| && images[i].HasContent()
  {
    if images != [] {
      var init := images[..|images| - 1];
      HasAnyContentIff(init);
      if exists i :: 0 <= i < |init| && init[i].HasContent() {
        var i :| 0 <= i < |init| && init[i].HasContent();
        assert images[i] == init[i];
      }
      if exists i :: 0 <= i < |images| && images[i].HasContent() {
        var i :| 0 <= i < |images| && images[i].HasContent();
        if i < |init| {
          assert init[i] == images[i];
        }
      }
    }
  }

  /** The parts of a fit request: one per image with content, in order. */
  function ImageParts(images: seq<FitImage>): (r: seq<ImagePart>)
    ensures |r| <= |images|
    ensures r == [] <==> !HasAnyContent(images)
  {
    if images == [] then []
    else ImageParts(images[..|images| - 1])
         + (if images[|images| - 1].HasContent() then [PartOf(images[|images| - 1])] else [])
  }

  /** The text fields and image parts of a fit_ok request. */
  datatype FitForm = FitForm(roleId: string, roiId: string, memoryFit: bool, images: seq<ImagePart>)

  datatype FitError = RoleIdRequired | RoiIdRequired | NoOkImages

  /**
   * The image loop of FitOkAsync: each image with content becomes a part,
   * and the flag records whether any did.
   */
  method CollectImageParts(okImages: seq<FitImage>) returns (parts: seq<ImagePart>, hasImage: bool)
    ensures parts == ImageParts(okImages)
    ensures hasImage == HasAnyContent(okImages)
  {
    parts := [];
    hasImage := false;
    for n := 0 to |okImages|
      invariant parts == ImageParts(okImages[..n])
      invariant hasImage == HasAnyContent(okImages[..n])
    {
      assert okImages[..n + 1][..n] == okImages[..n];
      var image := okImages[n];
      if !image.HasContent() {
        continue;
      }
      parts := parts + [PartOf(image)];
      hasImage := true;
    }
    assert okImages[..|okImages|] == okImages;
  }

  /**
   * The request FitOkAsync sends, or the argument error it throws first:
   * blank role id, blank ROI id, or no image with content.
   */
  method BuildFitForm(roleId: string, roiId: string, okImages: seq<FitImage>, memoryFit: bool)
    returns (r: Result<FitForm, FitError>)
    ensures IsBlank(roleId) ==> r == Failure(RoleIdRequired)
    ensures !IsBlank(roleId) && IsBlank(roiId) ==> r == Failure(RoiIdRequired)
    ensures !IsBlank(roleId) && !IsBlank(roiId) ==>
              if !HasAnyContent(okImages) then r == Failure(NoOkImages)
              else r == Success(FitForm(NormalizeRoleId(roleId, Some(roiId)), roiId, memoryFit, ImageParts(okImages)))
  {
    if IsBlank(roleId) {
      return Failure(RoleIdRequired);
    }
    if IsBlank(roiId) {
      return Failure(RoiIdRequired);
    }
    var effectiveRoleId := NormalizeRoleId(roleId, Some(roiId));
    var parts, hasImage := CollectImageParts(okImages);
    if !hasImage {
      return Failure(NoOkImages);
    }
    return Success(FitForm(effectiveRoleId, roiId, memoryFit, parts));
  }

  // ---- Replies and status codes ----

  /** The reply of calibrate_ng or infer, reduced to its threshold field. */
  datatype ThresholdReply = ThresholdReply(threshold: Option<real>)

  /** `payload.threshold ??= 0.5`: a missing threshold becomes 0.5, a present one is kept. */
  function WithThresholdFallback(reply: ThresholdReply): (r: ThresholdReply)
    ensures r.threshold.Some?
    ensures reply.threshold.Some? ==> r == reply
    ensures reply.threshold.None? ==> r.threshold == Some(0.5)
  {
    if reply.threshold.None? then ThresholdReply(Some(0.5)) else reply
  }

  /**
   * SupportsEndpointAsync on the status of an OPTIONS request (None when
   * the request failed): only 404 and a failed request report the endpoint
   * as missing.
   */
  function SupportsEndpoint(status: Option<int>): (r: bool)
    ensures r <==> status.Some? && status.value != 404
  {
    if status.None? then false
    else if status.value == 404 then false
    else if status.value == 405 then true
    else if 200 <= status.value < 400 then true
    else status.value != 404
  }

  /** The wordings of an unfitted memory, looked for in the lower-cased detail. */
  predicate MentionsUnfittedMemory(lowered: string)
  {
    Contains(lowered, "memory not fitted")
    || (Contains(lowered, "memoria") && Contains(lowered, "no") && Contains(lowered, "prepar"))
    || (Contains(lowered, "baseline") && Contains(lowered, "missing"))
    || (Contains(lowered, "memory") && Contains(lowered, "not") && Contains(lowered, "loaded"))
  }

  /** IsMemoryNotFitted: the 400 detail says the model's memory is not fitted (English or Spanish wording). */
  predicate IsMemoryNotFitted(detail: Option<string>)
  {
    detail.Some? && !IsBlank(detail.value) && MentionsUnfittedMemory(Lower(detail.value))
  }

  /**
   * The backend's message is recognised in any letter case and inside any
   * text: every spelling whose lower case is "memory not fitted" counts.
   */
  lemma MemoryNotFittedDetected(a: string, p: string, b: string)
    requires Lower(p) == "memory not fitted"
    ensures IsMemoryNotFitted(Some(a + p + b))
  {
    var s := a + p + b;
    assert LowerChar(p[0]) == 'm';
    assert s[|a|] == p[0];
    assert !IsBlank(s) by { assert !IsWhiteSpace(s[|a|]); }
    ContainsIgnoreCaseInfix(a, p, b);
  }

  /** A missing or blank detail is never taken for an unfitted memory. */
  lemma BlankDetailIsNotMemoryNotFitted(detail: Option<string>)
    requires detail.None? || IsBlank(detail.value)
    ensures !IsMemoryNotFitted(detail)
  {
  }

  /**
   * EnsureFittedAsync: true when the state query says fitted; otherwise a
   * fit is tried with the provider's samples (None when there is no
   * provider or it failed) and succeeds when they form a valid request
   * that the backend accepts.
   */
  function EnsureFitted(roleId: string, roiId: string, fittedState: Option<bool>,
                        samples: Option<seq<FitImage>>, backendAccepts: bool): (r: bool)
    ensures fittedState == Some(true) ==> r
    ensures fittedState != Some(true) && (samples.None? || |samples.value| == 0) ==> !r
    ensures r ==> fittedState == Some(true) || (samples.Some? && exists i :: 0 <= i < |samples.value| && samples.value[i].HasContent())
    ensures r <==> fittedState == Some(true)
                   || (samples.Some? && !IsBlank(roleId) && !IsBlank(roiId) && backendAccepts
                       && exists i :: 0 <= i < |samples.value| && samples.value[i].HasContent())
  {
    if fittedState == Some(true) then true
    else if samples.None? || |samples.value| == 0 then false
    else
      HasAnyContentIff(samples.value);
      !IsBlank(roleId) && !IsBlank(roiId) && HasAnyContent(samples.value) && backendAccepts
  }

  // ---- The client ----

  /** The first environment variable of the list that is set (the `??` chain). */
  function FirstSet(env: map<string, string>, names: seq<string>): (r: Option<string>)
    ensures r.Some? ==> exists i :: 0 <= i < |names| && names[i] in env && env[names[i]] == r.value
                                    && forall j :: 0 <= j < i ==> names[j] !in env
    ensures r.None? ==> forall i :: 0 <= i < |names| ==> names[i] !in env
  {
    if names == [] then None
    else if names[0] in env then Some(env[names[0]])
    else
      var rest := FirstSet(env, names[1..]);
      assert forall i :: 1 <= i < |names| ==> names[i] == names[1..][i - 1];
      rest
  }

  /** The variables read for the whole URL, for the host and for the port, in the order tried. */
  const BaseUrlVariables: seq<string> := ["BDI_BACKEND_BASEURL", "BDI_BACKEND_BASE_URL", "BDI_BACKEND_URL",
                                          "BRAKEDISC_BACKEND_BASEURL", "BRAKEDISC_BACKEND_BASE_URL", "BRAKEDISC_BACKEND_URL"]
  const HostVariables: seq<string> := ["BDI_BACKEND_HOST", "BRAKEDISC_BACKEND_HOST", "HOST"]
  const PortVariables: seq<string> := ["BDI_BACKEND_PORT", "BRAKEDISC_BACKEND_PORT", "PORT"]

  /** A value that is neither null nor white space (!string.IsNullOrWhiteSpace). */
  predicate IsGiven(v: Option<string>)
  {
    v.Some? && !IsBlank(v.value)
  }

  /** The trimmed value when it is given, else the default. */
  function GivenOr(v: Option<string>, default: string): (r: string)
    ensures IsGiven(v) ==> r == Trim(v.value) && !IsBlank(r)
    ensures !IsGiven(v) ==> r == default
  {
    if IsGiven(v) then Trim(v.value) else default
  }

  /**
   * ResolveDefaultBaseUrl over a snapshot of the environment: a set URL
   * variable, else host:port when either is set (defaults 127.0.0.1 and
   * 8000), else http://127.0.0.1:8000. The result is never blank.
   */
  function ResolveDefaultBaseUrl(env: map<string, string>): (r: string)
    ensures !IsBlank(r)
    ensures var url := FirstSet(env, BaseUrlVariables);
            url.Some? && !IsBlank(url.value) ==> r == url.value
    ensures var host, port := FirstSet(env, HostVariables), FirstSet(env, PortVariables);
            !IsGiven(FirstSet(env, BaseUrlVariables)) && (IsGiven(host) || IsGiven(port)) ==>
              r == GivenOr(host, "127.0.0.1") + ":" + GivenOr(port, "8000")
    ensures !IsGiven(FirstSet(env, BaseUrlVariables)) && !IsGiven(FirstSet(env, HostVariables))
            && !IsGiven(FirstSet(env, PortVariables)) ==>
              r == "http://127.0.0.1:8000"
  {
    var url := FirstSet(env, BaseUrlVariables);
    if IsGiven(url) then url.value
    else
      var host := FirstSet(env, HostVariables);
      var port := FirstSet(env, PortVariables);
      if IsGiven(host) || IsGiven(port) then
        var h := GivenOr(host, "127.0.0.1");
        var s := h + ":" + GivenOr(port, "8000");
        assert s[|h|] == ':';
        assert !IsWhiteSpace(s[|h|]);
        s
      else
        assert !IsWhiteSpace("http://127.0.0.1:8000"[0]);
        "http://127.0.0.1:8000"
  }

  /**
   * System.Uri, which the client cannot see into, as a parameter: `new
   * Uri(text)` throws (None) or gives a Uri whose ToString() is the text
   * returned.
   */
  type UriParser = string -> Option<string>

  /** A parser keeps `text` as given when it accepts it and prints it back unchanged. */
  predicate KeepsAsGiven(parse: UriParser, text: string)
  {
    parse(text) == Some(text)
  }

  /**
   * The text the BaseUrl setter hands to new Uri: the value without its
   * trailing slashes, with http:// in front unless that starts with http,
   * and one slash at the end.
   */
  function UriCandidate(value: string): (r: string)
    ensures var w := TrimEndChar(value, '/');
            r == (if StartsWithIgnoreCase(w, "http") then "" else "http://") + w + "/"
    ensures EndsWith(r, "/") && StartsWithIgnoreCase(r, "http")
  {
    var trimmed := TrimEndChar(value, '/');
    var withScheme := if StartsWithIgnoreCase(trimmed, "http") then trimmed else "http://" + trimmed;
    assert ("http://" + trimmed)[..4] == "http";
    assert (withScheme + "/")[..4] == withScheme[..4];
    withScheme + "/"
  }

  /** What one call of the BaseUrl setter does to the two addresses. */
  datatype AddressChange =
    | Clear                      // a blank value: both addresses become null
    | Install(address: string)   // both addresses become this Uri
    | Invalid                    // new Uri threw: nothing is assigned and the exception escapes

  /** The change the BaseUrl setter makes for `value`. */
  function BaseAddressFor(value: string, parse: UriParser): (r: AddressChange)
    ensures IsBlank(value) <==> r == Clear
    ensures !IsBlank(value) ==> (r == Invalid <==> parse(UriCandidate(value)).None?)
    ensures r.Install? ==> parse(UriCandidate(value)) == Some(r.address)
  {
    if IsBlank(value) then Clear
    else
      match parse(UriCandidate(value))
      case None => Invalid
      case Some(uri) => Install(uri)
  }

  /** The address after a change, starting from `current`. */
  function AddressAfter(change: AddressChange, current: Option<string>): (r: Option<string>)
    ensures change.Clear? ==> r.None?
    ensures change.Install? ==> r == Some(change.address)
    ensures change.Invalid? ==> r == current
  {
    match change
    case Clear => None
    case Install(address) => Some(address)
    case Invalid => current
  }

  /** The text before the final slash of a candidate: it starts with http and ends in no slash. */
  predicate SchemedWithoutSlash(w: string)
  {
    StartsWithIgnoreCase(w, "http") && w[|w| - 1] != '/'
  }

  lemma CandidateShape(value: string)
    requires TrimEndChar(value, '/') != []
    ensures exists w :: SchemedWithoutSlash(w) && UriCandidate(value) == w + "/"
  {
    var trimmed := TrimEndChar(value, '/');
    if StartsWithIgnoreCase(trimmed, "http") {
      assert SchemedWithoutSlash(trimmed);
      assert UriCandidate(value) == trimmed + "/";
    } else {
      var w := "http://" + trimmed;
      assert w[|w| - 1] == trimmed[|trimmed| - 1];
      assert w[..4] == "http";
      assert SchemedWithoutSlash(w);
      assert UriCandidate(value) == w + "/";
    }
  }

  lemma RecandidateShape(w: string)
    requires SchemedWithoutSlash(w)
    ensures !IsBlank(w + "/")
    ensures UriCandidate(w + "/") == w + "/"
  {
    assert LowerChar(w[0]) == 'h' by { assert Lower(w[..4])[0] == Lower("http")[0]; }
    assert (w + "/")[0] == w[0];
    var stored := w + "/";
    assert stored[..|stored| - 1] == w;
    assert TrimEndChar(stored, '/') == TrimEndChar(w, '/');
    assert TrimEndChar(w, '/') == w;
  }

  /**
   * Reading BaseUrl back and setting it again changes nothing, when Uri
   * keeps the candidate as given; a value of slashes only gives the
   * candidate http:///, which is not of that kind.
   */
  lemma BaseAddressIdempotent(value: string, parse: UriParser)
    ensures !IsBlank(value) && TrimEndChar(value, '/') == [] ==> UriCandidate(value) == "http:///"
    ensures !IsBlank(value) && TrimEndChar(value, '/') != [] && KeepsAsGiven(parse, UriCandidate(value)) ==>
              BaseAddressFor(value, parse) == Install(UriCandidate(value))
              && BaseAddressFor(UriCandidate(value), parse) == BaseAddressFor(value, parse)
  {
    if TrimEndChar(value, '/') == [] {
      SlashesOnlyCandidate(value);
    } else if !IsBlank(value) && KeepsAsGiven(parse, UriCandidate(value)) {
      CandidateShape(value);
      var w :| SchemedWithoutSlash(w) && UriCandidate(value) == w + "/";
      RecandidateShape(w);
    }
  }

  lemma SlashesOnlyCandidate(value: string)
    requires TrimEndChar(value, '/') == []
    ensures UriCandidate(value) == "http:///"
  {
    assert !StartsWithIgnoreCase([], "http");
    assert "http://" + [] + "/" == "http:///";
  }

  /** The client's two HTTP base addresses (the default client and the untimed training client), as Uri text. */
  class Client {
    var baseAddress: Option<string>
    var trainBaseAddress: Option<string>

    /** The two HttpClients before the BaseUrl setter runs: no base addresses. */
    constructor()
      ensures baseAddress.None? && trainBaseAddress.None?
    {
      baseAddress := None;
      trainBaseAddress := None;
    }

    /**
     * new BackendClient(): both addresses from the environment's default
     * base URL; None when new Uri throws, which makes the constructor throw.
     */
    static method Create(env: map<string, string>, parse: UriParser) returns (r: Option<Client>)
      ensures var change := BaseAddressFor(ResolveDefaultBaseUrl(env), parse);
              && (r.None? <==> change.Invalid?)
              && (r.Some? ==> fresh(r.value) && change.Install?
                              && r.value.baseAddress == Some(change.address)
                              && r.value.trainBaseAddress == r.value.baseAddress)
    {
      var c := new Client();
      var ok := c.SetBaseUrl(ResolveDefaultBaseUrl(env), parse);
      if !ok {
        return None;
      }
      return Some(c);
    }

    /** The BaseUrl getter: the Uri's text, empty when there is none. */
    function BaseUrl(): (r: string)
      reads this
      ensures baseAddress.None? ==> r == ""
      ensures baseAddress.Some? ==> r == baseAddress.value
    {
      if baseAddress.Some? then baseAddress.value else ""
    }

    /**
     * The BaseUrl setter: a blank value clears both addresses; otherwise
     * both get the Uri of the candidate. `ok` is false when new Uri throws,
     * in which case neither address is assigned.
     */
    method SetBaseUrl(value: string, parse: UriParser) returns (ok: bool)
      modifies this
      ensures ok <==> !BaseAddressFor(value, parse).Invalid?
      ensures baseAddress == AddressAfter(BaseAddressFor(value, parse), old(baseAddress))
      ensures trainBaseAddress == AddressAfter(BaseAddressFor(value, parse), old(trainBaseAddress))
      ensures ok ==> trainBaseAddress == baseAddress
      ensures ok && !IsBlank(value) ==> BaseUrl() == parse(UriCandidate(value)).value
    {
      if IsBlank(value) {
        baseAddress := None;
        trainBaseAddress := None;
        return true;
      }
      var trimmed := TrimEndChar(value, '/');
      if !StartsWithIgnoreCase(trimmed, "http") {
        trimmed := "http://" + trimmed;
      }
      var uri := parse(trimmed + "/");
      if uri.None? {
        return false;
      }
      baseAddress := uri;
      trainBaseAddress := uri;
      return true;
    }
  }
}
