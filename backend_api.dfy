/**
 * The GUI's legacy static backend facade: the inference request it
 * validates, the base URL it normalises and hands to the client, the
 * millimetres per pixel it resolves, and the role and ROI ids it derives
 * from an ROI.
 */
module BackendApi {
  import opened Wrappers
  import opened Text
  import opened Roi
  import opened Workflow
  import BackendClient

  // ---- Inference requests ----

  datatype InferRequest = InferRequest(
    roleId: string, roiId: string, mmPerPx: real, imageBytes: seq<bv8>,
    shapeJson: Option<string>, fileName: string)

  datatype ArgumentError = RoleIdNull | RoiIdNull | MmPerPxOutOfRange | ImageBytesNull

  /**
   * new InferRequest(...): the arguments checked in order (missing role id,
   * missing ROI id, a scale that is not positive, missing bytes); the file
   * name starts as roi.png.
   */
  function MakeInferRequest(roleId: Option<string>, roiId: Option<string>, mmPerPx: real, imageBytes: Option<seq<bv8>>)
    : (r: Result<InferRequest, ArgumentError>)
    ensures r.Success? <==> roleId.Some? && roiId.Some? && mmPerPx > 0.0 && imageBytes.Some?
    ensures r.Success? ==> r.value.mmPerPx > 0.0 && r.value.fileName == "roi.png" && r.value.shapeJson.None?
                           && r.value.roleId == roleId.value && r.value.roiId == roiId.value
                           && r.value.imageBytes == imageBytes.value
    ensures roleId.None? ==> r == Failure(RoleIdNull)
    ensures roleId.Some? && roiId.None? ==> r == Failure(RoiIdNull)
    ensures roleId.Some? && roiId.Some? && mmPerPx <= 0.0 ==> r == Failure(MmPerPxOutOfRange)
    ensures roleId.Some? && roiId.Some? && mmPerPx > 0.0 && imageBytes.None? ==> r == Failure(ImageBytesNull)
  {
    if roleId.None? then Failure(RoleIdNull)
    else if roiId.None? then Failure(RoiIdNull)
    else if mmPerPx <= 0.0 then Failure(MmPerPxOutOfRange)
    else if imageBytes.None? then Failure(ImageBytesNull)
    else Success(InferRequest(roleId.value, roiId.value, mmPerPx, imageBytes.value, None, "roi.png"))
  }

  // ---- Base URL ----

  /** The trimmed text with a scheme: as it is when it starts with http, else http:// before it without leading slashes. */
  function WithHttp(trimmed: string): (r: string)
    ensures StartsWithIgnoreCase(r, "http")
    ensures StartsWithIgnoreCase(trimmed, "http") ==> r == trimmed
    ensures !StartsWithIgnoreCase(trimmed, "http") ==> r == "http://" + TrimStartChar(trimmed, '/')
  {
    if StartsWithIgnoreCase(trimmed, "http") then trimmed
    else
      HttpSchemeStartsWithHttp(TrimStartChar(trimmed, '/'));
      "http://" + TrimStartChar(trimmed, '/')
  }

  lemma HttpSchemeStartsWithHttp(t: string)
    ensures StartsWithIgnoreCase("http://" + t, "http")
  {
    assert ("http://" + t)[..4] == "http";
  }

  /**
   * NormalizeBaseUrl: the trimmed value, with http:// (and no leading
   * slashes) in front unless it already starts with http, and without
   * trailing slashes.
   */
  function NormalizeBaseUrl(value: string): (r: string)
    ensures r == TrimEndChar(WithHttp(Trim(value)), '/')
    ensures BackendClient.SchemedWithoutSlash(r)
  {
    var full := WithHttp(Trim(value));
    HttpPrefixSurvivesTrimEnd(full);
    TrimEndChar(full, '/')
  }

  /** Dropping trailing slashes cannot reach into a leading http. */
  lemma HttpPrefixSurvivesTrimEnd(s: string)
    requires StartsWithIgnoreCase(s, "http")
    ensures BackendClient.SchemedWithoutSlash(TrimEndChar(s, '/'))
  {
    var r := TrimEndChar(s, '/');
    assert LowerChar(s[3]) == 'p' by { assert Lower(s[..4])[3] == Lower("http")[3]; }
    assert |r| >= 4;
    assert r[..4] == s[..4];
  }

  /** The URL ApplyBaseUrl stores for a non-blank value: its trailing slashes dropped. */
  function StoredBaseUrl(url: string): (r: string)
    ensures r == TrimEndChar(url, '/')
  {
    TrimEndChar(url, '/')
  }

  /** A normalised URL is stored unchanged. */
  lemma NormalizedUrlIsStoredAsIs(value: string)
    ensures StoredBaseUrl(NormalizeBaseUrl(value)) == NormalizeBaseUrl(value)
  {
  }

  /** An address that starts with http and ends in no slash is handed to Uri with one slash added. */
  lemma ClientCandidateOfSchemedUrl(w: string)
    requires BackendClient.SchemedWithoutSlash(w)
    ensures !IsBlank(w)
    ensures BackendClient.UriCandidate(w) == w + "/"
  {
    assert LowerChar(w[0]) == 'h' by { assert Lower(w[..4])[0] == Lower("http")[0]; }
    assert !IsBlank(w) by { assert !IsWhiteSpace(w[0]); }
    assert TrimEndChar(w, '/') == w;
  }

  /**
   * The client is handed the normalised URL with a single slash after it:
   * it installs the Uri of that text, or keeps its addresses when Uri
   * refuses it.
   */
  lemma ClientAddressOfNormalizedUrl(value: string, parse: BackendClient.UriParser)
    ensures var url := NormalizeBaseUrl(value);
            && BackendClient.UriCandidate(url) == url + "/"
            && (parse(url + "/").None? ==> BackendClient.BaseAddressFor(url, parse) == BackendClient.Invalid)
            && (parse(url + "/").Some? ==> BackendClient.BaseAddressFor(url, parse) == BackendClient.Install(parse(url + "/").value))
  {
    ClientCandidateOfSchemedUrl(NormalizeBaseUrl(value));
  }

  /** The facade's mutable settings and the client it configures. */
  class Api {
    var baseUrl: string
    var defaultMmPerPx: real
    const client: BackendClient.Client

    /** The settings before the static initialiser runs. */
    constructor(client: BackendClient.Client)
      ensures baseUrl == "http://127.0.0.1:8000" && defaultMmPerPx == 0.20 && this.client == client
    {
      baseUrl := "http://127.0.0.1:8000";
      defaultMmPerPx := 0.20;
      this.client := client;
    }

    /**
     * ApplyBaseUrl: a blank URL changes nothing; otherwise the URL without
     * trailing slashes is stored and handed to the client, whose addresses
     * stay as they were when Uri refuses it (the exception is swallowed).
     */
    method ApplyBaseUrl(url: string, parse: BackendClient.UriParser)
      modifies this, client
      ensures IsBlank(url) ==> baseUrl == old(baseUrl) && unchanged(client)
      ensures !IsBlank(url) ==>
                var change := BackendClient.BaseAddressFor(StoredBaseUrl(url), parse);
                && baseUrl == StoredBaseUrl(url)
                && client.baseAddress == BackendClient.AddressAfter(change, old(client.baseAddress))
                && client.trainBaseAddress == BackendClient.AddressAfter(change, old(client.trainBaseAddress))
      ensures !IsBlank(url) && StoredBaseUrl(url) == [] ==> client.baseAddress.None? && client.trainBaseAddress.None?
      ensures defaultMmPerPx == old(defaultMmPerPx)
    {
      if IsBlank(url) {
        return;
      }
      baseUrl := TrimEndChar(url, '/');
      var _ := client.SetBaseUrl(baseUrl, parse);
    }
  }

  /**
   * What the static initialiser's read of appsettings.json gives: the parsed
   * Backend.MmPerPx when it is a number (None when the file, the section or the
   * property is absent), or a failure when reading, parsing or a typed getter threw.
   */
  datatype SettingsRead = Parsed(mmPerPx: Option<real>) | ReadFailed

  /**
   * The default scale after the static initialiser: a positive value from
   * the settings file, overridden by a positive value from the environment,
   * else 0.20. The whole initialiser sits in one try/catch, so a failed
   * settings read skips the environment and keeps 0.20.
   */
  function InitialMmPerPx(settings: SettingsRead, fromEnvironment: Option<real>): (r: real)
    ensures r > 0.0
    ensures settings.ReadFailed? ==> r == 0.20
    ensures settings.Parsed? && fromEnvironment.Some? && fromEnvironment.value > 0.0 ==> r == fromEnvironment.value
    ensures settings.Parsed? && (fromEnvironment.None? || fromEnvironment.value <= 0.0)
            && settings.mmPerPx.Some? && settings.mmPerPx.value > 0.0 ==>
              r == settings.mmPerPx.value
    ensures settings.Parsed? && (fromEnvironment.None? || fromEnvironment.value <= 0.0)
            && (settings.mmPerPx.None? || settings.mmPerPx.value <= 0.0) ==>
              r == 0.20
  {
    if settings.ReadFailed? then 0.20
    else if fromEnvironment.Some? && fromEnvironment.value > 0.0 then fromEnvironment.value
    else if settings.mmPerPx.Some? && settings.mmPerPx.value > 0.0 then settings.mmPerPx.value
    else 0.20
  }

  // ---- Scale, roles and ids ----

  /** ResolveMmPerPx: a positive override, else the preset's positive scale, else the default. */
  function ResolveMmPerPx(presetMmPerPx: Option<real>, overrideValue: Option<real>, defaultMmPerPx: real): (r: real)
    ensures r == defaultMmPerPx || (r > 0.0 && (r == (if overrideValue.Some? then overrideValue.value else 0.0)
                                                 || r == (if presetMmPerPx.Some? then presetMmPerPx.value else 0.0)))
    ensures overrideValue.Some? && overrideValue.value > 0.0 ==> r == overrideValue.value
    ensures (overrideValue.None? || overrideValue.value <= 0.0) && presetMmPerPx.Some? && presetMmPerPx.value > 0.0 ==>
              r == presetMmPerPx.value
    ensures (overrideValue.None? || overrideValue.value <= 0.0) && (presetMmPerPx.None? || presetMmPerPx.value <= 0.0) ==>
              r == defaultMmPerPx
  {
    if overrideValue.Some? && overrideValue.value > 0.0 then overrideValue.value
    else if presetMmPerPx.Some? && presetMmPerPx.value > 0.0 then presetMmPerPx.value
    else defaultMmPerPx
  }

  /** With a positive default the resolved scale is always usable for an inference request. */
  lemma ResolvedScaleIsPositive(presetMmPerPx: Option<real>, overrideValue: Option<real>, defaultMmPerPx: real)
    requires defaultMmPerPx > 0.0
    ensures ResolveMmPerPx(presetMmPerPx, overrideValue, defaultMmPerPx) > 0.0
    ensures MakeInferRequest(Some("r"), Some("i"), ResolveMmPerPx(presetMmPerPx, overrideValue, defaultMmPerPx), Some([])).Success?
  {
  }

  /** ResolveRoleId: Master1 or Master2 for either master ROI, Inspection for an inspection ROI, DefaultRole without ROI. */
  function ResolveRoleId(roi: Option<RoiValue>): (r: string)
    ensures roi.None? ==> r == "DefaultRole"
    ensures roi.Some? && (roi.value.role == Master1Pattern || roi.value.role == Master1Search) ==> r == "Master1"
    ensures roi.Some? && (roi.value.role == Master2Pattern || roi.value.role == Master2Search) ==> r == "Master2"
    ensures roi.Some? && roi.value.role == Inspection ==> r == "Inspection"
  {
    if roi.None? then "DefaultRole"
    else match roi.value.role
      case Master1Pattern => "Master1"
      case Master1Search => "Master1"
      case Master2Pattern => "Master2"
      case Master2Search => "Master2"
      case Inspection => "Inspection"
  }

  /** The characters an id keeps. */
  predicate IsIdChar(c: char) { IsLetterOrDigit(c) || c == '-' || c == '_' }

  /** The characters SanitizeId emits for a text: id characters kept, whitespace as '_', the rest dropped. */
  function Sanitized(s: string): (r: string)
    ensures |r| <= |s|
    ensures forall i :: 0 <= i < |r| ==> IsIdChar(r[i])
  {
    if s == [] then []
    else
      Sanitized(s[..|s| - 1]) + Emitted(s[|s| - 1])
  }

  /** What one character contributes: itself for an id character, '_' for whitespace, nothing otherwise. */
  function Emitted(c: char): (r: string)
    ensures forall i :: 0 <= i < |r| ==> IsIdChar(r[i])
  {
    if IsIdChar(c) then [c] else if IsWhiteSpace(c) then ['_'] else []
  }

  lemma SanitizedStep(text: string, i: nat)
    requires i < |text|
    ensures Sanitized(text[..i + 1]) == Sanitized(text[..i]) + Emitted(text[i])
  {
    assert text[..i + 1][..i] == text[..i];
  }

  lemma {:induction false} SanitizedOfIdText(s: string)
    requires forall i :: 0 <= i < |s| ==> IsIdChar(s[i])
    ensures Sanitized(s) == s
  {
    if s != [] {
      SanitizedOfIdText(s[..|s| - 1]);
      assert s == s[..|s| - 1] + [s[|s| - 1]];
    }
  }

  /** The value SanitizeId returns: the fallback for a blank value or an empty result. */
  function SanitizeIdOf(value: Option<string>, fallback: string): (r: string)
    ensures value.None? || IsBlank(value.value) ==> r == fallback
    ensures r == fallback || (r != [] && forall i :: 0 <= i < |r| ==> IsIdChar(r[i]))
  {
    if value.None? || IsBlank(value.value) then fallback
    else
      var cleaned := Sanitized(Trim(value.value));
      if |cleaned| > 0 then cleaned else fallback
  }

  lemma IdCharIsNotWhiteSpace(c: char)
    requires IsIdChar(c)
    ensures !IsWhiteSpace(c)
  {
  }

  /** Sanitising an id a second time keeps it, when the fallback is itself an id. */
  lemma SanitizeIdIdempotent(value: Option<string>, fallback: string)
    requires fallback != [] && forall i :: 0 <= i < |fallback| ==> IsIdChar(fallback[i])
    ensures SanitizeIdOf(Some(SanitizeIdOf(value, fallback)), fallback) == SanitizeIdOf(value, fallback)
  {
    IdTextSanitizesToItself(SanitizeIdOf(value, fallback), fallback);
  }

  /** A non-empty text of id characters is its own sanitised id. */
  lemma IdTextSanitizesToItself(r: string, fallback: string)
    requires r != [] && forall i :: 0 <= i < |r| ==> IsIdChar(r[i])
    ensures SanitizeIdOf(Some(r), fallback) == r
  {
    IdCharIsNotWhiteSpace(r[0]);
    IdCharIsNotWhiteSpace(r[|r| - 1]);
    TrimOfUnpadded(r);
    SanitizedOfIdText(r);
  }

  /** SanitizeId: the StringBuilder loop over the trimmed value. */
  method SanitizeId(value: Option<string>, fallback: string) returns (r: string)
    ensures r == SanitizeIdOf(value, fallback)
  {
    if value.None? || IsBlank(value.value) {
      return fallback;
    }
    var text := Trim(value.value);
    var sb: string := [];
    for i := 0 to |text|
      invariant sb == Sanitized(text[..i])
    {
      var ch := text[i];
      SanitizedStep(text, i);
      if IsLetterOrDigit(ch) || ch == '-' || ch == '_' {
        sb := sb + [ch];
      } else if IsWhiteSpace(ch) {
        sb := sb + ['_'];
      }
    }
    assert text[..|text|] == text;
    r := if |sb| > 0 then sb else fallback;
  }

  /**
   * The slot digit the sanitised label of an inspection ROI names. The
   * label pattern allows '-' or '_' between the word and the digit, the
   * id pattern also whitespace; a sanitised label holds no whitespace, so
   * one search serves both.
   */
  function LabelDigit(v: RoiValue): (r: Option<char>)
    ensures r.Some? ==> IsSlotDigit(r.value) && v.labelText.Some? && !IsBlank(v.labelText.value)
  {
    if v.labelText.Some? && !IsBlank(v.labelText.value) then FindKeyDigit(SanitizeIdOf(v.labelText, ""), 0) else None
  }

  /** The slot digit the id of an inspection ROI names. */
  function IdDigit(v: RoiValue): (r: Option<char>)
    ensures r.Some? ==> IsSlotDigit(r.value) && !IsBlank(v.id)
  {
    if !IsBlank(v.id) then FindKeyDigit(v.id, 0) else None
  }

  /**
   * ResolveRoiId: an inspection ROI gets the canonical key of the slot its
   * sanitised label names, else the slot its id names, else inspection-1;
   * another ROI its sanitised label, else Pattern or Search by role; no ROI
   * gives ROI.
   */
  function ResolveRoiId(roi: Option<RoiValue>): (r: string)
    ensures roi.None? ==> r == "ROI"
    ensures roi.Some? && roi.value.role == Inspection ==> IsCanonicalKey(r)
    ensures roi.Some? && roi.value.role == Inspection && LabelDigit(roi.value).Some? ==>
              r == CanonicalKey(LabelDigit(roi.value).value)
    ensures roi.Some? && roi.value.role == Inspection && LabelDigit(roi.value).None? && IdDigit(roi.value).Some? ==>
              r == CanonicalKey(IdDigit(roi.value).value)
    ensures roi.Some? && roi.value.role == Inspection && LabelDigit(roi.value).None? && IdDigit(roi.value).None? ==>
              r == "inspection-1"
    ensures roi.Some? && roi.value.role != Inspection && roi.value.labelText.Some? && !IsBlank(roi.value.labelText.value) ==>
              r == SanitizeIdOf(roi.value.labelText, "ROI")
    ensures roi.Some? && roi.value.role != Inspection && (roi.value.labelText.None? || IsBlank(roi.value.labelText.value)) ==>
              r == (if roi.value.role == Master1Pattern || roi.value.role == Master2Pattern then "Pattern" else "Search")
  {
    if roi.None? then "ROI"
    else
      var v := roi.value;
      if v.role == Inspection then
        var fromLabel := LabelDigit(v);
        var fromId := IdDigit(v);
        var d := if fromLabel.Some? then fromLabel.value else if fromId.Some? then fromId.value else '1';
        CanonicalKeyIsCanonical(d);
        CanonicalKey(d)
      else if v.labelText.Some? && !IsBlank(v.labelText.value) then SanitizeIdOf(v.labelText, "ROI")
      else match v.role
        case Master1Pattern => "Pattern"
        case Master1Search => "Search"
        case Master2Pattern => "Pattern"
        case Master2Search => "Search"
  }

  /** The id of an inspection ROI is already in the workflow's canonical key form. */
  lemma InspectionRoiIdIsCanonical(v: RoiValue, index: int)
    requires v.role == Inspection
    ensures NormalizeInspectionKey(ResolveRoiId(Some(v)), index) == ResolveRoiId(Some(v))
  {
    var s := ResolveRoiId(Some(v));
    CanonicalKeyMatches(s[11]);
  }

  /** A canonical key is unpadded and starts with inspection. */
  lemma CanonicalKeyShape(s: string)
    requires IsCanonicalKey(s)
    ensures !IsBlank(s) && Trim(s) == s && StartsWithIgnoreCase(s, "inspection")
  {
    assert s[0] == 'i' && IsSlotDigit(s[11]);
    assert !IsWhiteSpace(s[0]);
    TrimOfUnpadded(s);
    assert s[..10] == "inspection";
  }

  /** The client keeps the role of an inspection ROI when it sends the derived ids. */
  lemma InspectionRoleSurvivesClient(v: RoiValue)
    requires v.role == Inspection
    ensures BackendClient.NormalizeRoleId(ResolveRoleId(Some(v)), Some(ResolveRoiId(Some(v)))) == "Inspection"
  {
    CanonicalKeyShape(ResolveRoiId(Some(v)));
  }

  /** A string cannot contain another of its own length that starts with a different letter. */
  lemma NotContainedAtSameLength(s: string, p: string)
    requires |s| == |p| > 0 && LowerChar(s[0]) != LowerChar(p[0])
    ensures !BackendClient.ContainsIgnoreCase(s, p)
  {
    var ls, lp := Lower(s), Lower(p);
    assert ls[..|lp|][0] != lp[0];
    ContainsNeedsRoom(ls[1..], lp);
  }

  /** Neither Pattern nor Search names a role, so the client keeps the role given with them. */
  lemma RoleNeutralName(name: string, role: string)
    requires name == "Pattern" || name == "Search"
    requires !IsBlank(role)
    ensures BackendClient.NormalizeRoleId(role, Some(name)) == role
  {
    NeutralNameHasNoRole(name);
  }

  lemma NeutralNameHasNoRole(name: string)
    requires name == "Pattern" || name == "Search"
    ensures BackendClient.RoleFromRoiId(Some(name)).None?
  {
    assert !IsWhiteSpace(name[0]);
    TrimOfUnpadded(name);
    var m1, m2 := "master1", "master2";
    if name == "Pattern" {
      NotContainedAtSameLength(name, m1);
      NotContainedAtSameLength(name, m2);
    } else {
      ContainsNeedsRoom(Lower(name), Lower(m1));
      ContainsNeedsRoom(Lower(name), Lower(m2));
    }
  }

  /** A master ROI without a label is sent with its own master role. */
  lemma UnlabelledMasterKeepsRole(v: RoiValue)
    requires v.role != Inspection
    requires v.labelText.None? || IsBlank(v.labelText.value)
    ensures ResolveRoleId(Some(v)) == "Master1" || ResolveRoleId(Some(v)) == "Master2"
    ensures BackendClient.NormalizeRoleId(ResolveRoleId(Some(v)), Some(ResolveRoiId(Some(v)))) == ResolveRoleId(Some(v))
  {
    var role := ResolveRoleId(Some(v));
    assert !IsWhiteSpace(role[0]);
    RoleNeutralName(ResolveRoiId(Some(v)), role);
  }
}
