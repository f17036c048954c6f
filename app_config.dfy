/**
 * AppConfig and AppConfigLoader: the GUI's settings, their defaults, the
 * merge of each settings file over them, and the environment overrides.
 * File contents and environment variables enter as parameters.
 */
module AppSettings {
  import opened Wrappers
  import opened Text
  import Layouts

  /** Clamp01: a value pulled into [0, 1]. */
  function Clamp01(value: real): (r: real)
    ensures 0.0 <= r <= 1.0
    ensures 0.0 <= value <= 1.0 ==> r == value
    ensures value < 0.0 ==> r == 0.0
    ensures value > 1.0 ==> r == 1.0
  {
    if 1.0 < value then 1.0 else if value < 0.0 then 0.0 else value
  }

  /** Every setting of an AppConfig, as a value. */
  datatype Settings = Settings(
    baseUrl: string,
    datasetRoot: string,
    posTolPx: real,
    angTolDeg: real,
    scaleLockDefault: bool,
    anchorScoreMin: int,
    heatmapOverlayOpacity: real)

  const Defaults: Settings := Settings("http://127.0.0.1:8000", "", 1.0, 0.5, true, 85, 0.6)

  /**
   * One deserialised settings file: a missing section or a null value is
   * None (the merge treats both alike); the Analyze section's numbers and
   * flag take their defaults when absent from the file.
   */
  datatype AnalyzeSection = AnalyzeSection(posTolPx: real, angTolDeg: real, scaleLockDefault: bool, anchorScoreMin: int)

  datatype FileSettings = FileSettings(
    baseUrl: Option<string>,
    datasetRoot: Option<string>,
    analyze: Option<AnalyzeSection>,
    heatmapOverlayOpacity: Option<real>)

  /** The settings the application relies on: positive tolerances and score, an opacity in [0, 1], a base URL. */
  predicate Sound(s: Settings)
  {
    !IsBlank(s.baseUrl) && s.posTolPx > 0.0 && s.angTolDeg > 0.0 && s.anchorScoreMin > 0
    && 0.0 <= s.heatmapOverlayOpacity <= 1.0
  }

  /** A present, non-blank text replaces the current one (the merge of BaseUrl and Root). */
  function TextOr(value: Option<string>, current: string): (r: string)
    ensures value.Some? && !IsBlank(value.value) ==> r == value.value
    ensures value.None? || IsBlank(value.value) ==> r == current
    ensures !IsBlank(current) ==> !IsBlank(r)
  {
    if value.Some? && !IsBlank(value.value) then value.value else current
  }

  /** A positive value replaces the current one (the tolerances). */
  function PositiveOr(value: real, current: real): (r: real)
    ensures value > 0.0 ==> r == value
    ensures value <= 0.0 ==> r == current
    ensures current > 0.0 ==> r > 0.0
  {
    if value > 0.0 then value else current
  }

  /** A positive score replaces the current one. */
  function PositiveIntOr(value: int, current: int): (r: int)
    ensures value > 0 ==> r == value
    ensures value <= 0 ==> r == current
    ensures current > 0 ==> r > 0
  {
    if value > 0 then value else current
  }

  /** A present, non-negative opacity replaces the current one, clamped to [0, 1]. */
  function OpacityOr(value: Option<real>, current: real): (r: real)
    ensures value.Some? && value.value >= 0.0 ==> r == Clamp01(value.value)
    ensures value.None? || value.value < 0.0 ==> r == current
    ensures 0.0 <= current <= 1.0 ==> 0.0 <= r <= 1.0
  {
    if value.Some? && value.value >= 0.0 then Clamp01(value.value) else current
  }

  /**
   * Merge on values: a non-blank BaseUrl or Dataset.Root replaces the
   * current one; positive tolerances and anchor score replace theirs; the
   * scale lock is always taken from a present Analyze section; a
   * non-negative opacity is stored clamped to [0, 1].
   */
  function Merged(target: Settings, source: FileSettings): Settings
  {
    var a := source.analyze;
    Settings(
      TextOr(source.baseUrl, target.baseUrl),
      TextOr(source.datasetRoot, target.datasetRoot),
      if a.Some? then PositiveOr(a.value.posTolPx, target.posTolPx) else target.posTolPx,
      if a.Some? then PositiveOr(a.value.angTolDeg, target.angTolDeg) else target.angTolDeg,
      if a.Some? then a.value.scaleLockDefault else target.scaleLockDefault,
      if a.Some? then PositiveIntOr(a.value.anchorScoreMin, target.anchorScoreMin) else target.anchorScoreMin,
      OpacityOr(source.heatmapOverlayOpacity, target.heatmapOverlayOpacity))
  }

  /** A file with no section and no value leaves the settings as they are. */
  lemma MergedEmptyFile(target: Settings)
    ensures Merged(target, FileSettings(None, None, None, None)) == target
  {
  }

  /** The defaults are sound, and merging a file keeps settings sound. */
  lemma DefaultsAreSound()
    ensures Sound(Defaults)
  {
    assert !IsWhiteSpace(Defaults.baseUrl[0]);
  }

  lemma MergedKeepsSound(target: Settings, source: FileSettings)
    requires Sound(target)
    ensures Sound(Merged(target, source))
  {
  }

  /** Merging the same file twice is the same as once. */
  lemma MergedIdempotent(target: Settings, source: FileSettings)
    ensures Merged(Merged(target, source), source) == Merged(target, source)
  {
  }

  // ---- Sections a file leaves out ----

  /** A section of a settings file as written: left out, set to null, or given with its contents. */
  datatype Section<T> = Omitted | Null | Given(contents: T)

  /**
   * A settings file as written: the Backend section's BaseUrl (None for a
   * null value), the Dataset section's Root, the Analyze section and the UI
   * section's opacity.
   */
  datatype SettingsFile = SettingsFile(
    backend: Section<Option<string>>,
    dataset: Section<Option<string>>,
    analyze: Section<AnalyzeSection>,
    ui: Section<real>)

  /** The property initialisers of a new Analyze section. */
  const DefaultAnalyze: AnalyzeSection := AnalyzeSection(1.0, 0.5, true, 85)

  /** A settings file holding the empty JSON object. */
  const EmptyFile: SettingsFile := SettingsFile(Omitted, Omitted, Omitted, Omitted)

  /**
   * What JsonSerializer.Deserialize<AppConfig> yields for a file: a section
   * the file leaves out keeps its property initialiser (a new section with
   * its defaults), and only a section written as null is null.
   */
  function Deserialized(f: SettingsFile): (r: FileSettings)
    ensures f.backend.Omitted? ==> r.baseUrl == Some(Defaults.baseUrl)
    ensures f.analyze.Omitted? ==> r.analyze == Some(DefaultAnalyze)
    ensures f.ui.Omitted? ==> r.heatmapOverlayOpacity == Some(Defaults.heatmapOverlayOpacity)
  {
    FileSettings(
      match f.backend case Omitted => Some(Defaults.baseUrl) case Null => None case Given(url) => url,
      match f.dataset case Omitted => Some("") case Null => None case Given(root) => root,
      match f.analyze case Omitted => Some(DefaultAnalyze) case Null => None case Given(a) => Some(a),
      match f.ui case Omitted => Some(Defaults.heatmapOverlayOpacity) case Null => None case Given(o) => Some(o))
  }

  /**
   * As written, merging a file that leaves out every section puts the
   * defaults back over whatever an earlier file set, except the dataset
   * root: the second settings file undoes the first.
   */
  lemma EmptyFileResetsSettings(target: Settings)
    ensures Merged(target, Deserialized(EmptyFile)) == Defaults.(datasetRoot := target.datasetRoot)
  {
    assert !IsWhiteSpace(Defaults.baseUrl[0]);
  }

  /** The evidently intended reading: a section the file leaves out is treated as a null one. */
  function Intended(f: SettingsFile): (r: FileSettings)
    ensures f == EmptyFile ==> r == FileSettings(None, None, None, None)
  {
    FileSettings(
      if f.backend.Given? then f.backend.contents else None,
      if f.dataset.Given? then f.dataset.contents else None,
      if f.analyze.Given? then Some(f.analyze.contents) else None,
      if f.ui.Given? then Some(f.ui.contents) else None)
  }

  /** Read as intended, the settings of every section a file does not give are kept. */
  lemma OmittedSectionsAreKept(target: Settings, f: SettingsFile)
    ensures var r := Merged(target, Intended(f));
            && (!f.backend.Given? ==> r.baseUrl == target.baseUrl)
            && (!f.dataset.Given? ==> r.datasetRoot == target.datasetRoot)
            && (!f.analyze.Given? ==> r.posTolPx == target.posTolPx && r.angTolDeg == target.angTolDeg
                                      && r.scaleLockDefault == target.scaleLockDefault
                                      && r.anchorScoreMin == target.anchorScoreMin)
            && (!f.ui.Given? ==> r.heatmapOverlayOpacity == target.heatmapOverlayOpacity)
  {
  }

  /** The two readings agree on a file that gives every section. */
  lemma IntendedAgreesWhenAllGiven(f: SettingsFile)
    requires f.backend.Given? && f.dataset.Given? && f.analyze.Given? && f.ui.Given?
    ensures Intended(f) == Deserialized(f)
  {
  }

  // ---- Environment overrides ----

  /** OverrideBool's reading of a variable: 1/true/yes and 0/false/no in any case, after trimming. */
  function BoolOverride(value: Option<string>): (r: Option<bool>)
    ensures r == Some(true) <==>
              value.Some? && (EqualsIgnoreCase(Trim(value.value), "1") || EqualsIgnoreCase(Trim(value.value), "true")
                              || EqualsIgnoreCase(Trim(value.value), "yes"))
    ensures r == Some(false) <==>
              value.Some? && (EqualsIgnoreCase(Trim(value.value), "0") || EqualsIgnoreCase(Trim(value.value), "false")
                              || EqualsIgnoreCase(Trim(value.value), "no"))
  {
    if value.None? || IsBlank(value.value) then None
    else
      var v := Trim(value.value);
      if EqualsIgnoreCase(v, "1") || EqualsIgnoreCase(v, "true") || EqualsIgnoreCase(v, "yes") then Some(true)
      else if EqualsIgnoreCase(v, "0") || EqualsIgnoreCase(v, "false") || EqualsIgnoreCase(v, "no") then
        TrueWordsAreNotFalseWords(v);
        Some(false)
      else None
  }

  /** No text is both a true word and a false word. */
  lemma TrueWordsAreNotFalseWords(v: string)
    requires EqualsIgnoreCase(v, "0") || EqualsIgnoreCase(v, "false") || EqualsIgnoreCase(v, "no")
    ensures !(EqualsIgnoreCase(v, "1") || EqualsIgnoreCase(v, "true") || EqualsIgnoreCase(v, "yes"))
  {
    var l := Lower(v);
    assert l == Lower("0") || l == Lower("false") || l == Lower("no");
    assert Lower("0") == "0" && Lower("false") == "false" && Lower("no") == "no";
    assert Lower("1") == "1" && Lower("true") == "true" && Lower("yes") == "yes";
  }

  /** OverrideString's reading: a non-blank value, trimmed. */
  function StringOverride(value: Option<string>): (r: Option<string>)
    ensures r.Some? <==> value.Some? && !IsBlank(value.value)
    ensures r.Some? ==> !IsBlank(r.value) && r.value == Trim(value.value)
  {
    if value.None? || IsBlank(value.value) then None else Some(Trim(value.value))
  }

  /** OverrideInt's reading: a non-blank value that int.TryParse accepts. */
  function IntOverride(value: Option<string>): (r: Option<int>)
    ensures r.Some? ==> value.Some? && !IsBlank(value.value) && Layouts.ParseInt(value.value) == r
    ensures r.Some? ==> Layouts.Int32Min <= r.value <= Layouts.Int32Max
    ensures value.Some? && !IsBlank(value.value) ==> r == Layouts.ParseInt(value.value)
  {
    if value.None? || IsBlank(value.value) then None else Layouts.ParseInt(value.value)
  }

  /** The override's value when there is one, otherwise the current value. */
  function Else<T>(value: Option<T>, current: T): (r: T)
    ensures value.Some? ==> r == value.value
    ensures value.None? ==> r == current
  {
    if value.Some? then value.value else current
  }

  /**
   * The environment variables BDI_*, as read. The three double variables
   * are given as double.TryParse's result on a non-blank value.
   */
  datatype Environment = Environment(
    backendBaseUrl: Option<string>,
    datasetRoot: Option<string>,
    posTolPx: Option<real>,
    angTolDeg: Option<real>,
    scaleLockDefault: Option<string>,
    anchorScoreMin: Option<string>,
    heatmapOpacity: Option<real>)

  /** ApplyEnvironmentOverrides on values, in the source's order. */
  function Overridden(s: Settings, env: Environment): (r: Settings)
    ensures 0.0 <= s.heatmapOverlayOpacity <= 1.0 ==> 0.0 <= r.heatmapOverlayOpacity <= 1.0
    ensures !IsBlank(s.baseUrl) ==> !IsBlank(r.baseUrl)
    ensures env == Environment(None, None, None, None, None, None, None) ==> r == s
  {
    Settings(
      Else(StringOverride(env.backendBaseUrl), s.baseUrl),
      Else(StringOverride(env.datasetRoot), s.datasetRoot),
      Else(env.posTolPx, s.posTolPx),
      Else(env.angTolDeg, s.angTolDeg),
      Else(BoolOverride(env.scaleLockDefault), s.scaleLockDefault),
      Else(IntOverride(env.anchorScoreMin), s.anchorScoreMin),
      if env.heatmapOpacity.Some? then Clamp01(env.heatmapOpacity.value) else s.heatmapOverlayOpacity)
  }

  /** The loader's result: the defaults, each file merged in order, then the environment. */
  function Loaded(files: seq<Option<FileSettings>>, env: Environment): Settings
  {
    Overridden(MergedAll(Defaults, files), env)
  }

  function MergedAll(s: Settings, files: seq<Option<FileSettings>>): Settings
    decreases |files|
  {
    if files == [] then s
    else MergedAll(if files[0].Some? then Merged(s, files[0].value) else s, files[1..])
  }

  /** One more file merged: the rest of the fold from position i. */
  lemma MergedAllStep(s: Settings, files: seq<Option<FileSettings>>, i: nat)
    requires i < |files|
    ensures MergedAll(s, files[i..]) == MergedAll(if files[i].Some? then Merged(s, files[i].value) else s, files[i + 1..])
  {
    assert files[i..][0] == files[i];
    assert files[i..][1..] == files[i + 1..];
  }

  /** Whatever the files say, the merged settings stay sound. */
  lemma {:induction false} MergedAllKeepsSound(s: Settings, files: seq<Option<FileSettings>>)
    requires Sound(s)
    ensures Sound(MergedAll(s, files))
    decreases |files|
  {
    if files != [] {
      if files[0].Some? {
        MergedKeepsSound(s, files[0].value);
      }
      MergedAllKeepsSound(if files[0].Some? then Merged(s, files[0].value) else s, files[1..]);
    }
  }

  /** Loading always yields an opacity in [0, 1] and a non-blank base URL. */
  lemma LoadedOpacityInRange(files: seq<Option<FileSettings>>, env: Environment)
    ensures 0.0 <= Loaded(files, env).heatmapOverlayOpacity <= 1.0 && !IsBlank(Loaded(files, env).baseUrl)
  {
    DefaultsAreSound();
    MergedAllKeepsSound(Defaults, files);
  }

  /** The settings object the loader fills in. */
  class AppConfig {
    var baseUrl: string
    var datasetRoot: string
    var posTolPx: real
    var angTolDeg: real
    var scaleLockDefault: bool
    var anchorScoreMin: int
    var heatmapOverlayOpacity: real

    function Value(): Settings
      reads this
    {
      Settings(baseUrl, datasetRoot, posTolPx, angTolDeg, scaleLockDefault, anchorScoreMin, heatmapOverlayOpacity)
    }

    /** new AppConfig(): the defaults of every section. */
    constructor()
      ensures Value() == Defaults
    {
      baseUrl, datasetRoot := "http://127.0.0.1:8000", "";
      posTolPx, angTolDeg, scaleLockDefault, anchorScoreMin := 1.0, 0.5, true, 85;
      heatmapOverlayOpacity := 0.6;
    }

    /** Merge(this, source). */
    method Merge(source: FileSettings)
      modifies this
      ensures Value() == Merged(old(Value()), source)
    {
      baseUrl := TextOr(source.baseUrl, baseUrl);
      datasetRoot := TextOr(source.datasetRoot, datasetRoot);
      if source.analyze.Some? {
        var a := source.analyze.value;
        posTolPx := PositiveOr(a.posTolPx, posTolPx);
        angTolDeg := PositiveOr(a.angTolDeg, angTolDeg);
        scaleLockDefault := a.scaleLockDefault;
        anchorScoreMin := PositiveIntOr(a.anchorScoreMin, anchorScoreMin);
      }
      heatmapOverlayOpacity := OpacityOr(source.heatmapOverlayOpacity, heatmapOverlayOpacity);
    }

    /** ApplyEnvironmentOverrides(this). */
    method ApplyEnvironmentOverrides(env: Environment)
      modifies this
      ensures Value() == Overridden(old(Value()), env)
    {
      baseUrl := Else(StringOverride(env.backendBaseUrl), baseUrl);
      datasetRoot := Else(StringOverride(env.datasetRoot), datasetRoot);
      posTolPx := Else(env.posTolPx, posTolPx);
      angTolDeg := Else(env.angTolDeg, angTolDeg);
      scaleLockDefault := Else(BoolOverride(env.scaleLockDefault), scaleLockDefault);
      anchorScoreMin := Else(IntOverride(env.anchorScoreMin), anchorScoreMin);
      if env.heatmapOpacity.Some? {
        heatmapOverlayOpacity := Clamp01(env.heatmapOpacity.value);
      }
    }
  }

  /**
   * AppConfigLoader.Load: a new config, each settings file that exists and
   * deserialises merged over it in order, then the environment overrides.
   */
  method Load(files: seq<Option<FileSettings>>, env: Environment) returns (config: AppConfig)
    ensures fresh(config)
    ensures config.Value() == Loaded(files, env)
  {
    config := new AppConfig();
    for i := 0 to |files|
      invariant MergedAll(config.Value(), files[i..]) == MergedAll(Defaults, files)
    {
      MergedAllStep(config.Value(), files, i);
      if files[i].Some? {
        config.Merge(files[i].value);
      }
    }
    config.ApplyEnvironmentOverrides(env);
  }
}
