/**
 * InspectionRoiConfig: the settings of one of the four inspection slots.
 * Its Id, Name and ModelKey are never blank: a blank value given to their
 * setters is replaced by the default derived from the slot index. Changing
 * the model key or the dataset path invalidates the fitted memory (HasFitOk).
 */
module RoiConfig {
  import opened Wrappers
  import opened Text
  import opened Roi

  datatype MasterAnchorChoice = Master1 | Master2 | Mid

  function DefaultId(index: int): string { "Inspection_" + IntToString(index) }
  function DefaultName(index: int): string { "Inspection " + IntToString(index) }
  function DefaultModelKey(index: int): string { "inspection-" + IntToString(index) }

  /** A string whose first character is a letter is not blank. */
  lemma LeadingLetterNotBlank(s: string)
    requires |s| > 0 && IsAsciiLetter(s[0])
    ensures !IsBlank(s)
  {
  }

  lemma DefaultsNotBlank(index: int)
    ensures !IsBlank(DefaultId(index)) && !IsBlank(DefaultName(index)) && !IsBlank(DefaultModelKey(index))
  {
    LeadingLetterNotBlank(DefaultId(index));
    LeadingLetterNotBlank(DefaultName(index));
    LeadingLetterNotBlank(DefaultModelKey(index));
  }

  /** The value given to a defaulted setter, or the default when it is blank. */
  function OrDefault(value: string, default: string): (r: string)
    ensures !IsBlank(default) ==> !IsBlank(r)
    ensures !IsBlank(value) ==> r == value
    ensures IsBlank(value) ==> r == default
  {
    if IsBlank(value) then default else value
  }

  /** The persisted and displayed state of a slot (the preview collections are left out). */
  datatype ConfigValue = ConfigValue(
    index: int, id: string, name: string, enabled: bool, isEditable: bool,
    modelKey: string, datasetPath: Option<string>, trainMemoryFit: bool,
    calibratedThreshold: Option<real>, thresholdDefault: real, threshold: real,
    shape: RoiShape, lastScore: Option<real>, lastResultOk: Option<bool>,
    lastEvaluatedAt: Option<int>, datasetReady: bool, isDatasetLoading: bool,
    datasetStatus: string, datasetOkCount: int, datasetKoCount: int,
    hasFitOk: bool, anchorMaster: MasterAnchorChoice,
    baseImgW: Option<real>, baseImgH: Option<real>)

  /** Id, Name and ModelKey are never blank. */
  predicate ValidValue(v: ConfigValue)
  {
    !IsBlank(v.id) && !IsBlank(v.name) && !IsBlank(v.modelKey)
  }

  /** string.Equals(a, b, OrdinalIgnoreCase) on nullable strings. */
  predicate SamePathIgnoreCase(a: Option<string>, b: Option<string>)
  {
    (a.None? && b.None?) || (a.Some? && b.Some? && EqualsIgnoreCase(a.value, b.value))
  }

  /** The state new InspectionRoiConfig(index) starts in: slots 1 and 2 enabled, names from the index. */
  function Initial(idx: int): (v: ConfigValue)
    ensures ValidValue(v)
    ensures v.index == idx && v.enabled == (idx <= 2) && !v.hasFitOk
  {
    DefaultsNotBlank(idx);
    ConfigValue(idx, DefaultId(idx), DefaultName(idx), idx <= 2, false,
                DefaultModelKey(idx), None, false, None, 0.5, 0.0, Rectangle,
                None, None, None, false, false, "", 0, 0, false, Master1, None, None)
  }

  /** The Id setter: a blank value stores the default Id. */
  function WithId(v: ConfigValue, value: string): (r: ConfigValue)
    ensures ValidValue(v) ==> ValidValue(r)
    ensures !IsBlank(value) ==> r.id == value
    ensures r.(id := v.id) == v
  {
    DefaultsNotBlank(v.index);
    v.(id := OrDefault(value, DefaultId(v.index)))
  }

  /** The Name setter: a blank value stores the default Name. */
  function WithName(v: ConfigValue, value: string): (r: ConfigValue)
    ensures ValidValue(v) ==> ValidValue(r)
    ensures !IsBlank(value) ==> r.name == value
    ensures r.(name := v.name) == v
  {
    DefaultsNotBlank(v.index);
    v.(name := OrDefault(value, DefaultName(v.index)))
  }

  /**
   * The ModelKey setter: a blank value stores the default key; a key that
   * differs (ordinally) from the current one clears HasFitOk.
   */
  function WithModelKey(v: ConfigValue, value: string): (r: ConfigValue)
    ensures ValidValue(v) ==> ValidValue(r)
    ensures !IsBlank(value) ==> r.modelKey == value
    ensures r.hasFitOk <==> v.hasFitOk && r.modelKey == v.modelKey
    ensures r.(modelKey := v.modelKey, hasFitOk := v.hasFitOk) == v
  {
    DefaultsNotBlank(v.index);
    var k := OrDefault(value, DefaultModelKey(v.index));
    if k == v.modelKey then v else v.(modelKey := k, hasFitOk := false)
  }

  /**
   * The DatasetPath setter, given the path already normalised: a path
   * that differs other than in letter case is stored and clears HasFitOk.
   */
  function WithDatasetPath(v: ConfigValue, normalized: Option<string>): (r: ConfigValue)
    ensures SamePathIgnoreCase(v.datasetPath, normalized) ==> r == v
    ensures !SamePathIgnoreCase(v.datasetPath, normalized) ==> r.datasetPath == normalized && !r.hasFitOk
    ensures r.(datasetPath := v.datasetPath, hasFitOk := v.hasFitOk) == v
  {
    if SamePathIgnoreCase(v.datasetPath, normalized) then v
    else v.(datasetPath := normalized, hasFitOk := false)
  }

  /**
   * Clone's object initialiser: a new slot with the same index whose
   * properties are assigned through their setters in the source's order,
   * HasFitOk after ModelKey and DatasetPath.
   */
  function CloneValue(v: ConfigValue): ConfigValue
  {
    var c := Initial(v.index);
    var c := WithId(c, v.id);
    var c := WithName(c, v.name);
    var c := c.(enabled := v.enabled, isEditable := v.isEditable);
    var c := WithModelKey(c, v.modelKey);
    var c := WithDatasetPath(c, v.datasetPath);
    c.(trainMemoryFit := v.trainMemoryFit, calibratedThreshold := v.calibratedThreshold,
       thresholdDefault := v.thresholdDefault, threshold := v.threshold, shape := v.shape,
       lastScore := v.lastScore, lastResultOk := v.lastResultOk,
       lastEvaluatedAt := v.lastEvaluatedAt, datasetReady := v.datasetReady,
       isDatasetLoading := v.isDatasetLoading, datasetStatus := v.datasetStatus,
       datasetOkCount := v.datasetOkCount, datasetKoCount := v.datasetKoCount,
       hasFitOk := v.hasFitOk, anchorMaster := v.anchorMaster,
       baseImgW := v.baseImgW, baseImgH := v.baseImgH)
  }

  /**
   * Clone copies every property: the setters keep the non-blank values, and
   * HasFitOk, copied last, undoes the resets ModelKey and DatasetPath made.
   */
  lemma CloneIsCopy(v: ConfigValue)
    requires ValidValue(v)
    ensures CloneValue(v) == v
  {
    var c := Initial(v.index);
    var c1 := WithId(c, v.id);
    var c2 := WithName(c1, v.name);
    var c3 := c2.(enabled := v.enabled, isEditable := v.isEditable);
    var c4 := WithModelKey(c3, v.modelKey);
    assert c4.modelKey == v.modelKey;
    var c5 := WithDatasetPath(c4, v.datasetPath);
    assert c5.datasetPath == v.datasetPath by {
      if SamePathIgnoreCase(c4.datasetPath, v.datasetPath) {
        assert c4.datasetPath == None;
      }
    }
  }

  class InspectionRoiConfig {
    var index: int
    var id: string
    var name: string
    var enabled: bool
    var isEditable: bool
    var modelKey: string
    var datasetPath: Option<string>
    var trainMemoryFit: bool
    var calibratedThreshold: Option<real>
    var thresholdDefault: real
    var threshold: real
    var shape: RoiShape
    var lastScore: Option<real>
    var lastResultOk: Option<bool>
    var lastEvaluatedAt: Option<int>
    var datasetReady: bool
    var isDatasetLoading: bool
    var datasetStatus: string
    var datasetOkCount: int
    var datasetKoCount: int
    var hasFitOk: bool
    var anchorMaster: MasterAnchorChoice
    var baseImgW: Option<real>
    var baseImgH: Option<real>

    function Value(): ConfigValue
      reads this
    {
      ConfigValue(index, id, name, enabled, isEditable, modelKey, datasetPath, trainMemoryFit,
                  calibratedThreshold, thresholdDefault, threshold, shape, lastScore, lastResultOk,
                  lastEvaluatedAt, datasetReady, isDatasetLoading, datasetStatus, datasetOkCount,
                  datasetKoCount, hasFitOk, anchorMaster, baseImgW, baseImgH)
    }

    predicate Valid()
      reads this
    {
      ValidValue(Value())
    }

    /** new InspectionRoiConfig(index). */
    constructor(idx: int)
      ensures Valid()
      ensures Value() == Initial(idx)
    {
      var v := Initial(idx);
      index, id, name, enabled, isEditable := v.index, v.id, v.name, v.enabled, v.isEditable;
      modelKey, datasetPath, trainMemoryFit := v.modelKey, v.datasetPath, v.trainMemoryFit;
      calibratedThreshold, thresholdDefault, threshold := v.calibratedThreshold, v.thresholdDefault, v.threshold;
      shape, lastScore, lastResultOk, lastEvaluatedAt := v.shape, v.lastScore, v.lastResultOk, v.lastEvaluatedAt;
      datasetReady, isDatasetLoading, datasetStatus := v.datasetReady, v.isDatasetLoading, v.datasetStatus;
      datasetOkCount, datasetKoCount, hasFitOk := v.datasetOkCount, v.datasetKoCount, v.hasFitOk;
      anchorMaster, baseImgW, baseImgH := v.anchorMaster, v.baseImgW, v.baseImgH;
    }

    /** A slot holding exactly the given properties. */
    constructor FromValue(v: ConfigValue)
      ensures Value() == v
    {
      index, id, name, enabled, isEditable := v.index, v.id, v.name, v.enabled, v.isEditable;
      modelKey, datasetPath, trainMemoryFit := v.modelKey, v.datasetPath, v.trainMemoryFit;
      calibratedThreshold, thresholdDefault, threshold := v.calibratedThreshold, v.thresholdDefault, v.threshold;
      shape, lastScore, lastResultOk, lastEvaluatedAt := v.shape, v.lastScore, v.lastResultOk, v.lastEvaluatedAt;
      datasetReady, isDatasetLoading, datasetStatus := v.datasetReady, v.isDatasetLoading, v.datasetStatus;
      datasetOkCount, datasetKoCount, hasFitOk := v.datasetOkCount, v.datasetKoCount, v.hasFitOk;
      anchorMaster, baseImgW, baseImgH := v.anchorMaster, v.baseImgW, v.baseImgH;
    }

    method SetId(value: string)
      requires Valid()
      modifies this
      ensures Valid()
      ensures Value() == WithId(old(Value()), value)
    {
      DefaultsNotBlank(index);
      var newValue := OrDefault(value, DefaultId(index));
      if id != newValue {
        id := newValue;
      }
    }

    method SetName(value: string)
      requires Valid()
      modifies this
      ensures Valid()
      ensures Value() == WithName(old(Value()), value)
    {
      DefaultsNotBlank(index);
      var newValue := OrDefault(value, DefaultName(index));
      if name != newValue {
        name := newValue;
      }
    }

    method SetModelKey(value: string)
      requires Valid()
      modifies this
      ensures Valid()
      ensures Value() == WithModelKey(old(Value()), value)
    {
      DefaultsNotBlank(index);
      var newValue := OrDefault(value, DefaultModelKey(index));
      if modelKey != newValue {
        modelKey := newValue;
        hasFitOk := false;
      }
    }

    method SetDatasetPath(normalized: Option<string>)
      modifies this
      ensures Value() == WithDatasetPath(old(Value()), normalized)
    {
      if !SamePathIgnoreCase(datasetPath, normalized) {
        datasetPath := normalized;
        hasFitOk := false;
      }
    }

    /** OkCount is another name for DatasetOkCount. */
    function OkCount(): (n: int)
      reads this
      ensures n == Value().datasetOkCount
    {
      datasetOkCount
    }

    /** NgCount is another name for DatasetKoCount. */
    function NgCount(): (n: int)
      reads this
      ensures n == Value().datasetKoCount
    {
      datasetKoCount
    }

    method SetOkCount(v: int)
      modifies this
      ensures OkCount() == v
      ensures Value() == old(Value()).(datasetOkCount := v)
    {
      datasetOkCount := v;
    }

    method SetNgCount(v: int)
      modifies this
      ensures NgCount() == v
      ensures Value() == old(Value()).(datasetKoCount := v)
    {
      datasetKoCount := v;
    }

    /** MarkEvaluated; `now` stands for DateTime.UtcNow. */
    method MarkEvaluated(ok: Option<bool>, score: Option<real>, now: int)
      modifies this
      ensures Value() == old(Value()).(lastResultOk := ok, lastScore := score, lastEvaluatedAt := Some(now))
    {
      lastResultOk := ok;
      lastScore := score;
      lastEvaluatedAt := Some(now);
    }

    /** Clone: a new slot built as CloneValue describes, hence equal to this one. */
    method Clone() returns (c: InspectionRoiConfig)
      requires Valid()
      ensures fresh(c)
      ensures c.Valid()
      ensures c.Value() == Value()
    {
      CloneIsCopy(Value());
      c := new InspectionRoiConfig.FromValue(CloneValue(Value()));
    }
  }
}
