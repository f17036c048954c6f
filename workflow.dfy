/**
 * Helpers of the GUI's workflow view model: the batch grid's per-ROI cells
 * and row verdict, the canonical inspection keys, dataset label parsing,
 * the disc's global verdict, the Youden-index threshold chosen from scored
 * samples, the pixel rectangle of an ROI, and the clamped settings.
 */
module Workflow {
  import opened Wrappers
  import opened Text
  import opened Numeric
  import opened Roi
  import opened RoiConfig

  /** The state of one ROI cell of the batch grid (AnchorFail and Skipped are set outside this model). */
  datatype BatchCellStatus = Unknown | Ok | Nok | AnchorFail | Skipped

  /**
   * The row verdict: none while every cell is Unknown, false once a cell is
   * Nok, else true (an AnchorFail or Skipped cell alone counts as passing).
   */
  function ComputeBatchRowOk(statuses: seq<BatchCellStatus>): (r: Option<bool>)
    ensures r == None <==> forall i :: 0 <= i < |statuses| ==> statuses[i] == Unknown
    ensures r == Some(false) <==> exists i :: 0 <= i < |statuses| && statuses[i] == Nok
    ensures r == Some(true) <==>
              (exists i :: 0 <= i < |statuses| && statuses[i] != Unknown)
              && forall i :: 0 <= i < |statuses| ==> statuses[i] != Nok
  {
    if forall i :: 0 <= i < |statuses| ==> statuses[i] == Unknown then None
    else if exists i :: 0 <= i < |statuses| && statuses[i] == Nok then Some(false)
    else Some(true)
  }

  function StatusOf(isOk: Option<bool>): BatchCellStatus
  {
    match isOk
    case None => Unknown
    case Some(b) => if b then Ok else Nok
  }

  /** One image of the batch grid with its four ROI cells. */
  class BatchRow {
    const fullPath: string
    var indexOneBased: int
    var roi1: BatchCellStatus
    var roi2: BatchCellStatus
    var roi3: BatchCellStatus
    var roi4: BatchCellStatus

    function Statuses(): (s: seq<BatchCellStatus>)
      reads this
      ensures |s| == 4
    {
      [roi1, roi2, roi3, roi4]
    }

    constructor(path: string)
      ensures fullPath == path && indexOneBased == 0
      ensures Statuses() == [Unknown, Unknown, Unknown, Unknown]
    {
      fullPath := path;
      indexOneBased := 0;
      roi1, roi2, roi3, roi4 := Unknown, Unknown, Unknown, Unknown;
    }
  }

  /** The settings of the workflow view model that its setters clamp, and the batch row verdict. */
  class WorkflowSettings {
    var batchRowOk: Option<bool>
    var heatmapCutoffPercent: int
    var batchPausePerRoiSeconds: real

    static const BatchPauseMinSeconds: real := 0.0
    static const BatchPauseMaxSeconds: real := 10.0

    /** The cutoff is a percentage and the pause lies within its bounds. */
    predicate Valid()
      reads this
    {
      0 <= heatmapCutoffPercent <= 100
      && BatchPauseMinSeconds <= batchPausePerRoiSeconds <= BatchPauseMaxSeconds
    }

    constructor()
      ensures Valid()
      ensures batchRowOk == None && heatmapCutoffPercent == 50 && batchPausePerRoiSeconds == 0.0
    {
      batchRowOk := None;
      heatmapCutoffPercent := 50;
      batchPausePerRoiSeconds := 0.0;
    }

    /**
     * SetBatchCellStatus: cell `roiIndex` (0..3) of the row takes the
     * status of `isOk`; any other index changes no cell. The row verdict is
     * recomputed either way.
     */
    method SetBatchCellStatus(row: BatchRow, roiIndex: int, isOk: Option<bool>)
      modifies this, row
      ensures 0 <= roiIndex < 4 ==> row.Statuses() == old(row.Statuses())[roiIndex := StatusOf(isOk)]
      ensures !(0 <= roiIndex < 4) ==> row.Statuses() == old(row.Statuses())
      ensures row.indexOneBased == old(row.indexOneBased)
      ensures batchRowOk == ComputeBatchRowOk(row.Statuses())
      ensures heatmapCutoffPercent == old(heatmapCutoffPercent)
      ensures batchPausePerRoiSeconds == old(batchPausePerRoiSeconds)
    {
      var status := StatusOf(isOk);
      if roiIndex == 0 {
        row.roi1 := status;
      } else if roiIndex == 1 {
        row.roi2 := status;
      } else if roiIndex == 2 {
        row.roi3 := status;
      } else if roiIndex == 3 {
        row.roi4 := status;
      }
      batchRowOk := ComputeBatchRowOk(row.Statuses());
    }

    /** The HeatmapCutoffPercent setter: the value is clamped to 0..100. */
    method SetHeatmapCutoffPercent(value: int)
      requires Valid()
      modifies this
      ensures Valid()
      ensures heatmapCutoffPercent == ClampInt(value, 0, 100)
      ensures 0 <= value <= 100 ==> heatmapCutoffPercent == value
      ensures batchRowOk == old(batchRowOk) && batchPausePerRoiSeconds == old(batchPausePerRoiSeconds)
    {
      var clamped := ClampInt(value, 0, 100);
      if heatmapCutoffPercent != clamped {
        heatmapCutoffPercent := clamped;
      }
    }

    /**
     * The BatchPausePerRoiSeconds setter: the value is clamped to 0..10 s,
     * and a change smaller than 0.0001 s is ignored.
     */
    method SetBatchPausePerRoiSeconds(value: real)
      requires Valid()
      modifies this
      ensures Valid()
      ensures var c := ClampReal(value, BatchPauseMinSeconds, BatchPauseMaxSeconds);
              batchPausePerRoiSeconds == (if Abs(old(batchPausePerRoiSeconds) - c) < 0.0001
                                          then old(batchPausePerRoiSeconds) else c)
      ensures batchRowOk == old(batchRowOk) && heatmapCutoffPercent == old(heatmapCutoffPercent)
    {
      var clamped := value;
      if clamped < BatchPauseMinSeconds {
        clamped := BatchPauseMinSeconds;
      } else if clamped > BatchPauseMaxSeconds {
        clamped := BatchPauseMaxSeconds;
      }
      if Abs(batchPausePerRoiSeconds - clamped) < 0.0001 {
        return;
      }
      batchPausePerRoiSeconds := clamped;
    }
  }

  function Abs(x: real): real { if x < 0.0 then -x else x }

  /** The pause stored is always within 0.0001 s of the clamped request. */
  lemma PauseCloseToRequest(old_: real, value: real)
    requires 0.0 <= old_ <= 10.0
    ensures var c := ClampReal(value, 0.0, 10.0);
            var stored := if Abs(old_ - c) < 0.0001 then old_ else c;
            0.0 <= stored <= 10.0 && Abs(stored - c) < 0.0001
  {
  }

  // ---- Inspection keys: the pattern inspection[\s_\-]?([1-4]), ignoring case ----

  predicate IsSlotDigit(c: char) { '1' <= c <= '4' }

  predicate IsKeySeparator(c: char) { IsWhiteSpace(c) || c == '_' || c == '-' }

  /** The slot digit of a match of the pattern, ignoring case, starting at position `i`, if one starts there. */
  function KeyMatchAt(s: string, i: nat): (r: Option<char>)
    requires i <= |s|
    ensures r.Some? ==> IsSlotDigit(r.value)
  {
    if i + 10 < |s| && Lower(s[i..i + 10]) == "inspection" then
      if IsSlotDigit(s[i + 10]) then Some(s[i + 10])
      else if IsKeySeparator(s[i + 10]) && i + 11 < |s| && IsSlotDigit(s[i + 11]) then Some(s[i + 11])
      else None
    else None
  }

  /** The slot digit of the leftmost match at or after position `i` (Regex.Match). */
  function FindKeyDigit(s: string, i: nat): (r: Option<char>)
    requires i <= |s|
    ensures r.Some? ==> IsSlotDigit(r.value)
    ensures r.None? ==> forall j :: i <= j <= |s| ==> KeyMatchAt(s, j).None?
    ensures r.Some? ==> exists j :: i <= j <= |s| && KeyMatchAt(s, j) == r && forall k :: i <= k < j ==> KeyMatchAt(s, k).None?
    decreases |s| - i
  {
    if KeyMatchAt(s, i).Some? then KeyMatchAt(s, i)
    else if i == |s| then None
    else FindKeyDigit(s, i + 1)
  }

  function CanonicalKey(d: char): string { "inspection-" + [d] }

  /** A string of the form inspection-N with N a slot digit. */
  predicate IsCanonicalKey(s: string)
  {
    |s| == 12 && IsSlotDigit(s[11]) && s == CanonicalKey(s[11])
  }

  lemma CanonicalKeyIsCanonical(d: char)
    requires IsSlotDigit(d)
    ensures IsCanonicalKey(CanonicalKey(d))
  {
    assert CanonicalKey(d)[11] == d;
  }

  /**
   * NormalizeInspectionKey (WorkflowViewModel): the slot named in the key
   * when the pattern matches, else the slot index clamped to 1..4.
   */
  function NormalizeInspectionKey(key: string, index: int): (r: string)
    ensures exists d :: IsSlotDigit(d) && r == CanonicalKey(d)
    ensures !IsBlank(key) && FindKeyDigit(key, 0).Some? ==> r == CanonicalKey(FindKeyDigit(key, 0).value)
    ensures (IsBlank(key) || FindKeyDigit(key, 0).None?) ==> r == CanonicalKey(DigitChar(ClampInt(index, 1, 4)))
  {
    if !IsBlank(key) && FindKeyDigit(key, 0).Some? then CanonicalKey(FindKeyDigit(key, 0).value)
    else CanonicalKey(DigitChar(ClampInt(index, 1, 4)))
  }

  /** A canonical key is recognised as itself. */
  lemma CanonicalKeyMatches(d: char)
    requires IsSlotDigit(d)
    ensures !IsBlank(CanonicalKey(d))
    ensures FindKeyDigit(CanonicalKey(d), 0) == Some(d)
  {
    var s := CanonicalKey(d);
    assert s[0] == 'i' && !IsWhiteSpace(s[0]);
    assert s[0..10] == "inspection";
    assert KeyMatchAt(s, 0) == Some(d);
  }

  /** Normalising a normalised key gives it back, whatever index comes with it. */
  lemma NormalizeInspectionKeyIdempotent(key: string, index: int, other: int)
    ensures NormalizeInspectionKey(NormalizeInspectionKey(key, index), other) == NormalizeInspectionKey(key, index)
  {
    var r := NormalizeInspectionKey(key, index);
    var d :| IsSlotDigit(d) && r == CanonicalKey(d);
    CanonicalKeyMatches(d);
  }

  // ---- Dataset labels ----

  const OkLabels: set<string> := {"ok", "good", "pass", "1", "true"}
  const KoLabels: set<string> := {"ko", "ng", "nok", "fail", "0", "false"}

  lemma LabelSetsDisjoint()
    ensures OkLabels * KoLabels == {}
  {
  }

  /** The label as compared: trimmed of whitespace, then of quotes, then lower-cased. */
  function NormalizedLabel(labelRaw: string): string
  {
    Lower(TrimChar(Trim(labelRaw), '"'))
  }

  /** TryParseDatasetLabel: true for an OK label, false for a KO label, none for anything else. */
  function TryParseDatasetLabel(labelRaw: string): (r: Option<bool>)
    ensures IsBlank(labelRaw) ==> r == None
    ensures r == Some(true) <==> !IsBlank(labelRaw) && NormalizedLabel(labelRaw) in OkLabels
    ensures r == Some(false) <==> !IsBlank(labelRaw) && NormalizedLabel(labelRaw) in KoLabels
  {
    if IsBlank(labelRaw) then None
    else
      var n := NormalizedLabel(labelRaw);
      if n in OkLabels then OkLabelIsNotKo(n); Some(true)
      else if n in KoLabels then Some(false)
      else None
  }

  lemma OkLabelIsNotKo(n: string)
    requires n in OkLabels
    ensures n !in KoLabels
  {
    LabelSetsDisjoint();
  }

  // ---- The disc's global verdict ----

  /**
   * CalcGlobalDiskOk: none without ROI list or enabled ROI; false when an
   * enabled ROI failed; true when every enabled ROI passed; none otherwise.
   */
  function CalcGlobalDiskOk(rois: Option<seq<ConfigValue>>): (r: Option<bool>)
    ensures rois.None? ==> r == None
    ensures rois.Some? && (forall i :: 0 <= i < |rois.value| ==> !rois.value[i].enabled) ==> r == None
    ensures r == Some(false) <==>
              rois.Some? && exists i :: 0 <= i < |rois.value| && rois.value[i].enabled
                                        && rois.value[i].lastResultOk == Some(false)
    ensures r == Some(true) <==>
              rois.Some? && (exists i :: 0 <= i < |rois.value| && rois.value[i].enabled)
              && forall i :: 0 <= i < |rois.value| && rois.value[i].enabled ==> rois.value[i].lastResultOk == Some(true)
  {
    match rois
    case None => None
    case Some(list) =>
      if forall i :: 0 <= i < |list| ==> !list[i].enabled then None
      else if exists i :: 0 <= i < |list| && list[i].enabled && list[i].lastResultOk == Some(false) then Some(false)
      else if forall i :: 0 <= i < |list| && list[i].enabled ==> list[i].lastResultOk == Some(true) then Some(true)
      else None
  }

  // ---- The pixel rectangle of an ROI ----

  datatype Int32Rect = Int32Rect(x: int, y: int, w: int, h: int)

  /** The largest pixel coordinate of an image side: Math.Max(0, round(side)). */
  function PixelLimit(side: real): nat
  {
    if RoundHalfEven(side) > 0 then RoundHalfEven(side) else 0
  }

  /** Math.Max(0, (int)Math.Round(v)). */
  function RoundNonNeg(v: real): nat
  {
    if RoundHalfEven(v) > 0 then RoundHalfEven(v) else 0
  }

  /** Left, top, width, height of the ROI before clamping, or None for a circle without radius. */
  function RawBounds(v: RoiValue): Option<(real, real, real, real)>
  {
    if v.shape != Rectangle then
      if v.r <= 0.0 then None
      else Some((v.cx - v.r, v.cy - v.r, v.r * 2.0, v.r * 2.0))
    else Some((v.x - v.width / 2.0, v.y - v.height / 2.0, v.width, v.height))
  }

  /** Clamps both ends of one axis into [0, side] when the base side is known and positive. */
  function ClampAxis(lo: real, hi: real, side: Option<real>): (real, real)
  {
    if side.Some? && side.value > 0.0 then (ClampReal(lo, 0.0, side.value), ClampReal(hi, 0.0, side.value))
    else (lo, hi)
  }

  /** Shortens one axis so that it ends at the image limit; None when it starts beyond it. */
  function FitAxis(start: nat, len: nat, side: Option<real>): Option<nat>
  {
    if side.Some? && side.value > 0.0 then
      var limit := PixelLimit(side.value);
      if start > limit then None
      else if start + len > limit then Some(limit - start)
      else Some(len)
    else Some(len)
  }

  /**
   * BuildImageRectPx: the whole-pixel rectangle an ROI covers in its base
   * image, or None when the ROI is missing or degenerate or lies outside
   * the image. Every returned rectangle is non-empty, starts at a
   * non-negative pixel and ends inside a known image size.
   */
  function BuildImageRectPx(roi: Option<RoiValue>): (r: Option<Int32Rect>)
    ensures roi.None? ==> r.None?
    ensures roi.Some? && roi.value.shape != Rectangle && roi.value.r <= 0.0 ==> r.None?
    ensures r.Some? ==> r.value.w > 0 && r.value.h > 0 && r.value.x >= 0 && r.value.y >= 0
    ensures r.Some? && roi.value.baseImgW.Some? && roi.value.baseImgW.value > 0.0 ==>
              r.value.x + r.value.w <= PixelLimit(roi.value.baseImgW.value)
    ensures r.Some? && roi.value.baseImgH.Some? && roi.value.baseImgH.value > 0.0 ==>
              r.value.y + r.value.h <= PixelLimit(roi.value.baseImgH.value)
  {
    if roi.None? then None
    else
      var v := roi.value;
      match RawBounds(v)
      case None => None
      case Some(b) =>
        var (left0, top0, width, height) := b;
        if width <= 0.0 || height <= 0.0 then None
        else
          var (left, right) := ClampAxis(left0, left0 + width, v.baseImgW);
          var (top, bottom) := ClampAxis(top0, top0 + height, v.baseImgH);
          if right - left <= 0.0 || bottom - top <= 0.0 then None
          else
            var x := RoundNonNeg(left);
            var y := RoundNonNeg(top);
            match (FitAxis(x, RoundNonNeg(right - left), v.baseImgW), FitAxis(y, RoundNonNeg(bottom - top), v.baseImgH))
            case (Some(w), Some(h)) => if w <= 0 || h <= 0 then None else Some(Int32Rect(x, y, w, h))
            case _ => None
  }

  /** A rectangle on whole pixels inside an image of unknown size maps to itself. */
  lemma WholePixelRectangleIsKept(v: RoiValue, left: nat, top: nat, w: nat, h: nat)
    requires v.shape == Rectangle && v.baseImgW.None? && v.baseImgH.None?
    requires w > 0 && h > 0
    requires v.width == w as real && v.height == h as real
    requires v.x == left as real + v.width / 2.0 && v.y == top as real + v.height / 2.0
    ensures BuildImageRectPx(Some(v)) == Some(Int32Rect(left, top, w, h))
  {
    RoundOfInteger(left);
    RoundOfInteger(top);
    RoundOfInteger(w);
    RoundOfInteger(h);
  }

  lemma RoundOfInteger(n: int)
    ensures RoundHalfEven(n as real) == n
  {
  }

  // ---- The Youden-index threshold ----

  datatype Scored = Scored(score: real, isOk: bool)

  /** The OK scores tagged OK followed by the NG scores tagged NG. */
  function Tagged(okScores: seq<real>, ngScores: seq<real>): (r: seq<Scored>)
    ensures |r| == |okScores| + |ngScores|
  {
    seq(|okScores|, i requires 0 <= i < |okScores| => Scored(okScores[i], true))
    + seq(|ngScores|, i requires 0 <= i < |ngScores| => Scored(ngScores[i], false))
  }

  predicate SortedByScore(s: seq<Scored>)
  {
    forall i, j :: 0 <= i < j < |s| ==> s[i].score <= s[j].score
  }

  /** Inserts `x` after every element whose score is at most its own (keeps a sort stable). */
  function InsertByScore(x: Scored, a: seq<Scored>): (r: seq<Scored>)
    requires SortedByScore(a)
    ensures SortedByScore(r) && multiset(r) == multiset(a) + multiset{x} && |r| == |a| + 1
  {
    if a == [] then [x]
    else if a[|a| - 1].score <= x.score then a + [x]
    else
      var init := a[..|a| - 1];
      var t := InsertByScore(x, init);
      assert a == init + [a[|a| - 1]];
      assert forall k :: 0 <= k < |init| ==> init[k].score <= a[|a| - 1].score;
      ScoresBoundedByMembers(t, init, x, a[|a| - 1].score);
      SortedSnoc(t, a[|a| - 1]);
      t + [a[|a| - 1]]
  }

  /** An upper bound of the scores in `s` and of `x` bounds every sequence holding their elements. */
  lemma ScoresBoundedByMembers(t: seq<Scored>, s: seq<Scored>, x: Scored, hi: real)
    requires multiset(t) == multiset(s) + multiset{x}
    requires x.score <= hi && forall k :: 0 <= k < |s| ==> s[k].score <= hi
    ensures forall k :: 0 <= k < |t| ==> t[k].score <= hi
  {
    forall k | 0 <= k < |t|
      ensures t[k].score <= hi
    {
      assert t[k] in multiset(t);
      if t[k] != x {
        assert t[k] in multiset(s);
        var i :| 0 <= i < |s| && s[i] == t[k];
      }
    }
  }

  lemma SortedSnoc(t: seq<Scored>, y: Scored)
    requires SortedByScore(t) && forall k :: 0 <= k < |t| ==> t[k].score <= y.score
    ensures SortedByScore(t + [y])
  {
    var r := t + [y];
    forall i, j | 0 <= i < j < |r|
      ensures r[i].score <= r[j].score
    {
      assert r[i] == t[i] || i == |t|;
    }
  }

  /** OrderBy(pair => pair.Score): a stable sort by score. */
  function SortByScore(s: seq<Scored>): (r: seq<Scored>)
    ensures SortedByScore(r) && multiset(r) == multiset(s) && |r| == |s|
  {
    if s == [] then []
    else
      assert s == s[..|s| - 1] + [s[|s| - 1]];
      InsertByScore(s[|s| - 1], SortByScore(s[..|s| - 1]))
  }

  /** The elements of `s` whose score is `v`, in their order in `s`. */
  function WithScore(s: seq<Scored>, v: real): seq<Scored>
  {
    if s == [] then [] else WithScore(s[..|s| - 1], v) + (if s[|s| - 1].score == v then [s[|s| - 1]] else [])
  }

  /** Appending one element adds it to the elements of its score. */
  lemma WithScoreSnoc(t: seq<Scored>, y: Scored, v: real)
    ensures WithScore(t + [y], v) == WithScore(t, v) + (if y.score == v then [y] else [])
  {
    assert (t + [y])[..|t|] == t;
  }

  /** Inserting `x` puts it after every element of its own score: the elements of each score keep their order. */
  lemma {:induction false} InsertByScoreIsStable(x: Scored, a: seq<Scored>, v: real)
    requires SortedByScore(a)
    ensures WithScore(InsertByScore(x, a), v) == WithScore(a, v) + (if x.score == v then [x] else [])
  {
    if a == [] {
      WithScoreSnoc([], x, v);
    } else if a[|a| - 1].score <= x.score {
      WithScoreSnoc(a, x, v);
    } else {
      var init := a[..|a| - 1];
      InsertByScoreIsStable(x, init, v);
      StableBeforeLarger(InsertByScore(x, init), init, a[|a| - 1], x, v);
      assert a == init + [a[|a| - 1]];
    }
  }

  /**
   * The step where `x` goes before the last element: if `t` adds `x` to the
   * elements of each score of `init`, then `t` followed by a larger-scored
   * `last` adds `x` to those of `init` followed by `last`.
   */
  lemma StableBeforeLarger(t: seq<Scored>, init: seq<Scored>, last: Scored, x: Scored, v: real)
    requires x.score < last.score
    requires WithScore(t, v) == WithScore(init, v) + (if x.score == v then [x] else [])
    ensures WithScore(t + [last], v) == WithScore(init + [last], v) + (if x.score == v then [x] else [])
  {
    WithScoreSnoc(t, last, v);
    WithScoreSnoc(init, last, v);
    if x.score == v {
      assert last.score != v;
      calc {
        WithScore(t + [last], v);
        WithScore(t, v) + [];
        WithScore(init, v) + [x] + [];
        WithScore(init, v) + [] + [x];
        WithScore(init + [last], v) + [x];
      }
    } else {
      var tail := if last.score == v then [last] else [];
      calc {
        WithScore(t + [last], v);
        WithScore(t, v) + tail;
        WithScore(init, v) + [] + tail;
        WithScore(init, v) + tail;
        WithScore(init + [last], v);
        WithScore(init + [last], v) + [];
      }
    }
  }

  /** SortByScore is stable: for every score, the elements with that score keep their order. */
  lemma {:induction false} SortByScoreIsStable(s: seq<Scored>, v: real)
    ensures WithScore(SortByScore(s), v) == WithScore(s, v)
  {
    if s != [] {
      var init := s[..|s| - 1];
      SortByScoreIsStable(init, v);
      InsertByScoreIsStable(s[|s| - 1], SortByScore(init), v);
    }
  }

  function CountOk(s: seq<Scored>): (n: nat)
    ensures n <= |s|
  {
    if s == [] then 0 else CountOk(s[..|s| - 1]) + (if s[|s| - 1].isOk then 1 else 0)
  }

  /** The true- minus false-positive rate when the threshold is the score at `i` (samples after it count as above). */
  function YoudenJ(all: seq<Scored>, i: nat, totalOk: nat, totalNg: nat): real
    requires i < |all|
  {
    var okAbove := totalOk - CountOk(all[..i + 1]);
    var ngAbove := totalNg - (i + 1 - CountOk(all[..i + 1]));
    var tpr := if totalOk > 0 then okAbove as real / totalOk as real else 0.0;
    var fpr := if totalNg > 0 then ngAbove as real / totalNg as real else 0.0;
    tpr - fpr
  }

  /** `k` is the first index of greatest Youden index. */
  predicate IsBestIndex(all: seq<Scored>, k: nat, totalOk: nat, totalNg: nat)
  {
    k < |all|
    && (forall i :: 0 <= i < |all| ==> YoudenJ(all, i, totalOk, totalNg) <= YoudenJ(all, k, totalOk, totalNg))
    && (forall i :: 0 <= i < k ==> YoudenJ(all, i, totalOk, totalNg) < YoudenJ(all, k, totalOk, totalNg))
  }

  /** `thr` is the score at the first greatest Youden index of `all`. */
  ghost predicate IsYoudenThreshold(all: seq<Scored>, thr: real, totalOk: nat, totalNg: nat)
  {
    exists k: nat :: IsBestIndex(all, k, totalOk, totalNg) && thr == all[k].score
  }

  function Sum(s: seq<real>): real
  {
    if s == [] then 0.0 else Sum(s[..|s| - 1]) + s[|s| - 1]
  }

  function Mean(s: seq<real>): real
    requires |s| > 0
  {
    Sum(s) / |s| as real
  }

  lemma CountOkStep(s: seq<Scored>, i: nat)
    requires i < |s|
    ensures CountOk(s[..i + 1]) == CountOk(s[..i]) + (if s[i].isOk then 1 else 0)
  {
    assert s[..i + 1][..i] == s[..i];
  }

  /**
   * ComputeYoudenThreshold: the default without OK scores, the OK mean
   * without NG scores, else the score, in ascending order, at which the
   * Youden index is first greatest.
   */
  method ComputeYoudenThreshold(okScores: seq<real>, ngScores: seq<real>, defaultValue: real) returns (thr: real)
    ensures |okScores| == 0 ==> thr == defaultValue
    ensures |okScores| > 0 && |ngScores| == 0 ==> thr == Mean(okScores)
    ensures |okScores| > 0 && |ngScores| > 0 ==>
              IsYoudenThreshold(SortByScore(Tagged(okScores, ngScores)), thr, |okScores|, |ngScores|)
  {
    if |okScores| == 0 {
      return defaultValue;
    }
    if |ngScores| == 0 {
      return Mean(okScores);
    }
    var all := SortByScore(Tagged(okScores, ngScores));
    thr := BestYoudenScore(all, |okScores|, |ngScores|);
  }

  /** The scan over the sorted samples: the score at the first greatest Youden index. */
  method BestYoudenScore(all: seq<Scored>, totalOk: nat, totalNg: nat) returns (thr: real)
    requires |all| > 0
    ensures IsYoudenThreshold(all, thr, totalOk, totalNg)
  {
    var okAbove: int := totalOk;
    var ngAbove: int := totalNg;
    var bestJ: Option<real> := None;
    thr := 0.0;
    ghost var bestK: nat := 0;
    for i := 0 to |all|
      invariant okAbove == totalOk - CountOk(all[..i])
      invariant ngAbove == totalNg - (i - CountOk(all[..i]))
      invariant i == 0 <==> bestJ.None?
      invariant i > 0 ==> bestK < i && bestJ == Some(YoudenJ(all, bestK, totalOk, totalNg)) && thr == all[bestK].score
      invariant i > 0 ==> forall m :: 0 <= m < i ==> YoudenJ(all, m, totalOk, totalNg) <= YoudenJ(all, bestK, totalOk, totalNg)
      invariant i > 0 ==> forall m :: 0 <= m < bestK ==> YoudenJ(all, m, totalOk, totalNg) < YoudenJ(all, bestK, totalOk, totalNg)
    {
      CountOkStep(all, i);
      var current := all[i];
      if current.isOk {
        okAbove := okAbove - 1;
      } else {
        ngAbove := ngAbove - 1;
      }
      var tpr := if totalOk > 0 then okAbove as real / totalOk as real else 0.0;
      var fpr := if totalNg > 0 then ngAbove as real / totalNg as real else 0.0;
      var j := tpr - fpr;
      assert j == YoudenJ(all, i, totalOk, totalNg);
      if bestJ.None? || j > bestJ.value {
        bestJ := Some(j);
        thr := current.score;
        bestK := i;
      }
    }
    assert IsBestIndex(all, bestK, totalOk, totalNg);
  }
}
