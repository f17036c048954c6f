/**
 * Preset and PresetManager: the preset file's list of ROIs, its two legacy
 * inspection slots, and the rules that save an inspection ROI into a slot
 * and read it back. ROIs are held as values; CloneDeep copies are the
 * values themselves.
 */
module Presets {
  import opened Wrappers
  import opened Text
  import opened Roi
  import opened RoiConfig

  /** The exceptions SaveInspection raises for arguments it refuses. */
  datatype PresetError = SlotOutOfRange

  /** The fixed id SaveInspection gives an inspection ROI saved into a slot. */
  function SlotId(slot: int): (id: string)
    requires 1 <= slot <= 4
    ensures !IsBlank(id) && |id| == 12
  {
    var id := if slot == 1 then "Inspection_1"
              else if slot == 2 then "Inspection_2"
              else if slot == 3 then "Inspection_3"
              else "Inspection_4";
    assert !IsWhiteSpace(id[0]);
    id
  }

  /** The literal ids of SaveInspection are the ids GetInspection looks up. */
  lemma SlotIdIsDefaultId(slot: int)
    requires 1 <= slot <= 4
    ensures SlotId(slot) == DefaultId(slot)
  {
  }

  /** The copy SaveInspection stores: role Inspection and the slot's fixed id. */
  function SavedClone(roi: RoiValue, slot: int): (c: RoiValue)
    requires 1 <= slot <= 4
    ensures c.role == Inspection && c.id == DefaultId(slot) && !IsBlank(c.id)
    ensures c.(role := roi.role, id := roi.id) == roi
  {
    SlotIdIsDefaultId(slot);
    roi.(role := Inspection, id := SlotId(slot))
  }

  /** An entry that is present, has a non-blank id, and has `id` ignoring case. */
  predicate IdMatches(entry: Option<RoiValue>, id: string)
  {
    entry.Some? && !IsBlank(entry.value.id) && EqualsIgnoreCase(entry.value.id, id)
  }

  /** List.FindIndex with IdMatches: the first matching position, or -1. */
  function FindIndex(list: seq<Option<RoiValue>>, id: string): (k: int)
    ensures -1 <= k < |list|
    ensures k >= 0 ==> IdMatches(list[k], id)
    ensures forall j :: 0 <= j < |list| && (k < 0 || j < k) ==> !IdMatches(list[j], id)
  {
    if list == [] then -1
    else if IdMatches(list[0], id) then 0
    else
      var k := FindIndex(list[1..], id);
      assert forall j :: 1 <= j < |list| ==> list[j] == list[1..][j - 1];
      if k < 0 then -1 else k + 1
  }

  /** FirstOrDefault with IdMatches. */
  function FirstMatching(list: seq<Option<RoiValue>>, id: string): (r: Option<RoiValue>)
    ensures r.Some? ==> Some(r.value) in list && IdMatches(Some(r.value), id)
    ensures r.None? ==> forall j :: 0 <= j < |list| ==> !IdMatches(list[j], id)
    ensures r.Some? ==> exists k :: 0 <= k < |list| && list[k] == r && IdMatches(list[k], id)
                                    && forall j :: 0 <= j < k ==> !IdMatches(list[j], id)
  {
    var k := FindIndex(list, id);
    if k < 0 then None else list[k]
  }

  /**
   * SyncInspectionList on the list itself: a clone with a blank id changes
   * nothing; otherwise it replaces the first entry with its id (ignoring
   * case) or is appended.
   */
  function Synced(list: seq<Option<RoiValue>>, clone: RoiValue): (r: seq<Option<RoiValue>>)
    ensures IsBlank(clone.id) ==> r == list
    ensures |list| <= |r| <= |list| + 1
    ensures !IsBlank(clone.id) ==> Some(clone) in r
  {
    if IsBlank(clone.id) then list
    else
      var k := FindIndex(list, clone.id);
      var r := if k >= 0 then list[k := Some(clone)] else list + [Some(clone)];
      assert r[if k >= 0 then k else |list|] == Some(clone);
      r
  }

  /**
   * Apart from the one entry it replaces or appends, Synced leaves every
   * entry where it was; it appends exactly when no entry had the id.
   */
  lemma SyncedKeepsOtherEntries(list: seq<Option<RoiValue>>, clone: RoiValue)
    requires !IsBlank(clone.id)
    ensures var r := Synced(list, clone);
            (|r| == |list| + 1 <==> forall j :: 0 <= j < |list| ==> !IdMatches(list[j], clone.id))
            && (forall j :: 0 <= j < |list| && r[j] != list[j] ==>
                  IdMatches(list[j], clone.id) && r[j] == Some(clone)
                  && forall i :: 0 <= i < j ==> !IdMatches(list[i], clone.id))
  {
  }

  /** After Synced, the first entry with the clone's id is the clone. */
  lemma SyncedFindsClone(list: seq<Option<RoiValue>>, clone: RoiValue)
    requires !IsBlank(clone.id)
    ensures FirstMatching(Synced(list, clone), clone.id) == Some(clone)
  {
    var r := Synced(list, clone);
    var k := FindIndex(list, clone.id);
    var at := if k >= 0 then k else |list|;
    assert r[at] == Some(clone) && IdMatches(r[at], clone.id);
    assert forall j :: 0 <= j < at ==> r[j] == list[j];
    var found := FindIndex(r, clone.id);
    assert found == at;
  }

  /** Syncing the same clone twice is the same as once. */
  lemma SyncedIdempotent(list: seq<Option<RoiValue>>, clone: RoiValue)
    ensures Synced(Synced(list, clone), clone) == Synced(list, clone)
  {
    if !IsBlank(clone.id) {
      var r := Synced(list, clone);
      var k := FindIndex(list, clone.id);
      var at := if k >= 0 then k else |list|;
      assert r[at] == Some(clone) && IdMatches(r[at], clone.id);
      assert forall j :: 0 <= j < at ==> r[j] == list[j];
      assert FindIndex(r, clone.id) == at;
      assert r[at := Some(clone)] == r;
    }
  }

  /**
   * GetInspection on the preset's fields: slot 1 or 2 reads its own field;
   * when that is null (or for any other slot) the first list entry with id
   * Inspection_{slot}, if the list exists; otherwise null.
   */
  function Lookup(inspection1: Option<RoiValue>, inspection2: Option<RoiValue>,
                  rois: Option<seq<Option<RoiValue>>>, slot: int): (r: Option<RoiValue>)
    ensures r.Some? ==>
              (slot == 1 && r == inspection1) || (slot == 2 && r == inspection2)
              || (rois.Some? && Some(r.value) in rois.value && IdMatches(Some(r.value), DefaultId(slot)))
    ensures (slot == 1 && inspection1.Some?) ==> r == inspection1
    ensures (slot == 2 && inspection2.Some?) ==> r == inspection2
    ensures rois.None? && slot != 1 && slot != 2 ==> r.None?
    ensures (slot != 1 || inspection1.None?) && (slot != 2 || inspection2.None?) ==>
              r == (if rois.Some? then FirstMatching(rois.value, DefaultId(slot)) else None)
  {
    var source := if slot == 1 then inspection1 else if slot == 2 then inspection2 else None;
    if source.None? && rois.Some? then FirstMatching(rois.value, DefaultId(slot)) else source
  }

  /** A list that is null reads as a new empty list. */
  function OrEmpty(rois: Option<seq<Option<RoiValue>>>): seq<Option<RoiValue>>
  {
    if rois.Some? then rois.value else []
  }

  /** What SaveInspection stores is what GetInspection then reads for the same slot. */
  lemma SavedSlotReadsBack(inspection1: Option<RoiValue>, inspection2: Option<RoiValue>,
                           rois: Option<seq<Option<RoiValue>>>, slot: int, roi: RoiValue)
    requires 1 <= slot <= 4
    ensures var c := SavedClone(roi, slot);
            Lookup(if slot == 1 then Some(c) else inspection1,
                   if slot == 2 then Some(c) else inspection2,
                   Some(Synced(OrEmpty(rois), c)), slot) == Some(c)
  {
    var c := SavedClone(roi, slot);
    if slot > 2 {
      SyncedFindsClone(OrEmpty(rois), c);
    }
  }

  /** The preset file's contents. */
  class Preset {
    /** Rois; null when a loaded file has no such list, and entries may be null. */
    var rois: Option<seq<Option<RoiValue>>>
    var inspection1: Option<RoiValue>
    var inspection2: Option<RoiValue>
    var matchThr: int
    var tmThr: int
    var rotRange: int
    var scaleMin: real
    var scaleMax: real
    var feature: string
    var modelInputSize: int
    var mmPerPx: real

    /** new Preset(): an empty list, no slots, and the matching defaults. */
    constructor()
      ensures rois == Some([]) && inspection1.None? && inspection2.None?
      ensures matchThr == 85 && tmThr == 85 && rotRange == 10
      ensures scaleMin == 0.95 && scaleMax == 1.05 && feature == "auto"
      ensures modelInputSize == 600 && mmPerPx == 0.20
    {
      rois := Some([]);
      inspection1, inspection2 := None, None;
      matchThr, tmThr, rotRange := 85, 85, 10;
      scaleMin, scaleMax, feature := 0.95, 1.05, "auto";
      modelInputSize, mmPerPx := 600, 0.20;
    }

    /** GetInspection on this preset. */
    function GetInspection(slot: int): Option<RoiValue>
      reads this
    {
      Lookup(inspection1, inspection2, rois, slot)
    }

    /**
     * SyncInspectionList: a null list becomes a new empty one; then the
     * clone replaces the first entry with its id or is appended, unless its
     * id is blank.
     */
    method SyncInspectionList(clone: RoiValue)
      modifies this
      ensures rois == Some(Synced(OrEmpty(old(rois)), clone))
      ensures inspection1 == old(inspection1) && inspection2 == old(inspection2)
      ensures matchThr == old(matchThr) && tmThr == old(tmThr) && rotRange == old(rotRange)
      ensures scaleMin == old(scaleMin) && scaleMax == old(scaleMax) && feature == old(feature)
      ensures modelInputSize == old(modelInputSize) && mmPerPx == old(mmPerPx)
    {
      if rois.None? {
        rois := Some([]);
      }
      var id := clone.id;
      if IsBlank(id) {
        return;
      }
      var existing := FindIndex(rois.value, id);
      if existing >= 0 {
        rois := Some(rois.value[existing := Some(clone)]);
      } else {
        rois := Some(rois.value + [Some(clone)]);
      }
    }

    /**
     * SaveInspection: a slot outside 1..4 is refused and nothing changes;
     * otherwise the clone (role Inspection, id Inspection_{slot}) goes into
     * Inspection1 or Inspection2 for slots 1 and 2 only, and into the list.
     */
    method SaveInspection(slot: int, roi: RoiValue) returns (r: Result<(), PresetError>)
      modifies this
      ensures r.Failure? <==> slot < 1 || slot > 4
      ensures r.Failure? ==> rois == old(rois) && inspection1 == old(inspection1) && inspection2 == old(inspection2)
      ensures r.Success? ==>
                inspection1 == (if slot == 1 then Some(SavedClone(roi, slot)) else old(inspection1))
                && inspection2 == (if slot == 2 then Some(SavedClone(roi, slot)) else old(inspection2))
                && rois == Some(Synced(OrEmpty(old(rois)), SavedClone(roi, slot)))
                && GetInspection(slot) == Some(SavedClone(roi, slot))
      ensures matchThr == old(matchThr) && tmThr == old(tmThr) && rotRange == old(rotRange)
      ensures scaleMin == old(scaleMin) && scaleMax == old(scaleMax) && feature == old(feature)
      ensures modelInputSize == old(modelInputSize) && mmPerPx == old(mmPerPx)
    {
      if slot < 1 || slot > 4 {
        return Failure(SlotOutOfRange);
      }
      var clone := roi.(role := Inspection, id := SlotId(slot));
      if slot == 1 {
        inspection1 := Some(clone);
      } else if slot == 2 {
        inspection2 := Some(clone);
      }
      SyncInspectionList(clone);
      SavedSlotReadsBack(old(inspection1), old(inspection2), old(rois), slot, roi);
      r := Success(());
    }
  }
}
