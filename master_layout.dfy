/**
 * The master layout and the manager's pure helpers: the inspection model
 * key normaliser, the layout file extension and name, the defaults applied
 * to the four inspection slots after loading, and the sanitising pass run
 * before saving.
 */
module Layouts {
  import opened Wrappers
  import opened Text
  import opened Roi
  import opened RoiConfig
  import opened Workflow
  import BackendClient

  // ---- Model keys ----

  /**
   * NormalizeInspectionKey (MasterLayoutManager): a blank key is kept, a key
   * matching the inspection pattern becomes inspection-N, any other key is
   * trimmed.
   */
  function LayoutKey(key: string): (r: string)
    ensures IsBlank(r) <==> IsBlank(key)
    ensures IsBlank(key) ==> r == key
    ensures !IsBlank(key) && FindKeyDigit(key, 0).Some? ==> IsCanonicalKey(r) && r[11] == FindKeyDigit(key, 0).value
    ensures !IsBlank(key) && FindKeyDigit(key, 0).None? ==> r == Trim(key)
  {
    if IsBlank(key) then key
    else if FindKeyDigit(key, 0).Some? then
      CanonicalKeyIsCanonical(FindKeyDigit(key, 0).value);
      CanonicalKey(FindKeyDigit(key, 0).value)
    else Trim(key)
  }

  /** A slice of a slice is a slice of the whole string. */
  lemma SliceOfSlice(s: string, off: nat, len: nat, a: nat, b: nat)
    requires off + len <= |s| && a <= b <= len
    ensures s[off..off + len][a..b] == s[off + a..off + b]
  {
    var u := s[off..off + len][a..b];
    assert |u| == b - a;
    forall t | 0 <= t < b - a
      ensures u[t] == s[off + a + t]
    {
    }
  }

  /** A match inside an infix is a match of the whole string at the shifted position. */
  lemma InfixMatch(s: string, off: nat, sub: string, j: nat)
    requires off + |sub| <= |s| && sub == s[off..off + |sub|]
    requires j <= |sub| && KeyMatchAt(sub, j).Some?
    ensures KeyMatchAt(s, off + j) == KeyMatchAt(sub, j)
  {
    assert j + 10 < |sub|;
    SliceOfSlice(s, off, |sub|, j, j + 10);
    assert sub[j + 10] == s[off + j + 10];
    if !IsSlotDigit(sub[j + 10]) {
      assert j + 11 < |sub|;
      assert sub[j + 11] == s[off + j + 11];
    }
  }

  lemma {:induction false} FindKeyDigitNone(s: string, i: nat)
    requires i <= |s|
    requires forall j :: i <= j <= |s| ==> KeyMatchAt(s, j).None?
    ensures FindKeyDigit(s, i).None?
    decreases |s| - i
  {
    if i < |s| {
      FindKeyDigitNone(s, i + 1);
    }
  }

  /** A string without a match has no match in any infix of it. */
  lemma NoMatchInInfix(s: string, off: nat, sub: string)
    requires off + |sub| <= |s| && sub == s[off..off + |sub|]
    requires FindKeyDigit(s, 0).None?
    ensures FindKeyDigit(sub, 0).None?
  {
    forall j | 0 <= j <= |sub|
      ensures KeyMatchAt(sub, j).None?
    {
      if KeyMatchAt(sub, j).Some? {
        InfixMatch(s, off, sub, j);
      }
    }
    FindKeyDigitNone(sub, 0);
  }

  /** Trim(s) is an infix of s. */
  lemma TrimIsInfix(s: string) returns (off: nat)
    ensures off + |Trim(s)| <= |s| && Trim(s) == s[off..off + |Trim(s)|]
  {
    var ts := TrimStart(s);
    off := |s| - |ts|;
    var te := TrimEnd(ts);
    assert ts == s[off..];
    assert te == ts[..|te|];
    assert Trim(s) == te;
    assert ts[..|te|] == s[off..off + |te|];
  }

  /** Normalising a normalised key changes nothing. */
  lemma LayoutKeyIdempotent(key: string)
    ensures LayoutKey(LayoutKey(key)) == LayoutKey(key)
  {
    var r := LayoutKey(key);
    if IsBlank(key) {
    } else if FindKeyDigit(key, 0).Some? {
      CanonicalKeyMatches(r[11]);
    } else {
      var off := TrimIsInfix(key);
      NoMatchInInfix(key, off, r);
      TrimOfUnpadded(r);
    }
  }

  // ---- Layout file paths ----

  const LayoutJson: string := ".layout.json"

  /** Where Path.ChangeExtension cuts: the last dot after the last separator, else the end. */
  function StemLength(p: string, i: nat): (k: nat)
    requires i <= |p|
    ensures k <= |p|
  {
    if i == 0 then |p|
    else if p[i - 1] == '.' then i - 1
    else if BackendClient.IsPathSeparator(p[i - 1]) then |p|
    else StemLength(p, i - 1)
  }

  /** Path.ChangeExtension with an extension that starts with a dot; an empty path stays empty. */
  function ChangeExtension(p: string, ext: string): (r: string)
    ensures p != [] ==> EndsWith(r, ext)
    ensures p == [] ==> r == []
  {
    if p == [] then []
    else
      var r := p[..StemLength(p, |p|)] + ext;
      assert r[|r| - |ext|..] == ext;
      r
  }

  lemma EndsWithItselfIgnoringCase(s: string, ext: string)
    requires EndsWith(s, ext)
    ensures EndsWithIgnoreCase(s, ext)
  {
  }

  /** A path ending in .layout.json is not blank. */
  lemma EndingNotBlank(s: string)
    requires EndsWith(s, LayoutJson)
    ensures !IsBlank(s)
  {
    assert s[|s| - 12] == s[|s| - 12..][0] == '.';
    assert !IsWhiteSpace(s[|s| - 12]);
  }

  /**
   * EnsureLayoutJsonExtension: a blank path, or one already ending in
   * .layout.json in any case, is kept; otherwise the extension is replaced
   * by .layout.json, or .layout.json appended if that did not work.
   */
  function EnsureLayoutJsonExtension(path: string): (r: string)
    ensures IsBlank(path) ==> r == path
    ensures !IsBlank(path) ==> EndsWithIgnoreCase(r, LayoutJson) && !IsBlank(r)
    ensures EndsWithIgnoreCase(path, LayoutJson) ==> r == path
  {
    if IsBlank(path) then path
    else if EndsWithIgnoreCase(path, LayoutJson) then
      FoldedEndingNotBlank(path, LayoutJson);
      path
    else
      var withExtension := ChangeExtension(path, LayoutJson);
      EndsWithItselfIgnoringCase(withExtension, LayoutJson);
      EndingNotBlank(withExtension);
      if EndsWithIgnoreCase(withExtension, LayoutJson) then withExtension
      else
        AppendedEnding(path);
        path + LayoutJson
  }

  /** A path ending in an extension in any case is not blank. */
  lemma FoldedEndingNotBlank(s: string, ext: string)
    requires |ext| > 0 && ext[0] == '.' && EndsWithIgnoreCase(s, ext)
    ensures !IsBlank(s)
  {
    var k := |s| - |ext|;
    assert Lower(ext)[0] == LowerChar(ext[0]) == '.';
    assert Lower(s[k..])[0] == LowerChar(s[k..][0]);
    assert s[k..][0] == s[k];
    assert !IsWhiteSpace(s[k]);
  }

  lemma AppendedEnding(path: string)
    ensures EndsWithIgnoreCase(path + LayoutJson, LayoutJson) && !IsBlank(path + LayoutJson)
  {
    var r := path + LayoutJson;
    assert r[|r| - 12..] == LayoutJson;
    EndsWithItselfIgnoringCase(r, LayoutJson);
    EndingNotBlank(r);
  }

  /** Applying the extension twice is the same as once. */
  lemma EnsureLayoutJsonExtensionIdempotent(path: string)
    ensures EnsureLayoutJsonExtension(EnsureLayoutJsonExtension(path)) == EnsureLayoutJsonExtension(path)
  {
  }

  /** The last position of `c` in `s`, or -1 (string.LastIndexOf(char)). */
  function LastIndexOfChar(s: string, c: char): (k: int)
    ensures -1 <= k < |s|
    ensures k >= 0 ==> s[k] == c
    ensures forall j :: k < j < |s| ==> s[j] != c
  {
    if s == [] then -1
    else if s[|s| - 1] == c then |s| - 1
    else LastIndexOfChar(s[..|s| - 1], c)
  }

  /** Path.GetFileName: the text after the last separator. */
  function FileName(p: string): (r: string)
    ensures |r| <= |p| && r == p[|p| - |r|..]
    ensures forall i :: 0 <= i < |r| ==> !BackendClient.IsPathSeparator(r[i])
  {
    if p == [] || BackendClient.IsPathSeparator(p[|p| - 1]) then []
    else FileName(p[..|p| - 1]) + [p[|p| - 1]]
  }

  lemma {:induction false} FileNameAfterSeparator(dir: string, f: string)
    requires dir == [] || BackendClient.IsPathSeparator(dir[|dir| - 1])
    requires forall i :: 0 <= i < |f| ==> !BackendClient.IsPathSeparator(f[i])
    ensures FileName(dir + f) == f
  {
    if f != [] {
      var s := dir + f;
      assert s[..|s| - 1] == dir + f[..|f| - 1];
      FileNameAfterSeparator(dir, f[..|f| - 1]);
    } else {
      assert dir + f == dir;
    }
  }

  /** Path.GetFileNameWithoutExtension: the file name up to its last dot. */
  function FileNameWithoutExtension(p: string): (r: string)
    ensures forall i :: 0 <= i < |r| ==> !BackendClient.IsPathSeparator(r[i])
  {
    var f := FileName(p);
    var k := LastIndexOfChar(f, '.');
    if k < 0 then f else f[..k]
  }

  /**
   * GetLayoutNameFromPath: the file name without its extension and without
   * a further .layout; DefaultLayout when nothing is left.
   */
  function GetLayoutNameFromPath(path: string): (r: string)
    ensures !IsBlank(r)
    ensures r == "DefaultLayout" || forall i :: 0 <= i < |r| ==> !BackendClient.IsPathSeparator(r[i])
  {
    var name := FileNameWithoutExtension(path);
    var name2 := if EndsWithIgnoreCase(name, ".layout") then FileNameWithoutExtension(name) else name;
    assert !IsWhiteSpace("DefaultLayout"[0]);
    if IsBlank(name2) then "DefaultLayout" else name2
  }

  /** The stem before the last dot of a name whose final part has no dot. */
  lemma StemBeforeLastDot(a: string, b: string)
    requires forall i :: 0 <= i < |b| ==> b[i] != '.'
    ensures LastIndexOfChar(a + ['.'] + b, '.') == |a|
  {
    var s := a + ['.'] + b;
    assert s[|a|] == '.';
  }

  /** A name STEM.EXT has no separator when neither part has one. */
  lemma PlainFileName(stem: string, ext: string)
    requires forall i :: 0 <= i < |stem| ==> !BackendClient.IsPathSeparator(stem[i])
    requires '/' !in ext && '\\' !in ext && ':' !in ext
    ensures forall i :: 0 <= i < |stem + ['.'] + ext| ==> !BackendClient.IsPathSeparator((stem + ['.'] + ext)[i])
  {
    var file := stem + ['.'] + ext;
    forall i | 0 <= i < |file|
      ensures !BackendClient.IsPathSeparator(file[i])
    {
      if i < |stem| {
        assert file[i] == stem[i];
      } else if i > |stem| {
        assert file[i] == ext[i - |stem| - 1] && ext[i - |stem| - 1] in ext;
      }
    }
  }

  /** The file name without extension of dir/STEM.EXT, when EXT has no dot. */
  lemma StripExtensionOf(dir: string, stem: string, ext: string)
    requires dir == [] || BackendClient.IsPathSeparator(dir[|dir| - 1])
    requires forall i :: 0 <= i < |stem| ==> !BackendClient.IsPathSeparator(stem[i])
    requires '.' !in ext && '/' !in ext && '\\' !in ext && ':' !in ext
    ensures FileNameWithoutExtension(dir + stem + ['.'] + ext) == stem
  {
    var file := stem + ['.'] + ext;
    assert file[..|stem|] == stem;
    assert dir + stem + ['.'] + ext == dir + file;
    PlainFileName(stem, ext);
    FileNameAfterSeparator(dir, file);
    assert forall i :: 0 <= i < |ext| ==> ext[i] in ext;
    StemBeforeLastDot(stem, ext);
  }

  /** A layout file dir/NAME.layout.json is named NAME. */
  lemma LayoutNameOfLayoutFile(dir: string, name: string)
    requires dir == [] || BackendClient.IsPathSeparator(dir[|dir| - 1])
    requires !IsBlank(name)
    requires forall i :: 0 <= i < |name| ==> name[i] != '.' && !BackendClient.IsPathSeparator(name[i])
    ensures GetLayoutNameFromPath(dir + name + LayoutJson) == name
  {
    LayoutFileStem(dir, name);
    LayoutStemName(name);
  }

  /** Dropping the extension of dir/NAME.layout.json leaves NAME.layout. */
  lemma LayoutFileStem(dir: string, name: string)
    requires dir == [] || BackendClient.IsPathSeparator(dir[|dir| - 1])
    requires forall i :: 0 <= i < |name| ==> !BackendClient.IsPathSeparator(name[i])
    ensures FileNameWithoutExtension(dir + name + LayoutJson) == name + ".layout"
  {
    var layout := name + ['.'] + "layout";
    assert layout == name + ".layout";
    assert dir + name + LayoutJson == dir + layout + ['.'] + "json";
    PlainFileName(name, "layout");
    StripExtensionOf(dir, layout, "json");
  }

  /** NAME.layout ends in .layout, and dropping that leaves NAME. */
  lemma LayoutStemName(name: string)
    requires forall i :: 0 <= i < |name| ==> !BackendClient.IsPathSeparator(name[i])
    ensures EndsWithIgnoreCase(name + ".layout", ".layout")
    ensures FileNameWithoutExtension(name + ".layout") == name
  {
    var layout := name + ".layout";
    assert layout[|layout| - 7..] == ".layout";
    EndsWithItselfIgnoringCase(layout, ".layout");
    StripLayoutSuffix(name);
  }

  lemma StripLayoutSuffix(name: string)
    requires forall i :: 0 <= i < |name| ==> !BackendClient.IsPathSeparator(name[i])
    ensures FileNameWithoutExtension(name + ".layout") == name
  {
    assert [] + name + ['.'] + "layout" == name + ".layout";
    StripExtensionOf([], name, "layout");
  }

  // ---- Baselines kept per image ----

  /** The characters NumberStyles.Integer lets surround a number. */
  predicate IsNumberWhite(c: char) { c == ' ' || ('\t' <= c <= '\r') }

  function StripNumberWhite(s: string): (r: string)
    ensures |r| <= |s|
    ensures r == [] || (!IsNumberWhite(r[0]) && !IsNumberWhite(r[|r| - 1]))
  {
    if s == [] then []
    else if IsNumberWhite(s[0]) then StripNumberWhite(s[1..])
    else if IsNumberWhite(s[|s| - 1]) then StripNumberWhite(s[..|s| - 1])
    else s
  }

  const Int32Min: int := -0x8000_0000
  const Int32Max: int := 0x7FFF_FFFF

  /** The integer a sign and digits spell, before the range check: None when the text is not of that form. */
  function IntegerText(t: string): (r: Option<int>)
    ensures r.Some? ==> t != []
  {
    if t == [] then None
    else if t[0] == '-' || t[0] == '+' then
      if |t| > 1 && AllDigits(t[1..]) then
        var magnitude: int := DigitsValue(t[1..]);
        Some(if t[0] == '-' then -magnitude else magnitude)
      else None
    else if AllDigits(t) then Some(DigitsValue(t))
    else None
  }

  /**
   * int.TryParse: optional surrounding white space, an optional sign and at
   * least one digit, for a value that fits in 32 bits.
   */
  function ParseInt(s: string): (r: Option<int>)
    ensures r.Some? ==> Int32Min <= r.value <= Int32Max
    ensures r.Some? <==> IntegerText(StripNumberWhite(s)).Some?
                         && Int32Min <= IntegerText(StripNumberWhite(s)).value <= Int32Max
    ensures r.Some? ==> r == IntegerText(StripNumberWhite(s))
  {
    var v := IntegerText(StripNumberWhite(s));
    if v.Some? && Int32Min <= v.value <= Int32Max then v else None
  }

  /** A number beyond the 32-bit range is refused, as int.TryParse refuses it. */
  lemma ParseIntRefusesOverflow()
    ensures ParseInt("2147483647") == Some(Int32Max)
    ensures ParseInt("2147483648").None?
    ensures ParseInt("-2147483648") == Some(Int32Min)
  {
    assert StripNumberWhite("2147483647") == "2147483647";
    assert StripNumberWhite("2147483648") == "2147483648";
    assert StripNumberWhite("-2147483648") == "-2147483648";
    CommonDigitsValue();
    assert "2147483647"[..9] == "214748364";
    assert DigitsValue("2147483647") == 2147483647;
    assert "2147483648"[..9] == "214748364";
    assert DigitsValue("2147483648") == 2147483648;
    assert "-2147483648"[1..] == "2147483648";
  }

  /** The value of the first nine digits of the 32-bit limits. */
  lemma CommonDigitsValue()
    ensures DigitsValue("214748364") == 214748364
  {
    assert DigitsValue("2") == 2;
    assert "21"[..1] == "2";
    assert DigitsValue("21") == 21;
    assert "214"[..2] == "21";
    assert DigitsValue("214") == 214;
    assert "2147"[..3] == "214";
    assert DigitsValue("2147") == 2147;
    assert "21474"[..4] == "2147";
    assert DigitsValue("21474") == 21474;
    assert "214748"[..5] == "21474";
    assert DigitsValue("214748") == 214748;
    assert "2147483"[..6] == "214748";
    assert DigitsValue("2147483") == 2147483;
    assert "21474836"[..7] == "2147483";
    assert DigitsValue("21474836") == 21474836;
    assert "214748364"[..8] == "21474836";
    assert DigitsValue("214748364") == 214748364;
  }

  const SlotPrefix: string := "Inspection_"

  /** The slot a baseline id names: Inspection_ (in any case) followed by an integer from 1 to 4. */
  function IdSlot(id: string): (k: Option<int>)
    ensures k.Some? ==> 1 <= k.value <= 4
    ensures k.Some? ==> !IsBlank(id) && StartsWithIgnoreCase(id, SlotPrefix)
  {
    if IsBlank(id) || !StartsWithIgnoreCase(id, SlotPrefix) then None
    else
      var idx := ParseInt(id[|SlotPrefix|..]);
      if idx.None? || idx.value < 1 || idx.value > 4 then None else idx
  }

  lemma DefaultIdOfSlot(k: int)
    requires 0 <= k < 10
    ensures DefaultId(k) == SlotPrefix + [DigitChar(k)]
  {
  }

  lemma ParseSingleDigit(d: char)
    requires IsDigit(d)
    ensures ParseInt([d]) == Some(d as int - '0' as int)
  {
    assert StripNumberWhite([d]) == [d];
    assert DigitsValue([d]) == DigitsValue([d][..0]) * 10 + (d as int - '0' as int);
    assert IntegerText([d]) == Some(d as int - '0' as int);
  }

  lemma FixedIdShape(k: int)
    requires 1 <= k <= 4
    ensures !IsBlank(DefaultId(k)) && StartsWithIgnoreCase(DefaultId(k), SlotPrefix)
    ensures DefaultId(k)[|SlotPrefix|..] == [DigitChar(k)]
  {
    DefaultIdOfSlot(k);
    var id := DefaultId(k);
    assert id[..11] == SlotPrefix;
    assert !IsWhiteSpace(id[0]);
  }

  /** The fixed id of slot k names slot k. */
  lemma IdSlotOfDefaultId(k: int)
    requires 1 <= k <= 4
    ensures IdSlot(DefaultId(k)) == Some(k)
  {
    FixedIdShape(k);
    ParseSingleDigit(DigitChar(k));
  }

  /** The slot number a fixed id Inspection_N carries in its last character. */
  function SlotOfFixedId(id: string): int
  {
    if |id| == 12 then id[11] as int - '0' as int else 0
  }

  lemma SlotOfDefaultId(k: int)
    requires 1 <= k <= 4
    ensures SlotOfFixedId(DefaultId(k)) == k
  {
    DefaultIdOfSlot(k);
  }

  /** A baseline entry given its fixed role and id. */
  function FixedBaseline(v: RoiValue, k: int): RoiValue
  {
    v.(role := Inspection, id := DefaultId(k))
  }

  /** The slot a baseline entry is kept for, if any (a missing entry is skipped). */
  function BaselineSlot(roi: Option<RoiValue>): (k: Option<int>)
    ensures k.Some? ==> roi.Some? && 1 <= k.value <= 4
  {
    if roi.None? then None else IdSlot(roi.value.id)
  }

  /** The slot each entry of a list names. */
  function EntrySlots(list: seq<Option<RoiValue>>): (slots: seq<Option<int>>)
    ensures SlotsFit(list, slots)
  {
    if list == [] then [] else [BaselineSlot(list[0])] + EntrySlots(list[1..])
  }

  lemma {:induction false} EntrySlotsAt(list: seq<Option<RoiValue>>, i: nat)
    requires i < |list|
    ensures EntrySlots(list)[i] == BaselineSlot(list[i])
  {
    if i > 0 {
      EntrySlotsAt(list[1..], i - 1);
    }
  }

  lemma {:induction false} EntrySlotsTail(list: seq<Option<RoiValue>>, i: nat)
    requires i <= |list|
    ensures EntrySlots(list)[i..] == EntrySlots(list[i..])
  {
    if i > 0 {
      EntrySlotsTail(list[1..], i - 1);
      assert list[1..][i - 1..] == list[i..];
    }
  }

  /** Every slot named belongs to a present entry and lies in 1..4. */
  predicate SlotsFit(list: seq<Option<RoiValue>>, slots: seq<Option<int>>)
  {
    |slots| == |list| && forall i :: 0 <= i < |list| && slots[i].Some? ==> list[i].Some? && 1 <= slots[i].value <= 4
  }

  lemma SlotsFitTail(list: seq<Option<RoiValue>>, slots: seq<Option<int>>)
    requires SlotsFit(list, slots) && list != []
    ensures SlotsFit(list[1..], slots[1..])
  {
    assert forall i :: 0 <= i < |list| - 1 ==> list[1..][i] == list[i + 1] && slots[1..][i] == slots[i + 1];
  }

  /**
   * The entries kept from a list whose i-th entry names slots[i], given the
   * slots already taken: each entry naming a free slot, in order, with its
   * role and id fixed.
   */
  function KeptBaselines(list: seq<Option<RoiValue>>, slots: seq<Option<int>>, seen: set<int>): (r: seq<RoiValue>)
    requires SlotsFit(list, slots)
    ensures |r| <= |list|
  {
    if list == [] then []
    else
      SlotsFitTail(list, slots);
      var k := slots[0];
      if k.Some? && k.value !in seen then
        [FixedBaseline(list[0].value, k.value)] + KeptBaselines(list[1..], slots[1..], seen + {k.value})
      else KeptBaselines(list[1..], slots[1..], seen)
  }

  /** Kept entries have role Inspection and the fixed id of a free slot, each slot at most once. */
  lemma {:induction false} KeptBaselinesShape(list: seq<Option<RoiValue>>, slots: seq<Option<int>>, seen: set<int>)
    requires SlotsFit(list, slots)
    ensures FixedFor(KeptBaselines(list, slots, seen), seen)
  {
    if list != [] {
      KeptStep(list, slots, seen);
      var k := slots[0];
      if k.Some? && k.value !in seen {
        var x := FixedBaseline(list[0].value, k.value);
        var rest := KeptBaselines(list[1..], slots[1..], seen + {k.value});
        KeptBaselinesShape(list[1..], slots[1..], seen + {k.value});
        SlotOfDefaultId(k.value);
        assert x.role == Inspection && x.id == DefaultId(k.value);
        ConsBaselines(x, k.value, rest, seen);
      } else {
        KeptBaselinesShape(list[1..], slots[1..], seen);
      }
    }
  }

  /** One step of KeptBaselines on a non-empty list. */
  lemma KeptStep(list: seq<Option<RoiValue>>, slots: seq<Option<int>>, seen: set<int>)
    requires SlotsFit(list, slots) && list != []
    ensures SlotsFit(list[1..], slots[1..])
    ensures slots[0].Some? && slots[0].value !in seen ==>
              KeptBaselines(list, slots, seen)
              == [FixedBaseline(list[0].value, slots[0].value)] + KeptBaselines(list[1..], slots[1..], seen + {slots[0].value})
    ensures !(slots[0].Some? && slots[0].value !in seen) ==>
              KeptBaselines(list, slots, seen) == KeptBaselines(list[1..], slots[1..], seen)
  {
    SlotsFitTail(list, slots);
  }

  /** The per-image list after sanitising, given the slots already taken. */
  function NormalizedBaselines(list: seq<Option<RoiValue>>, seen: set<int>): seq<RoiValue>
  {
    KeptBaselines(list, EntrySlots(list), seen)
  }

  /**
   * Entries with role Inspection and the fixed id of a slot in 1..4 outside
   * seen, each slot at most once.
   */
  predicate FixedFor(r: seq<RoiValue>, seen: set<int>)
  {
    (forall i :: 0 <= i < |r| ==>
       r[i].role == Inspection && 1 <= SlotOfFixedId(r[i].id) <= 4
       && SlotOfFixedId(r[i].id) !in seen && r[i].id == DefaultId(SlotOfFixedId(r[i].id)))
    && (forall i, j :: 0 <= i < j < |r| ==> SlotOfFixedId(r[i].id) != SlotOfFixedId(r[j].id))
  }

  /** Entries with role Inspection, each id Inspection_N with N in 1..4, no id twice. */
  predicate DistinctFixedIds(r: seq<RoiValue>)
  {
    (forall i :: 0 <= i < |r| ==>
       r[i].role == Inspection && 1 <= SlotOfFixedId(r[i].id) <= 4 && r[i].id == DefaultId(SlotOfFixedId(r[i].id)))
    && (forall i, j :: 0 <= i < j < |r| ==> r[i].id != r[j].id)
  }

  /** Putting the entry of a free slot in front of entries for other slots keeps the slots distinct. */
  lemma ConsBaselines(x: RoiValue, k: int, rest: seq<RoiValue>, seen: set<int>)
    requires 1 <= k <= 4 && k !in seen && x.role == Inspection && x.id == DefaultId(k) && SlotOfFixedId(x.id) == k
    requires FixedFor(rest, seen + {k})
    ensures FixedFor([x] + rest, seen)
  {
    var r := [x] + rest;
    assert forall i :: 1 <= i < |r| ==> r[i] == rest[i - 1];
  }

  /** Distinct slots mean distinct ids. */
  lemma FixedIdsDistinct(r: seq<RoiValue>)
    requires FixedFor(r, {})
    ensures DistinctFixedIds(r)
  {
  }

  /** Sanitised baselines have role Inspection and pairwise distinct ids, each Inspection_N with N in 1..4. */
  lemma BaselineIdsDistinct(list: seq<Option<RoiValue>>)
    ensures DistinctFixedIds(NormalizedBaselines(list, {}))
  {
    KeptBaselinesShape(list, EntrySlots(list), {});
    FixedIdsDistinct(KeptBaselines(list, EntrySlots(list), {}));
  }

  /** The first entry naming a free slot is the one kept for it. */
  lemma {:induction false} FirstEntryKept(list: seq<Option<RoiValue>>, slots: seq<Option<int>>, seen: set<int>, i: nat)
    requires SlotsFit(list, slots)
    requires i < |list| && slots[i].Some? && slots[i].value !in seen
    requires forall j :: 0 <= j < i ==> slots[j] != slots[i]
    ensures FixedBaseline(list[i].value, slots[i].value) in KeptBaselines(list, slots, seen)
  {
    SlotsFitTail(list, slots);
    var k := slots[0];
    if i > 0 {
      var seen' := if k.Some? && k.value !in seen then seen + {k.value} else seen;
      assert slots[1..][i - 1] == slots[i] && list[1..][i - 1] == list[i];
      assert forall j :: 0 <= j < i - 1 ==> slots[1..][j] == slots[j + 1];
      FirstEntryKept(list[1..], slots[1..], seen', i - 1);
    }
  }

  /** Every kept entry is an entry of the list with its role and id fixed for the slot it names. */
  lemma {:induction false} KeptEntriesComeFromList(list: seq<Option<RoiValue>>, slots: seq<Option<int>>, seen: set<int>, x: RoiValue)
    requires SlotsFit(list, slots)
    requires x in KeptBaselines(list, slots, seen)
    ensures exists i :: 0 <= i < |list| && slots[i].Some? && x == FixedBaseline(list[i].value, slots[i].value)
  {
    SlotsFitTail(list, slots);
    var k := slots[0];
    var seen' := if k.Some? && k.value !in seen then seen + {k.value} else seen;
    if k.Some? && k.value !in seen && x == FixedBaseline(list[0].value, k.value) {
    } else {
      KeptEntriesComeFromList(list[1..], slots[1..], seen', x);
      var i :| 0 <= i < |list| - 1 && slots[1..][i].Some? && x == FixedBaseline(list[1..][i].value, slots[1..][i].value);
      assert list[i + 1] == list[1..][i] && slots[i + 1] == slots[1..][i];
    }
  }

  /** Sanitising an image's list keeps, for each slot some entry names, that slot's first entry. */
  lemma SanitizedListKeepsFirstEntries(list: seq<Option<RoiValue>>, i: nat)
    requires i < |list| && BaselineSlot(list[i]).Some?
    requires forall j :: 0 <= j < i ==> BaselineSlot(list[j]) != BaselineSlot(list[i])
    ensures FixedBaseline(list[i].value, BaselineSlot(list[i]).value) in NormalizedBaselines(list, {})
  {
    var slots := EntrySlots(list);
    forall j | 0 <= j <= i
      ensures slots[j] == BaselineSlot(list[j])
    {
      EntrySlotsAt(list, j);
    }
    FirstEntryKept(list, slots, {}, i);
  }

  /** Sanitising an image's list keeps nothing but its own entries, each fixed for the slot its id names. */
  lemma SanitizedListComesFromList(list: seq<Option<RoiValue>>, x: RoiValue)
    requires x in NormalizedBaselines(list, {})
    ensures exists i :: 0 <= i < |list| && BaselineSlot(list[i]).Some? && x == FixedBaseline(list[i].value, BaselineSlot(list[i]).value)
  {
    var slots := EntrySlots(list);
    KeptEntriesComeFromList(list, slots, {}, x);
    var i :| 0 <= i < |list| && slots[i].Some? && x == FixedBaseline(list[i].value, slots[i].value);
    EntrySlotsAt(list, i);
  }

  /** Sanitising an already sanitised list keeps it. */
  lemma NormalizedBaselinesIdempotent(list: seq<Option<RoiValue>>)
    ensures NormalizedBaselines(WrapAll(NormalizedBaselines(list, {})), {}) == NormalizedBaselines(list, {})
  {
    var r := KeptBaselines(list, EntrySlots(list), {});
    KeptBaselinesShape(list, EntrySlots(list), {});
    ResanitizeFixed(r);
  }

  /** A list of fixed entries for distinct slots is left as it is by sanitising. */
  lemma ResanitizeFixed(r: seq<RoiValue>)
    requires FixedFor(r, {})
    ensures NormalizedBaselines(WrapAll(r), {}) == r
  {
    var w := WrapAll(r);
    var slots := EntrySlots(w);
    forall i | 0 <= i < |r|
      ensures slots[i] == Some(SlotOfFixedId(r[i].id))
    {
      IdSlotOfDefaultId(SlotOfFixedId(r[i].id));
      EntrySlotsAt(w, i);
    }
    ResanitizeFrom(r, slots, 0, {});
    assert r[0..] == r && w[0..] == w && slots[0..] == slots;
  }

  lemma {:induction false} ResanitizeFrom(r: seq<RoiValue>, slots: seq<Option<int>>, n: nat, seen: set<int>)
    requires n <= |r| && |slots| == |r|
    requires FixedFor(r, {})
    requires forall i :: 0 <= i < |r| ==> slots[i] == Some(SlotOfFixedId(r[i].id))
    requires forall i :: n <= i < |r| ==> SlotOfFixedId(r[i].id) !in seen
    ensures SlotsFit(WrapAll(r)[n..], slots[n..])
    ensures KeptBaselines(WrapAll(r)[n..], slots[n..], seen) == r[n..]
    decreases |r| - n
  {
    var w := WrapAll(r);
    assert SlotsFit(w[n..], slots[n..]) by {
      assert forall i :: 0 <= i < |r| - n ==> w[n..][i] == w[n + i] && slots[n..][i] == slots[n + i];
    }
    if n < |r| {
      var k := SlotOfFixedId(r[n].id);
      assert FixedBaseline(r[n], k) == r[n];
      ResanitizeFrom(r, slots, n + 1, seen + {k});
      assert w[n..][1..] == w[n + 1..] && slots[n..][1..] == slots[n + 1..];
      assert r[n..] == [r[n]] + r[n + 1..];
    }
  }

  /** The legacy global inspection moved into slot 1. */
  function MigratedSlot(v: RoiValue): RoiValue
  {
    v.(role := Inspection, id := "Inspection_1")
  }

  /** FixSlot: a present slot gets role Inspection and the slot's fixed id. */
  function FixSlot(slot: Option<RoiValue>, k: int): (r: Option<RoiValue>)
    ensures r.None? <==> slot.None?
    ensures r.Some? ==> r.value.role == Inspection && r.value.id == DefaultId(k)
                        && r.value.(role := slot.value.role, id := slot.value.id) == slot.value
  {
    if slot.None? then None else Some(slot.value.(role := Inspection, id := DefaultId(k)))
  }

  // ---- Slot configuration defaults ----

  /** The two slot values agree on every field except id, name, model key and HasFitOk. */
  predicate SameOtherFields(a: ConfigValue, b: ConfigValue)
  {
    a.(id := b.id, name := b.name, modelKey := b.modelKey, hasFitOk := b.hasFitOk) == b
  }

  lemma SameOtherFieldsTrans(a: ConfigValue, b: ConfigValue, c: ConfigValue)
    requires SameOtherFields(a, b) && SameOtherFields(b, c)
    ensures SameOtherFields(a, c)
  {
  }

  /** The name step: a blank name gets "Inspection n". */
  function NameDefaulted(v: ConfigValue, n: int): (r: ConfigValue)
    ensures !IsBlank(r.name) && (!IsBlank(v.name) ==> r == v)
    ensures r.id == v.id && r.modelKey == v.modelKey && r.hasFitOk == v.hasFitOk && SameOtherFields(r, v)
  {
    DefaultsNotBlank(n);
    if IsBlank(v.name) then WithName(v, DefaultName(n)) else v
  }

  /** The model key step: the key normalised, or inspection-n when that is blank. */
  function KeyDefaulted(v: ConfigValue, n: int): (r: ConfigValue)
    ensures !IsBlank(r.modelKey) && (!IsBlank(v.modelKey) ==> r.modelKey == LayoutKey(v.modelKey))
    ensures r.id == v.id && r.name == v.name && (r.hasFitOk ==> v.hasFitOk) && SameOtherFields(r, v)
  {
    DefaultsNotBlank(n);
    var key := LayoutKey(v.modelKey);
    WithModelKey(v, if IsBlank(key) then DefaultModelKey(n) else key)
  }

  /** The id step: an id other than Inspection_n (in any case) is replaced by it. */
  function IdDefaulted(v: ConfigValue, n: int): (r: ConfigValue)
    ensures EqualsIgnoreCase(r.id, DefaultId(n))
    ensures r.name == v.name && r.modelKey == v.modelKey && r.hasFitOk == v.hasFitOk && SameOtherFields(r, v)
  {
    DefaultsNotBlank(n);
    if IsBlank(v.id) || !EqualsIgnoreCase(v.id, DefaultId(n)) then WithId(v, DefaultId(n)) else v
  }

  /**
   * One slot after EnsureInspectionRoiDefaults at position i: a blank name
   * given the default, the model key normalised (or the default), and the
   * id replaced by Inspection_{i+1} unless it already is that in some case;
   * every assignment goes through the slot's setters.
   */
  function DefaultedSlot(v: ConfigValue, i: nat): ConfigValue
  {
    IdDefaulted(KeyDefaulted(NameDefaulted(v, i + 1), i + 1), i + 1)
  }

  /** What the defaults pass guarantees for slot position i, and what it leaves alone. */
  lemma DefaultedSlotShape(v: ConfigValue, i: nat)
    ensures var r := DefaultedSlot(v, i);
            EqualsIgnoreCase(r.id, DefaultId(i + 1)) && !IsBlank(r.name) && !IsBlank(r.modelKey)
            && (!IsBlank(v.name) ==> r.name == v.name)
            && (!IsBlank(v.modelKey) ==> r.modelKey == LayoutKey(v.modelKey) && LayoutKey(r.modelKey) == r.modelKey)
            && (r.hasFitOk ==> v.hasFitOk)
            && SameOtherFields(r, v)
  {
    var v1 := NameDefaulted(v, i + 1);
    var v2 := KeyDefaulted(v1, i + 1);
    var r := IdDefaulted(v2, i + 1);
    SameOtherFieldsTrans(v2, v1, v);
    SameOtherFieldsTrans(r, v2, v);
    LayoutKeyIdempotent(v.modelKey);
  }

  lemma DefaultModelKeyIsCanonical(n: int)
    requires 1 <= n <= 4
    ensures DefaultModelKey(n) == CanonicalKey(DigitChar(n))
  {
  }

  /** The slots a new layout starts with already satisfy the defaults. */
  lemma InitialSlotsAreStable(i: nat)
    requires i < 4
    ensures DefaultedSlot(Initial(i + 1), i) == Initial(i + 1)
  {
    var v := Initial(i + 1);
    DefaultModelKeyIsCanonical(i + 1);
    CanonicalKeyMatches(DigitChar(i + 1));
    assert LayoutKey(v.modelKey) == v.modelKey;
  }

  /** The defaults pass on every slot of a collection, by position. */
  function DefaultedSlots(rois: seq<ConfigValue>): (r: seq<ConfigValue>)
    ensures |r| == |rois|
  {
    seq(|rois|, i requires 0 <= i < |rois| => DefaultedSlot(rois[i], i))
  }

  /** The per-image baselines after sanitising: a missing list read as empty. */
  function SanitizedBaselineMap(m: map<string, Option<seq<Option<RoiValue>>>>): map<string, Option<seq<Option<RoiValue>>>>
  {
    map key | key in m :: SanitizedEntry(m[key])
  }

  /** One image's baselines after sanitising: a missing list read as empty. */
  function SanitizedEntry(entry: Option<seq<Option<RoiValue>>>): Option<seq<Option<RoiValue>>>
  {
    Some(WrapAll(NormalizedBaselines(if entry.Some? then entry.value else [], {})))
  }

  function WrapAll(r: seq<RoiValue>): (w: seq<Option<RoiValue>>)
    ensures |w| == |r| && forall i :: 0 <= i < |r| ==> w[i] == Some(r[i])
  {
    seq(|r|, i requires 0 <= i < |r| => Some(r[i]))
  }

  /** The part of a master layout the load and save passes rewrite. */
  class Layout {
    var inspection: Option<RoiValue>
    var inspection1: Option<RoiValue>
    var inspection2: Option<RoiValue>
    var inspection3: Option<RoiValue>
    var inspection4: Option<RoiValue>
    var inspectionRois: seq<ConfigValue>
    var baselinesByImage: Option<map<string, Option<seq<Option<RoiValue>>>>>

    /** new MasterLayout(): no ROIs, four default slots, an empty baseline map. */
    constructor()
      ensures inspection.None? && inspection1.None? && inspection2.None? && inspection3.None? && inspection4.None?
      ensures inspectionRois == [Initial(1), Initial(2), Initial(3), Initial(4)]
      ensures baselinesByImage == Some(map[])
    {
      inspection, inspection1, inspection2, inspection3, inspection4 := None, None, None, None, None;
      inspectionRois := [Initial(1), Initial(2), Initial(3), Initial(4)];
      baselinesByImage := Some(map[]);
    }

    /**
     * EnsureInspectionRoiDefaults: every slot defaulted by position; a
     * legacy global inspection moved into slot 1 when no slot is set; the
     * global inspection cleared.
     */
    method EnsureInspectionRoiDefaults()
      modifies this
      ensures inspectionRois == DefaultedSlots(old(inspectionRois))
      ensures inspection.None?
      ensures inspection1 == (if old(inspection1).None? && old(inspection2).None? && old(inspection3).None?
                                 && old(inspection4).None? && old(inspection).Some?
                              then Some(MigratedSlot(old(inspection).value)) else old(inspection1))
      ensures inspection2 == old(inspection2) && inspection3 == old(inspection3) && inspection4 == old(inspection4)
      ensures baselinesByImage == old(baselinesByImage)
    {
      inspectionRois := DefaultSlotList(inspectionRois);
      if inspection1.None? && inspection2.None? && inspection3.None? && inspection4.None? && inspection.Some? {
        inspection1 := Some(MigratedSlot(inspection.value));
      }
      inspection := None;
    }

    /**
     * SanitizeForSave: the global inspection dropped, each present slot
     * given role Inspection and its fixed id, and every image's baselines
     * reduced to the first entry per slot 1..4.
     */
    method SanitizeForSave()
      modifies this
      ensures inspection.None?
      ensures inspection1 == FixSlot(old(inspection1), 1) && inspection2 == FixSlot(old(inspection2), 2)
      ensures inspection3 == FixSlot(old(inspection3), 3) && inspection4 == FixSlot(old(inspection4), 4)
      ensures inspectionRois == old(inspectionRois)
      ensures baselinesByImage.None? <==> old(baselinesByImage).None?
      ensures baselinesByImage.Some? ==> baselinesByImage.value == SanitizedBaselineMap(old(baselinesByImage).value)
    {
      inspection := None;
      inspection1 := FixSlot(inspection1, 1);
      inspection2 := FixSlot(inspection2, 2);
      inspection3 := FixSlot(inspection3, 3);
      inspection4 := FixSlot(inspection4, 4);
      if baselinesByImage.Some? {
        var m := SanitizeBaselineMap(baselinesByImage.value);
        baselinesByImage := Some(m);
      }
    }
  }

  /** The defaults loop of EnsureInspectionRoiDefaults, slot by slot. */
  method DefaultSlotList(original: seq<ConfigValue>) returns (rois: seq<ConfigValue>)
    ensures rois == DefaultedSlots(original)
  {
    rois := original;
    for i := 0 to |rois|
      invariant |rois| == |original|
      invariant forall j :: 0 <= j < i ==> rois[j] == DefaultedSlot(original[j], j)
      invariant forall j :: i <= j < |rois| ==> rois[j] == original[j]
    {
      var roi := DefaultSlotAt(rois[i], i);
      rois := rois[i := roi];
    }
  }

  method DefaultSlotAt(v: ConfigValue, i: nat) returns (roi: ConfigValue)
    ensures roi == DefaultedSlot(v, i)
  {
    roi := v;
    if IsBlank(roi.name) {
      roi := WithName(roi, DefaultName(i + 1));
    }
    assert roi == NameDefaulted(v, i + 1);
    var normalizedKey := LayoutKey(roi.modelKey);
    if IsBlank(normalizedKey) {
      normalizedKey := DefaultModelKey(i + 1);
    }
    roi := WithModelKey(roi, normalizedKey);
    var expectedId := DefaultId(i + 1);
    if IsBlank(roi.id) || !EqualsIgnoreCase(roi.id, expectedId) {
      roi := WithId(roi, expectedId);
    }
  }

  /** The inner loop of SanitizeForSave over one image's list, with the set of slots seen. */
  method NormalizeBaselineList(list: seq<Option<RoiValue>>) returns (normalized: seq<RoiValue>)
    ensures normalized == NormalizedBaselines(list, {})
  {
    ghost var slots := EntrySlots(list);
    forall i | 0 <= i < |list|
      ensures slots[i] == BaselineSlot(list[i])
    {
      EntrySlotsAt(list, i);
    }
    normalized := KeepFirstPerSlot(list, slots);
  }

  /** The loop of NormalizeBaselineList, given the slot each entry names. */
  method KeepFirstPerSlot(list: seq<Option<RoiValue>>, ghost slots: seq<Option<int>>) returns (normalized: seq<RoiValue>)
    requires SlotsFit(list, slots)
    requires forall i :: 0 <= i < |list| ==> slots[i] == BaselineSlot(list[i])
    ensures normalized == KeptBaselines(list, slots, {})
  {
    var seen: set<int> := {};
    normalized := [];
    assert list[0..] == list && slots[0..] == slots;
    for i := 0 to |list|
      invariant SlotsFit(list[i..], slots[i..])
      invariant normalized + KeptBaselines(list[i..], slots[i..], seen) == KeptBaselines(list, slots, {})
    {
      assert list[i..][1..] == list[i + 1..] && slots[i..][1..] == slots[i + 1..];
      assert slots[i..][0] == slots[i] && list[i..][0] == list[i];
      var idx := EntrySlot(list[i]);
      normalized, seen := KeepEntry(list[i..], slots[i..], idx, normalized, seen);
    }
    assert list[|list|..] == [];
  }

  /** One iteration of KeepFirstPerSlot on the rest of the list: its first entry, naming slot idx, kept when that slot is not yet seen. */
  method KeepEntry(rest: seq<Option<RoiValue>>, ghost slots: seq<Option<int>>, idx: Option<int>, normalized: seq<RoiValue>, seen: set<int>)
    returns (normalized': seq<RoiValue>, seen': set<int>)
    requires rest != [] && SlotsFit(rest, slots) && slots[0] == idx
    ensures SlotsFit(rest[1..], slots[1..])
    ensures normalized' + KeptBaselines(rest[1..], slots[1..], seen') == normalized + KeptBaselines(rest, slots, seen)
  {
    var roi := rest[0];
    KeptStep(rest, slots, seen);
    if idx.None? || idx.value in seen {
      return normalized, seen;
    }
    var x := FixedBaseline(roi.value, idx.value);
    var tail := KeptBaselines(rest[1..], slots[1..], seen + {idx.value});
    assert normalized + [x] + tail == normalized + ([x] + tail);
    normalized', seen' := normalized + [x], seen + {idx.value};
  }

  /** The checks SanitizeForSave applies to one entry: present, a non-blank id, the prefix, an integer 1..4. */
  method EntrySlot(roi: Option<RoiValue>) returns (idx: Option<int>)
    ensures idx == BaselineSlot(roi)
  {
    if roi.None? {
      return None;
    }
    var id := roi.value.id;
    if IsBlank(id) || !StartsWithIgnoreCase(id, SlotPrefix) {
      return None;
    }
    idx := ParseInt(id[|SlotPrefix|..]);
    if idx.None? || idx.value < 1 || idx.value > 4 {
      return None;
    }
  }

  /** The outer loop of SanitizeForSave: every image's list replaced by its sanitised form. */
  method SanitizeBaselineMap(m: map<string, Option<seq<Option<RoiValue>>>>) returns (result: map<string, Option<seq<Option<RoiValue>>>>)
    ensures result == SanitizedBaselineMap(m)
  {
    result := ReplaceEach(m, SanitizedEntry);
    assert forall key :: key in result ==> result[key] == SanitizedBaselineMap(m)[key];
  }

  /** Every value of the map replaced by `f` of it, one key at a time. */
  method ReplaceEach<V>(m: map<string, V>, f: V -> V) returns (result: map<string, V>)
    ensures result.Keys == m.Keys
    ensures forall key :: key in m ==> result[key] == f(m[key])
  {
    result := m;
    var pending := m.Keys;
    while pending != {}
      invariant pending <= result.Keys && result.Keys == m.Keys
      invariant forall key :: key in result ==> result[key] == if key in pending then m[key] else f(m[key])
      decreases pending
    {
      var key :| key in pending;
      result := result[key := f(result[key])];
      pending := pending - {key};
    }
  }

}
