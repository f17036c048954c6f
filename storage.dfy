/**
 * The naming rules of ModelStore: the legacy sanitised names, the injective
 * encoding of role and ROI identifiers (UTF-8, then url-safe base64 without
 * padding), the artifact base name, the order in which saved artifacts are
 * looked up, and the dataset listing.
 *
 * The filesystem is a parameter: `present` says whether a path exists and
 * `listing` gives the file names of a directory.
 */
module Storage {
  import opened Wrappers
  import opened Text

  type Byte = x: int | 0 <= x < 256

  // ---------------------------------------------------------------------
  // Legacy sanitised names
  // ---------------------------------------------------------------------

  predicate IsSafeChar(c: char)
  {
    IsLetterOrDigit(c) || c == '-' || c == '_'
  }

  function SanitizeChar(c: char): (r: char)
    ensures IsSafeChar(r)
    ensures IsSafeChar(c) ==> r == c
    ensures !IsSafeChar(c) ==> r == '_'
  {
    if IsSafeChar(c) then c else '_'
  }

  /** ModelStore._sanitize. */
  function Sanitize(value: string): (r: string)
    ensures r != []
    ensures forall i :: 0 <= i < |r| ==> IsSafeChar(r[i])
    ensures PyStrip(value) == [] ==> r == "default"
    ensures PyStrip(value) != [] ==> |r| == |PyStrip(value)|
    ensures PyStrip(value) != [] ==>
              forall i :: 0 <= i < |r| ==>
                && (IsSafeChar(PyStrip(value)[i]) ==> r[i] == PyStrip(value)[i])
                && (!IsSafeChar(PyStrip(value)[i]) ==> r[i] == '_')
  {
    var stripped := PyStrip(value);
    var cleaned := seq(|stripped|, i requires 0 <= i < |stripped| => SanitizeChar(stripped[i]));
    if cleaned == [] then "default" else cleaned
  }

  /** Sanitising a sanitised name changes nothing. */
  lemma SanitizeIdempotent(value: string)
    ensures Sanitize(Sanitize(value)) == Sanitize(value)
  {
    var r := Sanitize(value);
    PyStripOfUnpadded(r);
  }

  /** ModelStore._legacy_flat_base_name. */
  function LegacyFlatBaseName(roleId: string, roiId: string): (r: string)
    ensures |r| >= 3
    ensures forall i :: 0 <= i < |r| ==> IsSafeChar(r[i])
  {
    Sanitize(roleId) + "_" + Sanitize(roiId)
  }

  /** The legacy names are not injective, which is why the encoded names replaced them. */
  lemma LegacyFlatNamesCollide()
    ensures LegacyFlatBaseName("a_b", "c") == LegacyFlatBaseName("a", "b_c")
    ensures Sanitize("a b") == Sanitize("a_b")
  {
    PyStripOfUnpadded("a_b");
    PyStripOfUnpadded("a");
    PyStripOfUnpadded("b_c");
    PyStripOfUnpadded("c");
    PyStripOfUnpadded("a b");
  }

  // ---------------------------------------------------------------------
  // UTF-8
  // ---------------------------------------------------------------------

  /** The UTF-8 encoding of one Unicode scalar value. */
  function Utf8Char(c: char): (r: seq<Byte>)
    ensures 1 <= |r| <= 4
    ensures forall k :: 0 <= k < |r| ==> r[k] <= 0xF4
    ensures |r| == 1 <==> r[0] < 0x80
    ensures |r| == 2 <==> 0xC0 <= r[0] < 0xE0
    ensures |r| == 3 <==> 0xE0 <= r[0] < 0xF0
    ensures |r| == 4 <==> 0xF0 <= r[0]
  {
    var n := c as int;
    if n < 0x80 then [n]
    else if n < 0x800 then [0xC0 + n / 64, 0x80 + n % 64]
    else if n < 0x10000 then [0xE0 + n / 4096, 0x80 + (n / 64) % 64, 0x80 + n % 64]
    else
      assert n < 0x110000;
      [0xF0 + n / 262144, 0x80 + (n / 4096) % 64, 0x80 + (n / 64) % 64, 0x80 + n % 64]
  }

  /** The scalar value that one encoded character's bytes carry. */
  function ScalarOf(b: seq<Byte>): int
    requires 1 <= |b| <= 4
  {
    var x0 := b[0] as int;
    if |b| == 1 then x0
    else
      var x1 := b[1] as int - 0x80;
      if |b| == 2 then (x0 - 0xC0) * 64 + x1
      else
        var x2 := b[2] as int - 0x80;
        if |b| == 3 then (x0 - 0xE0) * 4096 + x1 * 64 + x2
        else (x0 - 0xF0) * 262144 + x1 * 4096 + x2 * 64 + (b[3] as int - 0x80)
  }

  /** The bytes of a character carry its scalar value back. */
  lemma ScalarOfUtf8Char(c: char)
    ensures ScalarOf(Utf8Char(c)) == c as int
  {
    var n := c as int;
    if 0x800 <= n < 0x10000 {
      assert n == (n / 4096) * 4096 + ((n / 64) % 64) * 64 + n % 64;
    } else if n >= 0x10000 {
      assert n / 64 == (n / 4096) * 64 + (n / 64) % 64;
      assert n / 4096 == (n / 262144) * 64 + (n / 4096) % 64;
    }
  }

  /** str.encode("utf-8"). */
  function Utf8(s: string): (r: seq<Byte>)
    ensures forall k :: 0 <= k < |r| ==> r[k] <= 0xF4
    ensures |r| == 0 <==> |s| == 0
  {
    if s == [] then [] else Utf8Char(s[0]) + Utf8(s[1..])
  }

  /** No encoded character is a proper prefix of another, so the first one can be read off. */
  lemma Utf8CharPrefixFree(c: char, d: char, x: seq<Byte>, y: seq<Byte>)
    requires Utf8Char(c) + x == Utf8Char(d) + y
    ensures c == d && x == y
  {
    var u, v := Utf8Char(c), Utf8Char(d);
    assert u[0] == (u + x)[0] == (v + y)[0] == v[0];
    assert |u| == |v|;
    assert u == (u + x)[..|u|] == (v + y)[..|v|] == v;
    ScalarOfUtf8Char(c);
    ScalarOfUtf8Char(d);
    assert c as int == ScalarOf(u) == ScalarOf(v) == d as int;
    assert x == (u + x)[|u|..] == (v + y)[|v|..] == y;
  }

  /** Different strings have different UTF-8 encodings. */
  lemma {:induction false} Utf8Injective(s: string, t: string)
    requires Utf8(s) == Utf8(t)
    ensures s == t
  {
    if s != [] && t != [] {
      Utf8CharPrefixFree(s[0], t[0], Utf8(s[1..]), Utf8(t[1..]));
      Utf8Injective(s[1..], t[1..]);
      assert s == [s[0]] + s[1..] && t == [t[0]] + t[1..];
    }
  }

  // ---------------------------------------------------------------------
  // Url-safe base64
  // ---------------------------------------------------------------------

  /** The url-safe alphabet: A-Z, a-z, 0-9, '-', '_'. */
  function B64Char(i: int): (c: char)
    requires 0 <= i < 64
    ensures c == '_' <==> i == 63
    ensures c != '='
  {
    if i < 26 then ('A' as int + i) as char
    else if i < 52 then ('a' as int + i - 26) as char
    else if i < 62 then ('0' as int + i - 52) as char
    else if i == 62 then '-'
    else '_'
  }

  /** The position of a character in the alphabet (0 for a character outside it). */
  function B64Index(c: char): (i: int)
    ensures 0 <= i < 64
  {
    if 'A' <= c <= 'Z' then c as int - 'A' as int
    else if 'a' <= c <= 'z' then c as int - 'a' as int + 26
    else if '0' <= c <= '9' then c as int - '0' as int + 52
    else if c == '-' then 62
    else if c == '_' then 63
    else 0
  }

  lemma B64IndexOfChar(i: int)
    requires 0 <= i < 64
    ensures B64Index(B64Char(i)) == i
  {
  }

  function Encode3(b0: Byte, b1: Byte, b2: Byte): (r: string)
    ensures |r| == 4
  {
    [B64Char(b0 / 4), B64Char((b0 % 4) * 16 + b1 / 16), B64Char((b1 % 16) * 4 + b2 / 64), B64Char(b2 % 64)]
  }

  function Encode2(b0: Byte, b1: Byte): (r: string)
    ensures |r| == 3
  {
    [B64Char(b0 / 4), B64Char((b0 % 4) * 16 + b1 / 16), B64Char((b1 % 16) * 4)]
  }

  function Encode1(b0: Byte): (r: string)
    ensures |r| == 2
  {
    [B64Char(b0 / 4), B64Char((b0 % 4) * 16)]
  }

  /** base64.urlsafe_b64encode without its '=' padding: four characters per three bytes. */
  function B64Unpadded(b: seq<Byte>): (r: string)
    ensures |r| == 0 <==> |b| == 0
    ensures forall k :: 0 <= k < |r| ==> r[k] != '='
    decreases |b|
  {
    if |b| >= 3 then Encode3(b[0], b[1], b[2]) + B64Unpadded(b[3..])
    else if |b| == 2 then Encode2(b[0], b[1])
    else if |b| == 1 then Encode1(b[0])
    else []
  }

  /** base64.urlsafe_b64encode: the unpadded text followed by '=' up to a multiple of four. */
  function B64Padded(b: seq<Byte>): (r: string)
  {
    B64Unpadded(b) + (if |b| % 3 == 1 then "==" else if |b| % 3 == 2 then "=" else "")
  }

  /** Decoding of unpadded url-safe base64, group by group. */
  function B64Decode(s: string): (r: seq<Byte>)
    decreases |s|
  {
    if |s| >= 4 then
      var i0, i1, i2, i3 := B64Index(s[0]), B64Index(s[1]), B64Index(s[2]), B64Index(s[3]);
      [i0 * 4 + i1 / 16, (i1 % 16) * 16 + i2 / 4, (i2 % 4) * 64 + i3] + B64Decode(s[4..])
    else if |s| == 3 then
      var i0, i1, i2 := B64Index(s[0]), B64Index(s[1]), B64Index(s[2]);
      [i0 * 4 + i1 / 16, (i1 % 16) * 16 + i2 / 4]
    else if |s| == 2 then
      var i0, i1 := B64Index(s[0]), B64Index(s[1]);
      [i0 * 4 + i1 / 16]
    else []
  }

  lemma Group3Arithmetic(b0: Byte, b1: Byte, b2: Byte)
    ensures var i0, i1, i2, i3 := b0 / 4, (b0 % 4) * 16 + b1 / 16, (b1 % 16) * 4 + b2 / 64, b2 % 64;
            i0 * 4 + i1 / 16 == b0 && (i1 % 16) * 16 + i2 / 4 == b1 && (i2 % 4) * 64 + i3 == b2
  {
  }

  lemma Group3Decode(b0: Byte, b1: Byte, b2: Byte, rest: string)
    ensures B64Decode(Encode3(b0, b1, b2) + rest) == [b0, b1, b2] + B64Decode(rest)
  {
    var e := Encode3(b0, b1, b2);
    assert (e + rest)[..4] == e && (e + rest)[4..] == rest;
    B64IndexOfChar(b0 / 4);
    B64IndexOfChar((b0 % 4) * 16 + b1 / 16);
    B64IndexOfChar((b1 % 16) * 4 + b2 / 64);
    B64IndexOfChar(b2 % 64);
    Group3Arithmetic(b0, b1, b2);
  }

  lemma Tail2Decode(b0: Byte, b1: Byte)
    ensures B64Decode(Encode2(b0, b1)) == [b0, b1]
  {
    var i0, i1, i2 := b0 / 4, (b0 % 4) * 16 + b1 / 16, (b1 % 16) * 4;
    B64IndexOfChar(i0);
    B64IndexOfChar(i1);
    B64IndexOfChar(i2);
    assert i0 * 4 + i1 / 16 == b0 && (i1 % 16) * 16 + i2 / 4 == b1;
  }

  lemma Tail1Decode(b0: Byte)
    ensures B64Decode(Encode1(b0)) == [b0]
  {
    var i0, i1 := b0 / 4, (b0 % 4) * 16;
    B64IndexOfChar(i0);
    B64IndexOfChar(i1);
    assert i0 * 4 + i1 / 16 == b0;
  }

  /** Decoding undoes the encoding. */
  lemma {:induction false} B64RoundTrip(b: seq<Byte>)
    ensures B64Decode(B64Unpadded(b)) == b
    decreases |b|
  {
    if |b| >= 3 {
      Group3Decode(b[0], b[1], b[2], B64Unpadded(b[3..]));
      B64RoundTrip(b[3..]);
      assert b == [b[0], b[1], b[2]] + b[3..];
    } else if |b| == 2 {
      Tail2Decode(b[0], b[1]);
      assert b == [b[0], b[1]];
    } else if |b| == 1 {
      Tail1Decode(b[0]);
      assert b == [b[0]];
    }
  }

  lemma B64Injective(b: seq<Byte>, c: seq<Byte>)
    requires B64Unpadded(b) == B64Unpadded(c)
    ensures b == c
  {
    B64RoundTrip(b);
    B64RoundTrip(c);
  }

  /** Stripping the trailing '=' of the padded text gives the unpadded text. */
  lemma StripPadding(b: seq<Byte>)
    ensures TrimEndChar(B64Padded(b), '=') == B64Unpadded(b)
  {
    var u := B64Unpadded(b);
    var pad := if |b| % 3 == 1 then "==" else if |b| % 3 == 2 then "=" else "";
    TrimEndCharOfPadding(u, pad);
  }

  lemma {:induction false} TrimEndCharOfPadding(u: string, pad: string)
    requires forall k :: 0 <= k < |u| ==> u[k] != '='
    requires forall k :: 0 <= k < |pad| ==> pad[k] == '='
    ensures TrimEndChar(u + pad, '=') == u
    decreases |pad|
  {
    if pad != [] {
      var s := u + pad;
      assert s[..|s| - 1] == u + pad[..|pad| - 1];
      TrimEndCharOfPadding(u, pad[..|pad| - 1]);
    }
  }

  // ---------------------------------------------------------------------
  // No "__" inside an encoded component
  // ---------------------------------------------------------------------

  predicate NoDoubleUnderscore(s: string)
  {
    forall i :: 0 <= i < |s| - 1 ==> !(s[i] == '_' && s[i + 1] == '_')
  }

  predicate BytesBelow(b: seq<Byte>, bound: int)
  {
    forall k :: 0 <= k < |b| ==> b[k] < bound
  }

  lemma NoDoubleUnderscoreConcat(x: string, y: string)
    requires NoDoubleUnderscore(x) && NoDoubleUnderscore(y)
    requires y == [] || y[0] != '_'
    ensures NoDoubleUnderscore(x + y)
  {
    var s := x + y;
    forall i | 0 <= i < |s| - 1 ensures !(s[i] == '_' && s[i + 1] == '_') {
      if i + 1 < |x| {
        assert s[i] == x[i] && s[i + 1] == x[i + 1];
      } else if i + 1 == |x| {
        assert s[i + 1] == y[0];
      } else {
        assert s[i] == y[i - |x|] && s[i + 1] == y[i + 1 - |x|];
      }
    }
  }

  /**
   * A '_' is the sixth bit group 111111: two in a row need a byte 0xFF, or a
   * byte of at least 0xFC at the start of a group. UTF-8 has neither.
   */
  lemma {:induction false} B64NoDoubleUnderscore(b: seq<Byte>)
    requires BytesBelow(b, 0xFC)
    ensures NoDoubleUnderscore(B64Unpadded(b))
    ensures B64Unpadded(b) == [] || B64Unpadded(b)[0] != '_'
    decreases |b|
  {
    if |b| >= 3 {
      var b0, b1, b2 := b[0], b[1], b[2];
      assert !((b0 % 4) * 16 + b1 / 16 == 63 && (b1 % 16) * 4 + b2 / 64 == 63);
      assert !((b1 % 16) * 4 + b2 / 64 == 63 && b2 % 64 == 63);
      B64NoDoubleUnderscore(b[3..]);
      NoDoubleUnderscoreConcat(Encode3(b0, b1, b2), B64Unpadded(b[3..]));
    }
  }

  // ---------------------------------------------------------------------
  // Component encoding and base names
  // ---------------------------------------------------------------------

  /** ModelStore._encode_component. */
  function EncodeComponent(value: string): (r: string)
    ensures r != []
    ensures value == [] ==> r == "default"
    ensures value != [] ==> r == B64Unpadded(Utf8(value))
  {
    if value == [] then "default"
    else
      var encoded := TrimEndChar(B64Padded(Utf8(value)), '=');
      StripPadding(Utf8(value));
      if encoded == [] then "default" else encoded
  }

  /** "default" is not the unpadded encoding of any bytes: its last character carries non-zero spare bits. */
  lemma DefaultIsNotAnEncoding(b: seq<Byte>)
    ensures B64Unpadded(b) != "default"
  {
    if |b| >= 3 {
      var rest := B64Unpadded(b[3..]);
      if |rest| == 3 {
        assert |b[3..]| == 2;
        var x := (b[4] % 16) * 4;
        assert rest[2] == B64Char(x);
        assert B64Index('t') == 45;
        B64IndexOfChar(x);
        assert B64Unpadded(b)[6] == rest[2];
      }
    }
  }

  /** Different identifiers get different encoded components. */
  lemma EncodeComponentInjective(x: string, y: string)
    requires EncodeComponent(x) == EncodeComponent(y)
    ensures x == y
  {
    if x != [] && y != [] {
      B64Injective(Utf8(x), Utf8(y));
      Utf8Injective(x, y);
    } else if x != [] {
      DefaultIsNotAnEncoding(Utf8(x));
    } else if y != [] {
      DefaultIsNotAnEncoding(Utf8(y));
    }
  }

  lemma EncodeComponentShape(value: string)
    ensures NoDoubleUnderscore(EncodeComponent(value))
    ensures EncodeComponent(value)[0] != '_'
  {
    if value != [] {
      B64NoDoubleUnderscore(Utf8(value));
    }
  }

  /** ModelStore._base_name. */
  function BaseName(roleId: string, roiId: string): (r: string)
    ensures |r| >= 4
  {
    EncodeComponent(roleId) + "__" + EncodeComponent(roiId)
  }

  /** In a + "__" + b, with no "__" in b and b not starting with '_', no "__" starts after a's end. */
  lemma SeparatorIsLast(a: string, b: string)
    requires NoDoubleUnderscore(b) && |b| > 0 && b[0] != '_'
    ensures var s := a + "__" + b;
            forall k :: 0 <= k < |s| - 1 && s[k] == '_' && s[k + 1] == '_' ==> k <= |a|
  {
    var s := a + "__" + b;
    forall k | 0 <= k < |s| - 1 ensures s[k] == '_' && s[k + 1] == '_' ==> k <= |a| {
      if k == |a| + 1 {
        assert s[k + 1] == b[0];
      } else if k > |a| + 1 {
        assert s[k] == b[k - |a| - 2] && s[k + 1] == b[k - |a| - 1];
      }
    }
  }

  /** a + "__" + b splits back into a and b when b has no "__" and does not start with '_'. */
  lemma SplitAtSeparator(a: string, b: string, c: string, d: string)
    requires NoDoubleUnderscore(b) && |b| > 0 && b[0] != '_'
    requires NoDoubleUnderscore(d) && |d| > 0 && d[0] != '_'
    requires a + "__" + b == c + "__" + d
    ensures a == c && b == d
  {
    var s := a + "__" + b;
    SeparatorIsLast(a, b);
    SeparatorIsLast(c, d);
    assert s[|c|] == '_' && s[|c| + 1] == '_' by {
      assert s == c + "__" + d;
    }
    assert s[|a|] == '_' && s[|a| + 1] == '_';
    assert |a| == |c|;
    assert a == s[..|a|] == c;
    assert b == s[|a| + 2..] == d;
  }

  /** Different (role, roi) pairs get different base names, so their artifacts never share a file. */
  lemma BaseNameInjective(role1: string, roi1: string, role2: string, roi2: string)
    requires BaseName(role1, roi1) == BaseName(role2, roi2)
    ensures role1 == role2 && roi1 == roi2
  {
    EncodeComponentShape(roi1);
    EncodeComponentShape(roi2);
    SplitAtSeparator(EncodeComponent(role1), EncodeComponent(roi1), EncodeComponent(role2), EncodeComponent(roi2));
    EncodeComponentInjective(role1, role2);
    EncodeComponentInjective(roi1, roi2);
  }

  // ---------------------------------------------------------------------
  // Paths and lookup order
  // ---------------------------------------------------------------------

  /** Path(a) / b. */
  function Join(dir: string, name: string): string
  {
    dir + "/" + name
  }

  function MemoryPath(root: string, roleId: string, roiId: string): string
  {
    Join(root, BaseName(roleId, roiId) + ".npz")
  }

  function LegacyDir(root: string, roleId: string, roiId: string): string
  {
    Join(Join(root, Sanitize(roleId)), Sanitize(roiId))
  }

  /** The places load_memory looks, in order: the encoded name, the flat legacy name, the legacy directory. */
  function MemoryCandidates(root: string, roleId: string, roiId: string): (r: seq<string>)
    ensures |r| == 3 && r[0] == MemoryPath(root, roleId, roiId)
  {
    [MemoryPath(root, roleId, roiId),
     Join(root, LegacyFlatBaseName(roleId, roiId) + ".npz"),
     Join(LegacyDir(root, roleId, roiId), "memory.npz")]
  }

  /** The places load_index_blob looks, in the same order. */
  function IndexCandidates(root: string, roleId: string, roiId: string): (r: seq<string>)
    ensures |r| == 3
  {
    [Join(root, BaseName(roleId, roiId) + "_index.faiss"),
     Join(root, LegacyFlatBaseName(roleId, roiId) + "_index.faiss"),
     Join(LegacyDir(root, roleId, roiId), "index.faiss")]
  }

  /** The first candidate that exists, or None when none does. */
  function FirstExisting(present: string -> bool, candidates: seq<string>): (r: Option<string>)
    ensures r.None? <==> forall k :: 0 <= k < |candidates| ==> !present(candidates[k])
    ensures r.Some? ==> exists k :: 0 <= k < |candidates| && candidates[k] == r.value
                          && present(r.value) && forall j :: 0 <= j < k ==> !present(candidates[j])
  {
    if candidates == [] then None
    else if present(candidates[0]) then Some(candidates[0])
    else
      var r := FirstExisting(present, candidates[1..]);
      assert forall k :: 1 <= k < |candidates| ==> candidates[k] == candidates[1..][k - 1];
      r
  }

  /** The file load_memory reads, or None when it returns None. */
  function LoadMemoryPath(present: string -> bool, root: string, roleId: string, roiId: string): Option<string>
  {
    FirstExisting(present, MemoryCandidates(root, roleId, roiId))
  }

  /** The file load_index_blob reads, or None. */
  function LoadIndexPath(present: string -> bool, root: string, roleId: string, roiId: string): Option<string>
  {
    FirstExisting(present, IndexCandidates(root, roleId, roiId))
  }

  /**
   * The file load_calib hands to load_json: the first existing of the encoded
   * and the flat legacy names, else the legacy directory's calib.json
   * whether it exists or not (load_json then yields the default).
   */
  function LoadCalibPath(present: string -> bool, root: string, roleId: string, roiId: string): (r: string)
    ensures present(Join(root, BaseName(roleId, roiId) + "_calib.json")) ==>
              r == Join(root, BaseName(roleId, roiId) + "_calib.json")
    ensures r in [Join(root, BaseName(roleId, roiId) + "_calib.json"),
                  Join(root, LegacyFlatBaseName(roleId, roiId) + "_calib.json"),
                  Join(LegacyDir(root, roleId, roiId), "calib.json")]
  {
    var first := FirstExisting(present, [Join(root, BaseName(roleId, roiId) + "_calib.json"),
                                        Join(root, LegacyFlatBaseName(roleId, roiId) + "_calib.json")]);
    if first.Some? then first.value else Join(LegacyDir(root, roleId, roiId), "calib.json")
  }

  /** Once save_memory has written the encoded file, load_memory reads that file, whatever legacy files exist. */
  lemma SavedMemoryWins(present: string -> bool, root: string, roleId: string, roiId: string)
    requires present(MemoryPath(root, roleId, roiId))
    ensures LoadMemoryPath(present, root, roleId, roiId) == Some(MemoryPath(root, roleId, roiId))
  {
  }

  /** With no file at any of the three places, load_memory returns None. */
  lemma MissingMemoryIsNone(present: string -> bool, root: string, roleId: string, roiId: string)
    requires forall p :: p in MemoryCandidates(root, roleId, roiId) ==> !present(p)
    ensures LoadMemoryPath(present, root, roleId, roiId).None?
  {
    var c := MemoryCandidates(root, roleId, roiId);
    assert forall k :: 0 <= k < |c| ==> c[k] in c;
  }

  // ---------------------------------------------------------------------
  // Dataset listing
  // ---------------------------------------------------------------------

  /** Python's ordering of str: code point by code point, a prefix first. */
  predicate StrLe(a: string, b: string)
  {
    a == [] || (b != [] && (a[0] < b[0] || (a[0] == b[0] && StrLe(a[1..], b[1..]))))
  }

  lemma {:induction false} StrLeTotal(a: string, b: string)
    ensures StrLe(a, b) || StrLe(b, a)
  {
    if a != [] && b != [] && a[0] == b[0] {
      StrLeTotal(a[1..], b[1..]);
    }
  }

  lemma {:induction false} StrLeTransitive(a: string, b: string, c: string)
    requires StrLe(a, b) && StrLe(b, c)
    ensures StrLe(a, c)
  {
    if a != [] && a[0] == b[0] && b[0] == c[0] {
      StrLeTransitive(a[1..], b[1..], c[1..]);
    }
  }

  predicate SortedStrings(s: seq<string>)
  {
    forall i, j :: 0 <= i < j < |s| ==> StrLe(s[i], s[j])
  }

  /** The first position whose name sorts after `x`, or the end. */
  method FindNameSlot(s: seq<string>, x: string) returns (k: nat)
    ensures k <= |s|
    ensures forall j :: 0 <= j < k ==> StrLe(s[j], x)
    ensures k < |s| ==> !StrLe(s[k], x)
  {
    k := 0;
    while k < |s| && StrLe(s[k], x)
      invariant 0 <= k <= |s|
      invariant forall j :: 0 <= j < k ==> StrLe(s[j], x)
    {
      k := k + 1;
    }
  }

  lemma InsertName(s: seq<string>, k: nat, x: string)
    requires SortedStrings(s) && k <= |s|
    requires forall j :: 0 <= j < k ==> StrLe(s[j], x)
    requires k < |s| ==> !StrLe(s[k], x)
    ensures SortedStrings(s[..k] + [x] + s[k..])
    ensures multiset(s[..k] + [x] + s[k..]) == multiset(s) + multiset{x}
  {
    assert s == s[..k] + s[k..];
    var t := s[..k] + [x] + s[k..];
    if k < |s| {
      StrLeTotal(s[k], x);
    }
    forall i, j | 0 <= i < j < |t| ensures StrLe(t[i], t[j]) {
      if j < k || i > k {
      } else if i == k {
        assert t[j] == s[j - 1];
        if j - 1 > k {
          StrLeTransitive(x, s[k], s[j - 1]);
        }
      } else if j == k {
      } else {
        assert t[j] == s[j - 1] && t[i] == s[i];
      }
    }
  }

  /** sorted(names). */
  method SortNames(names: seq<string>) returns (sorted: seq<string>)
    ensures SortedStrings(sorted)
    ensures multiset(sorted) == multiset(names)
  {
    sorted := [];
    var i := 0;
    while i < |names|
      invariant 0 <= i <= |names|
      invariant SortedStrings(sorted)
      invariant multiset(sorted) == multiset(names[..i])
    {
      var k := FindNameSlot(sorted, names[i]);
      InsertName(sorted, k, names[i]);
      assert names[..i + 1] == names[..i] + [names[i]];
      sorted := sorted[..k] + [names[i]] + sorted[k..];
      i := i + 1;
    }
    assert names[..i] == names;
  }

  datatype ClassListing = ClassListing(count: int, files: seq<string>)

  const DatasetLabels: seq<string> := ["ok", "ng"]

  /**
   * ModelStore.list_dataset's "classes": for "ok" and "ng", the sorted file
   * names of the class directory when it exists. `listing(cls)` is None
   * for a missing directory, else the names of its files in directory order.
   */
  method ListDataset(baseExists: bool, listing: string -> Option<seq<string>>)
    returns (classes: map<string, ClassListing>)
    ensures !baseExists ==> classes == map[]
    ensures forall cls :: cls in classes ==> cls in DatasetLabels
    ensures baseExists ==> forall cls :: cls in DatasetLabels ==> (cls in classes <==> listing(cls).Some?)
    ensures forall cls :: cls in classes ==>
              && classes[cls].count == |classes[cls].files|
              && SortedStrings(classes[cls].files)
              && multiset(classes[cls].files) == multiset(listing(cls).value)
  {
    classes := map[];
    if !baseExists {
      return;
    }
    var i := 0;
    while i < |DatasetLabels|
      invariant 0 <= i <= |DatasetLabels|
      invariant forall cls :: cls in classes ==> cls in DatasetLabels[..i]
      invariant forall cls :: cls in DatasetLabels[..i] ==> (cls in classes <==> listing(cls).Some?)
      invariant forall cls :: cls in classes ==>
                  && listing(cls).Some?
                  && classes[cls].count == |classes[cls].files|
                  && SortedStrings(classes[cls].files)
                  && multiset(classes[cls].files) == multiset(listing(cls).value)
    {
      var cls := DatasetLabels[i];
      var files := listing(cls);
      if files.Some? {
        var names := SortNames(files.value);
        classes := classes[cls := ClassListing(|names|, names)];
      }
      assert DatasetLabels[..i + 1] == DatasetLabels[..i] + [cls];
      i := i + 1;
    }
    assert DatasetLabels[..i] == DatasetLabels;
  }
}
