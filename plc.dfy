/**
 * The Siemens S7 client's data-block image: four bytes of data block 1
 * that hold the input and output signals as single bits, the bit
 * accessors, the zero padding of a short read, and the read-modify-write
 * of the output signals.
 */
module Plc {
  import opened Wrappers

  type Byte = bv8

  datatype SignalDirection = Input | Output

  datatype SignalId =
    | StartInspection | StopInspection | PartPresent | ResetError
    | SystemReady | Busy | ResultOk | ResultNg | Error

  datatype SignalDefinition = SignalDefinition(
    id: SignalId, displayName: string, direction: SignalDirection, byteOffset: int, bitOffset: int)

  const DbNumber: int := 1

  /** The signal table: four inputs in byte 0 and five outputs in byte 2. */
  const Definitions: seq<SignalDefinition> := [
    SignalDefinition(StartInspection, "Start inspection", Input, 0, 0),
    SignalDefinition(StopInspection, "Stop inspection", Input, 0, 1),
    SignalDefinition(PartPresent, "Part present", Input, 0, 2),
    SignalDefinition(ResetError, "Reset error", Input, 0, 3),
    SignalDefinition(SystemReady, "System ready", Output, 2, 0),
    SignalDefinition(Busy, "Busy", Output, 2, 1),
    SignalDefinition(ResultOk, "Result OK", Output, 2, 2),
    SignalDefinition(ResultNg, "Result NG", Output, 2, 3),
    SignalDefinition(Error, "Error", Output, 2, 4)
  ]

  /** A bit address that the accessors act on. */
  predicate ValidBit(buffer: seq<Byte>, byteIndex: int, bitIndex: int)
  {
    0 <= byteIndex < |buffer| && 0 <= bitIndex <= 7
  }

  function Mask(bitIndex: int): Byte
    requires 0 <= bitIndex <= 7
  {
    (1 as Byte) << bitIndex
  }

  /** GetBit: the addressed bit, and false for an address outside the buffer or the byte. */
  function GetBit(buffer: seq<Byte>, byteIndex: int, bitIndex: int): (r: bool)
    ensures !ValidBit(buffer, byteIndex, bitIndex) ==> !r
  {
    if byteIndex < 0 || bitIndex < 0 || bitIndex > 7 || byteIndex >= |buffer| then false
    else buffer[byteIndex] & Mask(bitIndex) != 0
  }

  /** The buffer after SetBit: one bit set or cleared; an invalid address changes nothing. */
  function WithBit(buffer: seq<Byte>, byteIndex: int, bitIndex: int, value: bool): (r: seq<Byte>)
    ensures |r| == |buffer|
    ensures !ValidBit(buffer, byteIndex, bitIndex) ==> r == buffer
    ensures forall k :: 0 <= k < |buffer| && k != byteIndex ==> r[k] == buffer[k]
  {
    if byteIndex < 0 || bitIndex < 0 || bitIndex > 7 || byteIndex >= |buffer| then buffer
    else if value then buffer[byteIndex := buffer[byteIndex] | Mask(bitIndex)]
    else buffer[byteIndex := buffer[byteIndex] & !Mask(bitIndex)]
  }

  /** SetBit: updates the buffer in place. */
  method SetBit(buffer: array<Byte>, byteIndex: int, bitIndex: int, value: bool)
    modifies buffer
    ensures buffer[..] == WithBit(old(buffer[..]), byteIndex, bitIndex, value)
  {
    if byteIndex < 0 || bitIndex < 0 || bitIndex > 7 {
      return;
    }
    if byteIndex >= buffer.Length {
      return;
    }
    if value {
      buffer[byteIndex] := buffer[byteIndex] | Mask(bitIndex);
    } else {
      buffer[byteIndex] := buffer[byteIndex] & !Mask(bitIndex);
    }
  }

  /** Setting or clearing a mask bit decides that bit and keeps the seven others. */
  lemma MaskBits(b: Byte, i: int, j: int)
    requires 0 <= i <= 7 && 0 <= j <= 7
    ensures (b | Mask(i)) & Mask(j) != 0 <==> i == j || b & Mask(j) != 0
    ensures (b & !Mask(i)) & Mask(j) != 0 <==> i != j && b & Mask(j) != 0
  {
    var bi := i as bv8;
    var bj := j as bv8;
    assert Mask(i) == 1 << bi;
    assert Mask(j) == 1 << bj;
  }

  lemma MaskIdempotent(b: Byte, i: int)
    requires 0 <= i <= 7
    ensures b & Mask(i) != 0 ==> b | Mask(i) == b
    ensures b & Mask(i) == 0 ==> b & !Mask(i) == b
  {
    assert Mask(i) == 1 << (i as bv8);
  }

  /** A bit reads back as it was last written. */
  lemma GetAfterSet(buffer: seq<Byte>, byteIndex: int, bitIndex: int, value: bool)
    requires ValidBit(buffer, byteIndex, bitIndex)
    ensures GetBit(WithBit(buffer, byteIndex, bitIndex, value), byteIndex, bitIndex) == value
  {
    MaskBits(buffer[byteIndex], bitIndex, bitIndex);
  }

  /** Writing one bit leaves every other bit of every byte as it was. */
  lemma SetKeepsOtherBits(buffer: seq<Byte>, byteIndex: int, bitIndex: int, value: bool, i: int, j: int)
    requires i != byteIndex || j != bitIndex
    ensures GetBit(WithBit(buffer, byteIndex, bitIndex, value), i, j) == GetBit(buffer, i, j)
  {
    if ValidBit(buffer, byteIndex, bitIndex) && i == byteIndex && 0 <= j <= 7 {
      MaskBits(buffer[byteIndex], bitIndex, j);
    }
  }

  /** Writing the value a bit already holds leaves the buffer unchanged. */
  lemma SetToSameValueIsNoOp(buffer: seq<Byte>, byteIndex: int, bitIndex: int)
    ensures WithBit(buffer, byteIndex, bitIndex, GetBit(buffer, byteIndex, bitIndex)) == buffer
  {
    if ValidBit(buffer, byteIndex, bitIndex) {
      MaskIdempotent(buffer[byteIndex], bitIndex);
    }
  }

  /** No signal id appears twice in the table. */
  lemma DistinctIds()
    ensures forall a, b :: 0 <= a < b < |Definitions| ==> Definitions[a].id != Definitions[b].id
  {
    var ids := [StartInspection, StopInspection, PartPresent, ResetError, SystemReady, Busy, ResultOk, ResultNg, Error];
    assert forall k :: 0 <= k < |Definitions| ==> Definitions[k].id == ids[k];
  }

  // ---- Reading the signals ----

  /** A short read, padded with zero bytes to the four bytes of the block. */
  function PadTo4(buffer: seq<Byte>): (r: seq<Byte>)
    ensures |r| == if |buffer| >= 4 then |buffer| else 4
    ensures r[..|buffer|] == buffer
    ensures forall k :: |buffer| <= k < |r| ==> r[k] == 0
  {
    if |buffer| >= 4 then buffer else buffer + seq(4 - |buffer|, _ => 0 as Byte)
  }

  /** The padding is invisible: every bit reads as it did before. */
  lemma PaddingKeepsBits(buffer: seq<Byte>, i: int, j: int)
    ensures GetBit(PadTo4(buffer), i, j) == GetBit(buffer, i, j)
  {
    var p := PadTo4(buffer);
    if 0 <= i < |buffer| {
      assert p[i] == p[..|buffer|][i];
    } else if |buffer| <= i < |p| && 0 <= j <= 7 {
      assert p[i] == 0;
      assert (0 as bv8) & Mask(j) == 0;
    }
  }

  /**
   * The signal map of one read: every defined signal mapped to its bit of
   * the padded block (a missing reply reads as an empty block).
   */
  method ReadSignals(raw: Option<seq<Byte>>) returns (result: map<SignalId, bool>)
    ensures forall k :: 0 <= k < |Definitions| ==> Definitions[k].id in result
    ensures forall id :: id in result ==> exists k :: 0 <= k < |Definitions| && Definitions[k].id == id
    ensures forall k :: 0 <= k < |Definitions| ==>
              result[Definitions[k].id] == GetBit(PadTo4(if raw.Some? then raw.value else []),
                                                  Definitions[k].byteOffset, Definitions[k].bitOffset)
  {
    var buffer := if raw.Some? then raw.value else [];
    var data := if |buffer| >= 4 then buffer else buffer + seq(4 - |buffer|, _ => 0 as Byte);
    assert data == PadTo4(buffer);
    result := map[];
    DistinctIds();
    for n := 0 to |Definitions|
      invariant forall k :: 0 <= k < n ==> Definitions[k].id in result
      invariant forall id :: id in result ==> exists k :: 0 <= k < n && Definitions[k].id == id
      invariant forall k :: 0 <= k < n ==>
                  result[Definitions[k].id] == GetBit(data, Definitions[k].byteOffset, Definitions[k].bitOffset)
    {
      var signal := Definitions[n];
      var bit := GetBit(data, signal.byteOffset, signal.bitOffset);
      result := result[signal.id := bit];
    }
  }

  // ---- Writing the outputs ----

  /** The first output definition with this id (FirstOrDefault), or None for an input. */
  function FindOutputIn(defs: seq<SignalDefinition>, id: SignalId): (r: Option<SignalDefinition>)
    ensures r.Some? ==> r.value in defs && r.value.id == id && r.value.direction == Output
    ensures r.None? ==> forall d :: d in defs && d.id == id ==> d.direction != Output
  {
    if defs == [] then None
    else if defs[0].id == id && defs[0].direction == Output then Some(defs[0])
    else FindOutputIn(defs[1..], id)
  }

  function FindOutput(id: SignalId): Option<SignalDefinition>
  {
    FindOutputIn(Definitions, id)
  }

  /** The output signal that owns a bit of the block, if any. */
  function OutputAt(i: int, j: int): Option<SignalId>
  {
    if i != 2 then None
    else if j == 0 then Some(SystemReady)
    else if j == 1 then Some(Busy)
    else if j == 2 then Some(ResultOk)
    else if j == 3 then Some(ResultNg)
    else if j == 4 then Some(Error)
    else None
  }

  lemma FindOutputStep(defs: seq<SignalDefinition>, k: nat, id: SignalId)
    requires k < |defs|
    ensures FindOutputIn(defs[k..], id)
            == if defs[k].id == id && defs[k].direction == Output then Some(defs[k]) else FindOutputIn(defs[k + 1..], id)
  {
    assert defs[k..][1..] == defs[k + 1..];
  }

  /** The output definition of each signal id, read off the table. */
  lemma FindOutputTable(id: SignalId)
    ensures FindOutput(id) == match id
      case SystemReady => Some(SignalDefinition(SystemReady, "System ready", Output, 2, 0))
      case Busy => Some(SignalDefinition(Busy, "Busy", Output, 2, 1))
      case ResultOk => Some(SignalDefinition(ResultOk, "Result OK", Output, 2, 2))
      case ResultNg => Some(SignalDefinition(ResultNg, "Result NG", Output, 2, 3))
      case Error => Some(SignalDefinition(Error, "Error", Output, 2, 4))
      case _ => None
  {
    SkipInputs(id);
    var d := Definitions;
    assert d[9..] == [];
    FindOutputStep(d, 8, id);
    FindOutputStep(d, 7, id);
    FindOutputStep(d, 6, id);
    FindOutputStep(d, 5, id);
    FindOutputStep(d, 4, id);
  }

  /** The four input definitions at the head of the table never match. */
  lemma SkipInputs(id: SignalId)
    ensures FindOutput(id) == FindOutputIn(Definitions[4..], id)
  {
    var d := Definitions;
    FindOutputStep(d, 3, id);
    FindOutputStep(d, 2, id);
    FindOutputStep(d, 1, id);
    FindOutputStep(d, 0, id);
    assert d[0..] == d;
  }

  /** The bit the write leaves at (i, j): the written value where an applied output owns it, else the old bit. */
  function WrittenBit(base: seq<Byte>, outputs: map<SignalId, bool>, applied: set<SignalId>, i: int, j: int): bool
  {
    match OutputAt(i, j)
    case Some(id) => if id in applied && id in outputs then outputs[id] else GetBit(base, i, j)
    case None => GetBit(base, i, j)
  }

  /** Input signals are never written, whatever the outputs map holds. */
  lemma InputsAreNotWritten(base: seq<Byte>, outputs: map<SignalId, bool>, k: int)
    requires 0 <= k < |Definitions| && Definitions[k].direction == Input
    ensures WrittenBit(base, outputs, outputs.Keys, Definitions[k].byteOffset, Definitions[k].bitOffset)
            == GetBit(base, Definitions[k].byteOffset, Definitions[k].bitOffset)
  {
  }

  /** Every output present in the map is written with its value. */
  lemma OutputsAreWritten(base: seq<Byte>, outputs: map<SignalId, bool>, k: int)
    requires 0 <= k < |Definitions| && Definitions[k].direction == Output && Definitions[k].id in outputs
    ensures WrittenBit(base, outputs, outputs.Keys, Definitions[k].byteOffset, Definitions[k].bitOffset)
            == outputs[Definitions[k].id]
  {
  }

  /** The bit address of each output signal; None for an input. */
  function OutputPosition(id: SignalId): Option<(int, int)>
  {
    match id
    case SystemReady => Some((2, 0))
    case Busy => Some((2, 1))
    case ResultOk => Some((2, 2))
    case ResultNg => Some((2, 3))
    case Error => Some((2, 4))
    case _ => None
  }

  /** The table lookup finds exactly the outputs, at their positions. */
  lemma FindOutputPosition(id: SignalId)
    ensures FindOutput(id).Some? <==> OutputPosition(id).Some?
    ensures FindOutput(id).Some? ==>
              OutputPosition(id) == Some((FindOutput(id).value.byteOffset, FindOutput(id).value.bitOffset))
  {
    FindOutputTable(id);
  }

  /** An output owns exactly the bit at its position. */
  lemma OutputAtPosition(id: SignalId, i: int, j: int)
    ensures OutputAt(i, j) == Some(id) <==> OutputPosition(id) == Some((i, j))
  {
  }

  /** One step of the write: the buffer with one more output of the map applied. */
  lemma ApplyStep(before: seq<Byte>, base: seq<Byte>, out: map<SignalId, bool>, applied: set<SignalId>,
                  id: SignalId, i: int, j: int)
    requires id in out && |before| == |base| >= 4
    requires forall i: int, j: int :: GetBit(before, i, j) == WrittenBit(base, out, applied, i, j)
    ensures FindOutput(id).None? ==>
              GetBit(before, i, j) == WrittenBit(base, out, applied + {id}, i, j)
    ensures FindOutput(id).Some? ==>
              GetBit(WithBit(before, FindOutput(id).value.byteOffset, FindOutput(id).value.bitOffset, out[id]), i, j)
              == WrittenBit(base, out, applied + {id}, i, j)
  {
    FindOutputPosition(id);
    OutputAtPosition(id, i, j);
    assert GetBit(before, i, j) == WrittenBit(base, out, applied, i, j);
    match FindOutput(id)
    case None => {}
    case Some(d) =>
      if i == d.byteOffset && j == d.bitOffset {
        GetAfterSet(before, i, j, out[id]);
      } else {
        SetKeepsOtherBits(before, d.byteOffset, d.bitOffset, out[id], i, j);
      }
  }

  /**
   * WriteOutputsAsync without the connection: no write for an empty or
   * missing map; otherwise the block read back (four zero bytes when the
   * reply is missing, zero-padded when short) with each output signal of
   * the map set to its value, ready to be written back.
   */
  method WriteOutputs(outputs: Option<map<SignalId, bool>>, current: Option<seq<Byte>>)
    returns (written: Option<seq<Byte>>)
    ensures written.None? <==> outputs.None? || |outputs.value| == 0
    ensures written.Some? ==>
              var base := PadTo4(if current.Some? then current.value else []);
              |written.value| == |base|
              && forall i: int, j: int :: GetBit(written.value, i, j) == WrittenBit(base, outputs.value, outputs.value.Keys, i, j)
  {
    if outputs.None? || |outputs.value| == 0 {
      return None;
    }
    var out := outputs.value;
    var base := PadTo4(if current.Some? then current.value else []);
    var buffer := new Byte[|base|](k requires 0 <= k < |base| => base[k]);
    assert buffer[..] == base;
    var pending := out.Keys;
    while pending != {}
      invariant pending <= out.Keys
      invariant buffer.Length == |base|
      invariant forall i: int, j: int :: GetBit(buffer[..], i, j) == WrittenBit(base, out, out.Keys - pending, i, j)
      decreases pending
    {
      var id :| id in pending;
      ghost var applied := out.Keys - pending;
      ApplyOutput(buffer, base, out, applied, id);
      pending := pending - {id};
      assert out.Keys - pending == applied + {id};
    }
    written := Some(buffer[..]);
  }

  /** One pass of the loop: the signal's bit set in the buffer when it is an output. */
  method ApplyOutput(buffer: array<Byte>, ghost base: seq<Byte>, out: map<SignalId, bool>, ghost applied: set<SignalId>, id: SignalId)
    modifies buffer
    requires id in out && buffer.Length == |base| >= 4
    requires forall i: int, j: int :: GetBit(buffer[..], i, j) == WrittenBit(base, out, applied, i, j)
    ensures forall i: int, j: int :: GetBit(buffer[..], i, j) == WrittenBit(base, out, applied + {id}, i, j)
  {
    var definition := FindOutput(id);
    ghost var before := buffer[..];
    if definition.Some? {
      SetBit(buffer, definition.value.byteOffset, definition.value.bitOffset, out[id]);
    }
    forall i: int, j: int
      ensures GetBit(buffer[..], i, j) == WrittenBit(base, out, applied + {id}, i, j)
    {
      ApplyStep(before, base, out, applied, id, i, j);
    }
  }

}
