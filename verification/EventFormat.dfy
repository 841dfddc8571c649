// The bit layout shared by the writers and the decoder: event headers (the
// current format and the legacy one) and string headers.  A masked and shifted
// bit field of the source is a quotient and remainder by powers of two here.
module EventFormat {
  import opened Qwords

  // Metadata of an event header: bit 0 says there is a context, bit 1 that the
  // format string is ANSI; the upper four bits are all ones for a full colour
  // and hold the colour's index otherwise.
  const ON_CONTEXT: Octet := 0x1
  const STRING_IS_ANSI: Octet := 0x2
  const HAS_COLOR: Octet := 0xF0

  // Event types of the current format.
  const OP_END: nat := 0x000
  const OP_BEGIN: nat := 0x001
  const OP_MARKER: nat := 0x002
  const OP_INVALID: nat := 0x400

  // Event types of the legacy format.
  const LEGACY_BEGIN_VARARGS: nat := 0x001
  const LEGACY_BEGIN_NOVARARGS: nat := 0x002
  const LEGACY_MARKER_VARARGS: nat := 0x007
  const LEGACY_MARKER_NOVARARGS: nat := 0x008
  const LEGACY_END_ON_CONTEXT: nat := 0x010
  const LEGACY_BEGIN_ON_CONTEXT_VARARGS: nat := 0x011
  const LEGACY_BEGIN_ON_CONTEXT_NOVARARGS: nat := 0x012
  const LEGACY_MARKER_ON_CONTEXT_VARARGS: nat := 0x017
  const LEGACY_MARKER_ON_CONTEXT_NOVARARGS: nat := 0x018

  const SIZE_MAX: nat := 127
  const TIMESTAMP_RANGE: nat := 0x1000_0000_0000

  /** PIXEncodeEventInfo of the current format. */
  function EncodeEventInfo(timestamp: Qword, eventType: Octet, eventSize: Octet, metadata: Octet): Qword {
    (timestamp % TIMESTAMP_RANGE) * 0x10_0000 + metadata * 0x1000 + (eventType % 32) * 0x80 + eventSize % 128
  }

  /** PIXEncodeEventInfo of the legacy format. */
  function EncodeLegacyEventInfo(timestamp: Qword, eventType: nat): Qword {
    (timestamp % TIMESTAMP_RANGE) * 0x10_0000 + (eventType % 1024) * 0x400
  }

  function EncodeIndexColor(color: Octet): Octet {
    (color % 8) * 16
  }

  function DecodeIndexColor(metadata: Octet): Qword {
    metadata / 16
  }

  /** PIXGetEventSize: the number of qwords, saturated at 127. */
  function EventSize(qwords: nat): Octet {
    if qwords > SIZE_MAX then SIZE_MAX else qwords
  }

  datatype EventInfo = EventInfo(time: Qword, op: nat, size: Octet, metadata: Octet, legacyOp: nat)
  {
    predicate OnContext() {
      metadata % 2 == 1
    }

    predicate StringIsAnsi() {
      (metadata / 2) % 2 == 1
    }

    predicate HasColor() {
      metadata / 16 == 15
    }

    /** IsKnownOpcode */
    predicate Known() {
      op == OP_END || op == OP_BEGIN || op == OP_MARKER
    }

    predicate NoVarArgs() {
      || legacyOp == LEGACY_BEGIN_NOVARARGS
      || legacyOp == LEGACY_MARKER_NOVARARGS
      || legacyOp == LEGACY_BEGIN_ON_CONTEXT_NOVARARGS
      || legacyOp == LEGACY_MARKER_ON_CONTEXT_NOVARARGS
    }

    /** The header tells where the event ends. */
    predicate SizeKnown() {
      0 < size < SIZE_MAX
    }
  }

  /** The opcode and metadata of the current format that a legacy opcode stands for. */
  function FromLegacy(op: nat): (nat, Octet) {
    if op == LEGACY_BEGIN_VARARGS || op == LEGACY_BEGIN_NOVARARGS then (OP_BEGIN, HAS_COLOR)
    else if op == LEGACY_MARKER_VARARGS || op == LEGACY_MARKER_NOVARARGS then (OP_MARKER, HAS_COLOR)
    else if op == LEGACY_END_ON_CONTEXT then (OP_END, ON_CONTEXT)
    else if op == LEGACY_BEGIN_ON_CONTEXT_VARARGS || op == LEGACY_BEGIN_ON_CONTEXT_NOVARARGS then
      (OP_BEGIN, HAS_COLOR + ON_CONTEXT)
    else if op == LEGACY_MARKER_ON_CONTEXT_VARARGS || op == LEGACY_MARKER_ON_CONTEXT_NOVARARGS then
      (OP_MARKER, HAS_COLOR + ON_CONTEXT)
    else (op, 0)
  }

  /** PIXDecodeEventInfo */
  function DecodeEventInfo(q: Qword): (r: EventInfo)
    ensures r.time < TIMESTAMP_RANGE && r.size < 128
  {
    var size := q % 128;
    var time := q / 0x10_0000;
    if size > 0 then
      EventInfo(time, (q / 0x80) % 32, size, (q / 0x1000) % 256, OP_INVALID)
    else
      var legacyOp := (q / 0x400) % 1024;
      var (op, metadata) := FromLegacy(legacyOp);
      EventInfo(time, op, 0, metadata, legacyOp)
  }

  /** Every header of the current format decodes to what it was made of and is not the end marker. */
  lemma HeaderRoundTrip(timestamp: Qword, eventType: Octet, eventSize: Octet, metadata: Octet)
    requires eventType < 32 && 0 < eventSize <= 127
    ensures var q := EncodeEventInfo(timestamp, eventType, eventSize, metadata);
            && DecodeEventInfo(q) == EventInfo(timestamp % TIMESTAMP_RANGE, eventType, eventSize, metadata, OP_INVALID)
            && q != BLOCK_END_MARKER
  {
    hide FromLegacy;
    var t := timestamp % TIMESTAMP_RANGE;
    UnpackFields(t, metadata, eventType, eventSize);
    var q := EncodeEventInfo(timestamp, eventType, eventSize, metadata);
    assert q == t * 0x10_0000 + metadata * 0x1000 + eventType * 0x80 + eventSize;
    assert q % 128 == eventSize && BLOCK_END_MARKER % 128 == 0;
  }

  lemma UnpackFields(t: nat, m: nat, e: nat, s: nat)
    requires m < 256 && e < 32 && s < 128
    ensures var q := t * 0x10_0000 + m * 0x1000 + e * 0x80 + s;
            q % 128 == s && (q / 0x80) % 32 == e && (q / 0x1000) % 256 == m && q / 0x10_0000 == t
  {
    var q := t * 0x10_0000 + m * 0x1000 + e * 0x80 + s;
    assert q / 0x80 == t * 0x2000 + m * 32 + e;
    assert q / 0x1000 == t * 256 + m;
  }

  predicate IsLegacyOp(op: nat) {
    || op == OP_END
    || op == LEGACY_BEGIN_VARARGS || op == LEGACY_BEGIN_NOVARARGS
    || op == LEGACY_MARKER_VARARGS || op == LEGACY_MARKER_NOVARARGS
    || op == LEGACY_END_ON_CONTEXT
    || op == LEGACY_BEGIN_ON_CONTEXT_VARARGS || op == LEGACY_BEGIN_ON_CONTEXT_NOVARARGS
    || op == LEGACY_MARKER_ON_CONTEXT_VARARGS || op == LEGACY_MARKER_ON_CONTEXT_NOVARARGS
  }

  /**
   * Every legacy header decodes to a current event type, with the context flag
   * exactly for the on-context opcodes and the colour flag exactly for begin
   * and marker events; it is not the end marker.
   */
  lemma LegacyHeaderRoundTrip(timestamp: Qword, op: nat)
    requires IsLegacyOp(op)
    ensures var q := EncodeLegacyEventInfo(timestamp, op);
            var d := DecodeEventInfo(q);
            && d.time == timestamp % TIMESTAMP_RANGE && d.size == 0 && d.legacyOp == op && d.Known()
            && (d.op == OP_END <==> op == OP_END || op == LEGACY_END_ON_CONTEXT)
            && (d.op == OP_BEGIN <==> op % 16 == 1 || op % 16 == 2)
            && (d.op == OP_MARKER <==> op % 16 == 7 || op % 16 == 8)
            && (d.OnContext() <==> op / 16 == 1)
            && (d.HasColor() <==> d.op != OP_END)
            && (d.NoVarArgs() <==> op % 16 == 2 || op % 16 == 8)
            && q != BLOCK_END_MARKER
  {
    hide EncodeLegacyEventInfo;
    LegacyFields(timestamp, op);
  }

  lemma LegacyFields(timestamp: Qword, op: nat)
    requires op < 1023
    ensures var q := EncodeLegacyEventInfo(timestamp, op);
            q % 128 == 0 && (q / 0x400) % 1024 == op && q / 0x10_0000 == timestamp % TIMESTAMP_RANGE && q != BLOCK_END_MARKER
  {
    UnpackLegacy(timestamp % TIMESTAMP_RANGE, op);
  }

  lemma UnpackLegacy(t: nat, op: nat)
    requires op < 1023
    ensures var q := t * 0x10_0000 + op * 0x400;
            q % 128 == 0 && (q / 0x400) % 1024 == op && q / 0x10_0000 == t && q != BLOCK_END_MARKER
  {
    var q := t * 0x10_0000 + op * 0x400;
    var r := t * 1024 + op;
    assert q == 128 * (8 * r) && q / 0x400 == r;
    assert r % 1024 == op && BLOCK_END_MARKER / 0x400 == 1023;
  }

  /** Index colours survive modulo 8 and never look like the flag of a full colour. */
  lemma IndexColorRoundTrip(color: Octet, flags: Octet)
    requires flags < 4
    ensures var m := EncodeIndexColor(color) + flags;
            && DecodeIndexColor(m) == color % 8
            && m / 16 != 15
            && m % 16 == flags
  {
  }

  // String headers

  datatype StringInfo = StringInfo(alignment: nat, chunkSize: nat, isAnsi: bool, wellFormed: bool)

  function EncodeStringInfo(chunkSize: nat, isAnsi: bool): Qword {
    (chunkSize % 32) * 0x80_0000_0000_0000 + if isAnsi then 0x40_0000_0000_0000 else 0
  }

  /** PIXDecodeStringInfo; its shortcut flag is not used by the decoder. */
  function DecodeStringInfo(q: Qword): StringInfo {
    StringInfo(
      q / 0x1000_0000_0000_0000,
      (q / 0x80_0000_0000_0000) % 32,
      (q / 0x40_0000_0000_0000) % 2 == 1,
      q % 0x20_0000_0000_0000 == 0)
  }

  lemma StringInfoRoundTrip(chunkSize: nat, isAnsi: bool)
    requires chunkSize == 8 || chunkSize == 16
    ensures var q := EncodeStringInfo(chunkSize, isAnsi);
            && DecodeStringInfo(q) == StringInfo(0, chunkSize, isAnsi, true)
            && q != 0 && q != BLOCK_END_MARKER
  {
  }
}
