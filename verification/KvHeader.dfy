/** The header of a checkpoint file (ds4_kvstore_fill_header, ds4_kvstore_read_header and
    ds4_kvstore_touch_file in ds4_kvstore.c). */
module KvHeader {
  import opened Wrappers
  import opened Bytes
  import KvEvict

  const HEADER := 48
  const AGENT_SESSION: Byte := 6
  const UNKNOWN: Byte := 0

  type U64 = n: nat | n < 0x1_0000_0000_0000_0000

  datatype Entry = Entry(
    modelId: Byte, quantBits: Byte, reason: Byte, extFlags: Byte,
    tokens: U32, hits: U32, ctxSize: U32, createdAt: U64, lastUsed: U64, payloadBytes: U64, textBytes: U32)

  // ------------------------------------------------------------------------------
  // Format
  // ------------------------------------------------------------------------------

  function Long(n: U64): (r: seq<Byte>)
    ensures |r| == 8
  {
    Little(n % 0x1_0000_0000) + Little(n / 0x1_0000_0000)
  }

  function FromLong(b: seq<Byte>): U64
    requires |b| == 8
  {
    LongFits(FromLittle(b[..4]), FromLittle(b[4..]));
    FromLittle(b[..4]) + 0x1_0000_0000 * FromLittle(b[4..])
  }

  lemma LongFits(low: U32, high: U32)
    ensures low + 0x1_0000_0000 * high < 0x1_0000_0000_0000_0000
  {
  }

  lemma LongInverse(n: U64)
    ensures FromLong(Long(n)) == n
  {
    hide Little, FromLittle;
    var b := Long(n);
    assert b[..4] == Little(n % 0x1_0000_0000) && b[4..] == Little(n / 0x1_0000_0000);
    LittleInverse(n % 0x1_0000_0000, b[..4]);
    LittleInverse(n / 0x1_0000_0000, b[4..]);
  }

  function Front(e: Entry): (r: seq<Byte>)
    ensures |r| == 8
  {
    [0x4b, 0x56, 0x43, 1, e.quantBits, e.reason, e.extFlags, e.modelId]
  }

  /** The header, and the length of the text behind it. */
  function Fill(e: Entry): (r: seq<Byte>)
    ensures |r| == HEADER + 4
  {
    Front(e) + (Little(e.tokens) + (Little(e.hits) + (Little(e.ctxSize) + ([2, 0, 0, 0] +
      (Long(e.createdAt) + (Long(e.lastUsed) + (Long(e.payloadBytes) + Little(e.textBytes))))))))
  }

  /** Reasons that this version does not know count as unknown. */
  function KnownReason(reason: Byte): Byte {
    if reason <= AGENT_SESSION then reason else UNKNOWN
  }

  predicate Acceptable(e: Entry) {
    e.tokens != 0 && (e.quantBits == 2 || e.quantBits == 4)
  }

  function Fields(b: seq<Byte>): Entry
    requires HEADER + 4 <= |b|
  {
    Entry(b[7], b[4], KnownReason(b[5]), b[6], FromLittle(b[8..12]), FromLittle(b[12..16]), FromLittle(b[16..20]),
          FromLong(b[24..32]), FromLong(b[32..40]), FromLong(b[40..48]), FromLittle(b[48..52]))
  }

  method ReadHeader(file: seq<Byte>) returns (r: Option<Entry>)
    ensures r == if HEADER + 4 <= |file| && file[..4] == [0x4b, 0x56, 0x43, 1] && file[20] == 2 && Acceptable(Fields(file))
                 then Some(Fields(file)) else None
  {
    hide FromLittle, FromLong;
    if |file| < HEADER {
      return None;
    }
    if file[0] != 0x4b || file[1] != 0x56 || file[2] != 0x43 || file[3] != 1 {
      return None;
    }
    if file[20] != 2 {
      return None;
    }
    if |file| - HEADER < 4 {
      return None;
    }
    var e := Fields(file);
    if e.tokens != 0 && (e.quantBits == 2 || e.quantBits == 4) {
      return Some(e);
    }
    r := None;
  }

  // ------------------------------------------------------------------------------
  // Where the fields stand
  // ------------------------------------------------------------------------------

  lemma FieldsAreAt(e: Entry)
    ensures var b := Fill(e);
            && b[..3] == Ascii("KVC") && b[3] == 1
            && b[4] == e.quantBits && b[5] == e.reason && b[6] == e.extFlags && b[7] == e.modelId
            && LittleAt(b, 8) == e.tokens && LittleAt(b, 12) == e.hits && LittleAt(b, 16) == e.ctxSize && LittleAt(b, 20) == 2
            && LittleAt(b, 24) + 0x1_0000_0000 * LittleAt(b, 28) == e.createdAt
            && LittleAt(b, 32) + 0x1_0000_0000 * LittleAt(b, 36) == e.lastUsed
            && LittleAt(b, 40) + 0x1_0000_0000 * LittleAt(b, 44) == e.payloadBytes
            && LittleAt(b, 48) == e.textBytes
  {
    hide LittleAt, Little;
    var b := Fill(e);
    WordIsAt(b, 8, e.tokens);
    WordIsAt(b, 12, e.hits);
    WordIsAt(b, 16, e.ctxSize);
    VersionIsAt(e);
    LongIsAt(b, 24, e.createdAt);
    LongIsAt(b, 32, e.lastUsed);
    LongIsAt(b, 40, e.payloadBytes);
    WordIsAt(b, 48, e.textBytes);
  }

  /** The size check adds up exactly what is written. */
  lemma FileIsThatLong(e: Entry, text: seq<Byte>, payload: seq<Byte>, trailer: seq<Byte>)
    ensures |Fill(e) + text + payload + trailer| == KvEvict.FileSize(|text|, |payload|, |trailer|)
  {
  }

  lemma VersionIsAt(e: Entry)
    ensures LittleAt(Fill(e), 20) == 2
  {
    hide Little, Long;
  }

  lemma LongIsAt(b: seq<Byte>, p: nat, n: U64)
    requires p + 8 <= |b|
    ensures b[p..p + 8] == Long(n) ==> LittleAt(b, p) + 0x1_0000_0000 * LittleAt(b, p + 4) == n
  {
    hide LittleAt, Little;
    if b[p..p + 8] == Long(n) {
      assert b[p..p + 4] == Long(n)[..4] && b[p + 4..p + 8] == Long(n)[4..];
      WordIsAt(b, p, n % 0x1_0000_0000);
      WordIsAt(b, p + 4, n / 0x1_0000_0000);
    }
  }

  // ------------------------------------------------------------------------------
  // Round trip
  // ------------------------------------------------------------------------------

  /** Every field is read back as it was written, the reason as far as it is known. */
  lemma FieldsAreReadBack(e: Entry, rest: seq<Byte>)
    ensures var b := Fill(e) + rest;
            && b[..4] == [0x4b, 0x56, 0x43, 1] && b[20] == 2
            && Fields(b) == e.(reason := KnownReason(e.reason))
  {
    hide Little, FromLittle, Long, FromLong;
    var b := Fill(e) + rest;
    var w := e;
    assert b == Front(w) + (Little(w.tokens) + (Little(w.hits) + (Little(w.ctxSize) + ([2, 0, 0, 0] +
      (Long(w.createdAt) + (Long(w.lastUsed) + (Long(w.payloadBytes) + (Little(w.textBytes) + rest))))))));
    assert b[8..12] == Little(w.tokens) && b[12..16] == Little(w.hits) && b[16..20] == Little(w.ctxSize);
    assert b[24..32] == Long(w.createdAt) && b[32..40] == Long(w.lastUsed) && b[40..48] == Long(w.payloadBytes);
    assert b[48..52] == Little(w.textBytes);
    LittleInverse(w.tokens, b[8..12]);
    LittleInverse(w.hits, b[12..16]);
    LittleInverse(w.ctxSize, b[16..20]);
    LittleInverse(w.textBytes, b[48..52]);
    LongInverse(w.createdAt);
    LongInverse(w.lastUsed);
    LongInverse(w.payloadBytes);
  }

  /** Counting a hit rewrites hits and time of use and keeps everything else, the text and
      payload behind the header included; a reason that is not known is lost. */
  method Touch(file: seq<Byte>, hits: U32, now: U64) returns (r: seq<Byte>)
    ensures |r| == |file|
    ensures HEADER + 4 <= |file| ==> r[HEADER..] == file[HEADER..]
    ensures HEADER + 4 <= |file| && file[..4] == [0x4b, 0x56, 0x43, 1] && file[20] == 2 && Acceptable(Fields(file)) ==>
              Fields(r) == Fields(file).(hits := hits, lastUsed := now)
  {
    hide FromLittle, FromLong, Little, Long;
    var e := ReadHeader(file);
    if e.None? {
      return file;
    }
    var f := e.value.(hits := hits, lastUsed := now);
    r := Fill(f)[..HEADER] + file[HEADER..];
    FieldsAreReadBack(f, file[HEADER + 4..]);
    LittleInverse(f.textBytes, file[48..52]);
    SameTail(Fill(f), file, f.textBytes);
  }

  lemma SameTail(header: seq<Byte>, file: seq<Byte>, textBytes: U32)
    requires |header| == HEADER + 4 <= |file|
    requires header[HEADER..] == Little(textBytes) == file[48..52]
    ensures header[..HEADER] + file[HEADER..] == header + file[HEADER + 4..]
  {
    assert header == header[..HEADER] + header[HEADER..];
    assert file[HEADER..] == file[48..52] + file[HEADER + 4..];
  }
}
