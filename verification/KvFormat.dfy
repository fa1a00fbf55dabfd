/** The two file formats of a saved session: the whole session, and the layers of one node
    (dist_kv_layer_tensor_bytes, dist_kv_raw_live_valid, dist_kv_parse_layer_payload,
    dist_kv_write_session_header and dist_kv_write_layer_header in ds4_distributed.c; the
    numbers are in ds4.h). */
module KvFormat {
  import opened Wrappers
  import opened Bytes

  const SESSION_MAGIC: U32 := 0x34565344
  const SESSION_VERSION: U32 := 2
  const SESSION_FIELDS := 13
  const LAYER_MAGIC: U32 := 0x4c565344
  const LAYER_VERSION: U32 := 1
  const LAYER_FIELDS := 14
  const U64_MAX: nat := 0xFFFF_FFFF_FFFF_FFFF

  datatype Layout = Layout(
    ctx: U32, prefillCap: U32, rawCap: U32, rawWindow: U32, compCap: U32, tokenCount: U32,
    nLayers: U32, headDim: U32, indexerHeadDim: U32, vocab: U32, rawLive: U32)

  /** What the model fixes: the compression ratio of every layer, the vocabulary, the sliding
      window, and the two head sizes. */
  datatype Engine = Engine(ratios: seq<U32>, vocab: U32, window: U32, headDim: U32, indexerHeadDim: U32)
  {
    ghost predicate Valid() {
      0 < |ratios| < 0x1_0000_0000
    }
  }

  // ------------------------------------------------------------------------------
  // Sizes
  // ------------------------------------------------------------------------------

  function Add64(a: nat, b: nat): Option<nat>
    requires b <= U64_MAX
  {
    if U64_MAX - b < a then None else Some(a + b)
  }

  function Mul64(a: nat, b: nat): Option<nat> {
    if a != 0 && U64_MAX / a < b then None else Some(a * b)
  }

  lemma Mul64Exact(a: nat, b: nat)
    ensures Mul64(a, b) == if a * b <= U64_MAX then Some(a * b) else None
  {
    if a != 0 {
      var q := U64_MAX / a;
      assert U64_MAX == a * q + U64_MAX % a;
      if q < b {
        Grows(a, q + 1, b);
        assert a * (q + 1) == a * q + a;
      } else {
        Grows(a, b, q);
      }
    }
  }

  lemma Grows(a: nat, b: nat, c: nat)
    requires b <= c
    ensures a * b <= a * c
  {
    assert a * c == a * b + a * (c - b);
  }

  function Then(x: Option<nat>, b: nat): Option<nat> {
    match x case None => None case Some(a) => Mul64(a, b)
  }

  /** A product overflows at some step exactly when the whole product is too large, as long as
      the later factors are not zero. */
  lemma ThenExact(x: nat, b: nat)
    requires 0 < b
    ensures Then(if x <= U64_MAX then Some(x) else None, b) == if x * b <= U64_MAX then Some(x * b) else None
  {
    Mul64Exact(x, b);
    Grows(x, 1, b);
  }

  function Coff(ratio: U32): nat {
    if ratio == 4 then 2 else 1
  }

  function StateBytes(ratio: U32, headDim: U32): Option<nat> {
    Then(Then(Then(Mul64(Coff(ratio), headDim), Coff(ratio)), ratio), 4)
  }

  function ExactState(ratio: U32, headDim: U32): nat {
    Coff(ratio) * headDim * Coff(ratio) * ratio * 4
  }

  lemma StateBytesExact(ratio: U32, headDim: U32)
    requires ratio != 0
    ensures StateBytes(ratio, headDim) ==
            if ExactState(ratio, headDim) <= U64_MAX then Some(ExactState(ratio, headDim)) else None
  {
    hide Mul64, Then;
    var c := Coff(ratio);
    Mul64Exact(c, headDim);
    ThenExact(c * headDim, c);
    ThenExact(c * headDim * c, ratio);
    ThenExact(c * headDim * c * ratio, 4);
  }

  function Rows(n: U32, dim: U32): Option<nat> {
    Then(Mul64(n, dim), 4)
  }

  function ExactRows(n: nat, dim: nat): nat {
    n * dim * 4
  }

  lemma RowsExact(n: U32, dim: U32)
    ensures Rows(n, dim) == if ExactRows(n, dim) <= U64_MAX then Some(ExactRows(n, dim)) else None
  {
    hide Mul64, Then;
    Mul64Exact(n, dim);
    ThenExact(n * dim, 4);
  }

  function Plus(x: Option<nat>, y: Option<nat>): Option<nat>
    requires y.Some? ==> y.value <= U64_MAX
  {
    if x.Some? && y.Some? then Add64(x.value, y.value) else None
  }

  lemma PlusExact(x: nat, y: nat)
    ensures Plus(if x <= U64_MAX then Some(x) else None, if y <= U64_MAX then Some(y) else None) ==
            if x + y <= U64_MAX then Some(x + y) else None
  {
  }

  /** The size of one layer's tensors, or nothing when 64 bits cannot hold it. */
  function LayerBytes(l: Layout, ratio: U32, comp: U32, index: U32): Option<nat> {
    RowsExact(l.rawLive, l.headDim);
    RowsExact(comp, l.headDim);
    RowsExact(index, l.indexerHeadDim);
    if ratio == 0 then Rows(l.rawLive, l.headDim)
    else
      StateBytesExact(ratio, l.headDim);
      StateBytesExact(ratio, l.indexerHeadDim);
      var attention := StateBytes(ratio, l.headDim);
      var bytes := Plus(Plus(Plus(Rows(l.rawLive, l.headDim), Rows(comp, l.headDim)), attention), attention);
      if ratio != 4 then bytes
      else
        var indexer := StateBytes(ratio, l.indexerHeadDim);
        Plus(Plus(Plus(bytes, Rows(index, l.indexerHeadDim)), indexer), indexer)
  }

  function LayerSize(l: Layout, ratio: U32, comp: U32, index: U32): nat {
    ExactRows(l.rawLive, l.headDim) +
    (if ratio == 0 then 0 else ExactRows(comp, l.headDim) + 2 * ExactState(ratio, l.headDim)) +
    (if ratio == 4 then ExactRows(index, l.indexerHeadDim) + 2 * ExactState(ratio, l.indexerHeadDim) else 0)
  }

  /** The size written out: raw rows for every layer; for a compressed layer also its rows and two
      states of `ratio` rows, and for a layer of ratio 4, whose states are four times as large,
      the same again for the indexer. */
  lemma LayerSizeIs(l: Layout, ratio: U32, comp: U32, index: U32)
    ensures LayerSize(l, ratio, comp, index) ==
            if ratio == 0 then 4 * (l.rawLive * l.headDim)
            else if ratio == 4 then
              4 * ((l.rawLive + comp + 32) * l.headDim) + 4 * ((index + 32) * l.indexerHeadDim)
            else 4 * ((l.rawLive + comp + 2 * ratio) * l.headDim)
  {
    var h: nat, x: nat := l.headDim, l.indexerHeadDim;
    if ratio == 4 {
      assert ExactState(4, h) == 64 * h && ExactState(4, x) == 64 * x;
      Distribute(l.rawLive, comp, 32, h);
      Distribute(index, 32, 0, x);
    } else if ratio != 0 {
      StateIsRows(h, ratio);
      Distribute(l.rawLive, comp, 2 * ratio, h);
    }
  }

  lemma StateIsRows(h: nat, ratio: nat)
    ensures 1 * h * 1 * ratio * 4 == 4 * (h * ratio) && 2 * ratio * h == 2 * (h * ratio)
  {
  }

  lemma Distribute(a: nat, b: nat, c: nat, h: nat)
    ensures (a + b + c) * h == a * h + b * h + c * h
  {
  }

  /** The checked computation gives the exact size, and fails only when that does not fit. */
  lemma LayerBytesExact(l: Layout, ratio: U32, comp: U32, index: U32)
    ensures LayerBytes(l, ratio, comp, index) ==
            var n := LayerSize(l, ratio, comp, index);
            if n <= U64_MAX then Some(n) else None
  {
    hide Rows, ExactRows, StateBytes, Plus, ExactState;
    var raw, rows, indexed := ExactRows(l.rawLive, l.headDim), ExactRows(comp, l.headDim), ExactRows(index, l.indexerHeadDim);
    RowsExact(l.rawLive, l.headDim);
    RowsExact(comp, l.headDim);
    RowsExact(index, l.indexerHeadDim);
    if ratio != 0 {
      var a, b := ExactState(ratio, l.headDim), ExactState(ratio, l.indexerHeadDim);
      StateBytesExact(ratio, l.headDim);
      StateBytesExact(ratio, l.indexerHeadDim);
      PlusExact(raw, rows);
      PlusExact(raw + rows, a);
      PlusExact(raw + rows + a, a);
      PlusExact(raw + rows + a + a, indexed);
      PlusExact(raw + rows + a + a + indexed, b);
      PlusExact(raw + rows + a + a + indexed + b, b);
    }
  }

  // ------------------------------------------------------------------------------
  // Words, bytes and tensors off the front of a file
  // ------------------------------------------------------------------------------

  function PutWords(ws: seq<U32>): (r: seq<Byte>)
    ensures |r| == 4 * |ws|
  {
    if ws == [] then [] else Little(ws[0]) + PutWords(ws[1..])
  }

  /** Word `k` of a run stands at byte `4 * k` of it. */
  lemma {:induction false} WordStandsAt(front: seq<Byte>, ws: seq<U32>, rest: seq<Byte>, k: nat)
    requires k < |ws|
    ensures LittleAt(front + (PutWords(ws) + rest), |front| + 4 * k) == ws[k]
    decreases ws
  {
    hide Little, LittleAt;
    var b := front + (PutWords(ws) + rest);
    var w := Little(ws[0]);
    var tail := PutWords(ws[1..]) + rest;
    assert PutWords(ws) + rest == w + tail;
    if k == 0 {
      assert b[|front|..|front| + 4] == w;
      WordIsAt(b, |front|, ws[0]);
    } else {
      WordStandsAt(front + w, ws[1..], rest, k - 1);
      assert front + w + tail == b;
    }
  }

  function TakeWords(b: seq<Byte>, n: nat): Read<seq<U32>>
    decreases n
  {
    if n == 0 then Got([], b)
    else if |b| < 4 then Short
    else match TakeWords(b[4..], n - 1)
         case Got(ws, rest) => Got([FromLittle(b[..4])] + ws, rest)
         case Short => Short
  }

  lemma {:induction false} TakeWordsInverse(b: seq<Byte>, n: nat, ws: seq<U32>, rest: seq<Byte>)
    ensures TakeWords(b, n) == Got(ws, rest) <==> |ws| == n && b == PutWords(ws) + rest
    decreases n
  {
    hide Little, FromLittle;
    if n == 0 {
      assert PutWords([]) + rest == rest;
    } else if ws != [] {
      var tail := PutWords(ws[1..]) + rest;
      assert PutWords(ws) + rest == Little(ws[0]) + tail;
      assert (Little(ws[0]) + tail)[..4] == Little(ws[0]) && (Little(ws[0]) + tail)[4..] == tail;
      if 4 <= |b| {
        LittleInverse(ws[0], b[..4]);
        TakeWordsInverse(b[4..], n - 1, ws[1..], rest);
        assert b == b[..4] + b[4..];
        assert TakeWords(b[4..], n - 1).Got? ==>
                 ([FromLittle(b[..4])] + TakeWords(b[4..], n - 1).value == ws <==>
                  FromLittle(b[..4]) == ws[0] && TakeWords(b[4..], n - 1).value == ws[1..]);
      }
    }
  }

  function TakeBytes(b: seq<Byte>, n: nat): Read<seq<Byte>> {
    if |b| < n then Short else Got(b[..n], b[n..])
  }

  lemma TakeBytesInverse(b: seq<Byte>, n: nat, data: seq<Byte>, rest: seq<Byte>)
    ensures TakeBytes(b, n) == Got(data, rest) <==> |data| == n && b == data + rest
  {
    if n <= |b| {
      assert b == b[..n] + b[n..];
    }
    if |data| == n && b == data + rest {
      assert b[..n] == data && b[n..] == rest;
    }
  }

  function Concat(parts: seq<seq<Byte>>): seq<Byte> {
    if parts == [] then [] else parts[0] + Concat(parts[1..])
  }

  function TakeParts(b: seq<Byte>, sizes: seq<nat>): Read<seq<seq<Byte>>>
    decreases sizes
  {
    if sizes == [] then Got([], b)
    else match TakeBytes(b, sizes[0])
         case Short => Short
         case Got(part, rest) =>
           match TakeParts(rest, sizes[1..])
           case Short => Short
           case Got(parts, end) => Got([part] + parts, end)
  }

  ghost predicate Sized(parts: seq<seq<Byte>>, sizes: seq<nat>) {
    |parts| == |sizes| && forall i | 0 <= i < |parts| :: |parts[i]| == sizes[i]
  }

  lemma {:induction false} TakePartsInverse(b: seq<Byte>, sizes: seq<nat>, parts: seq<seq<Byte>>, rest: seq<Byte>)
    ensures TakeParts(b, sizes) == Got(parts, rest) <==> Sized(parts, sizes) && b == Concat(parts) + rest
    decreases sizes
  {
    if sizes == [] {
      assert Concat([]) + rest == rest;
    } else if parts != [] {
      hide TakeBytes;
      var tail := Concat(parts[1..]) + rest;
      assert Concat(parts) + rest == parts[0] + tail;
      TakeBytesInverse(b, sizes[0], parts[0], tail);
      TakePartsInverse(tail, sizes[1..], parts[1..], rest);
      assert Sized(parts, sizes) <==> |parts[0]| == sizes[0] && Sized(parts[1..], sizes[1..]);
      if TakeParts(b, sizes) == Got(parts, rest) {
        var cut := TakeBytes(b, sizes[0]);
        TakePartsInverse(cut.rest, sizes[1..], parts[1..], rest);
        assert TakeParts(cut.rest, sizes[1..]).value == parts[1..];
      }
      assert parts == [parts[0]] + parts[1..];
    }
  }

  // ------------------------------------------------------------------------------
  // Reading at a place
  // ------------------------------------------------------------------------------

  lemma NumberFits(b: seq<Byte>, p: nat)
    requires p + 4 <= |b|
    ensures LittleAt(b, p) < 0x1_0000_0000
    ensures FromLittle(b[p..p + 4]) == LittleAt(b, p)
  {
  }

  /** The `n` numbers from byte `p` on. */
  function WordsFrom(b: seq<Byte>, p: nat, n: nat): (ws: seq<U32>)
    requires p + 4 * n <= |b|
    ensures |ws| == n && forall i | 0 <= i < n :: ws[i] == LittleAt(b, p + 4 * i)
  {
    seq(n, i requires 0 <= i < n => NumberFits(b, p + 4 * i); LittleAt(b, p + 4 * i))
  }

  lemma {:induction false} TakeWordsAt(b: seq<Byte>, p: nat, n: nat)
    requires p <= |b|
    ensures TakeWords(b[p..], n) ==
            if p + 4 * n <= |b| then Got(WordsFrom(b, p, n), b[p + 4 * n..]) else Short
    decreases n
  {
    hide LittleAt, FromLittle;
    if 0 < n && p + 4 <= |b| {
      assert b[p..][4..] == b[p + 4..] && b[p..][..4] == b[p..p + 4];
      TakeWordsAt(b, p + 4, n - 1);
      NumberFits(b, p);
      if p + 4 * n <= |b| {
        var ws := WordsFrom(b, p, n);
        assert ws == [ws[0]] + WordsFrom(b, p + 4, n - 1);
      }
    }
  }
}
