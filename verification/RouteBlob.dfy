/** The route carried by every WORK frame: its encoder, and the three readers a worker runs on
    it (dist_route_plan_append_blob, dist_route_validate_blob, dist_route_get_entry and
    dist_route_get_return_target in ds4_distributed.c). */
module RouteBlob {
  import opened Wrappers
  import opened Bytes
  import opened RouteSearch

  const OUTPUT_LOGITS: U32 := 1
  const RETURN_UPSTREAM: U32 := 1
  const ENTRY_FIXED := 20
  const RETURN_FIXED := 12
  const BLOB_LIMIT := 0xFFFF_FFFF

  datatype Entry = Entry(host: Host, port: U32, first: U32, last: U32, flags: U32)

  datatype Return = Return(kind: U32, port: U32, host: Host)

  // ------------------------------------------------------------------------------
  // Format
  // ------------------------------------------------------------------------------

  predicate FitsWord(host: Host) {
    |host| <= BLOB_LIMIT
  }

  function EncodeEntry(e: Entry): (r: seq<Byte>)
    requires FitsWord(e.host)
    ensures |r| == ENTRY_FIXED + |e.host|
  {
    Big(|e.host|) + Big(e.port) + Big(e.first) + Big(e.last) + Big(e.flags) + e.host
  }

  function EncodeReturn(t: Return): (r: seq<Byte>)
    requires FitsWord(t.host)
    ensures |r| == RETURN_FIXED + |t.host|
  {
    Big(t.kind) + Big(|t.host|) + Big(t.port) + t.host
  }

  ghost predicate AllFit(es: seq<Entry>) {
    forall e | e in es :: FitsWord(e.host)
  }

  ghost function EncodeEntries(es: seq<Entry>): seq<Byte>
    requires AllFit(es)
  {
    if es == [] then [] else EncodeEntry(es[0]) + EncodeEntries(es[1..])
  }

  const UPSTREAM := Return(RETURN_UPSTREAM, 0, [])

  /** What the planner sends: nothing for a route without workers, otherwise the entries and
      the record that results go back upstream. */
  ghost function Encode(es: seq<Entry>): seq<Byte>
    requires AllFit(es)
  {
    if es == [] then [] else EncodeEntries(es) + EncodeReturn(UPSTREAM)
  }

  /** A record: five numbers in network order and the host; the destination: three and its host. */
  lemma RecordsAre(e: Entry, t: Return)
    requires FitsWord(e.host) && FitsWord(t.host)
    ensures var b := EncodeEntry(e);
            && BigAt(b, 0) == |e.host| && BigAt(b, 4) == e.port && BigAt(b, 8) == e.first
            && BigAt(b, 12) == e.last && BigAt(b, 16) == e.flags && b[20..] == e.host
    ensures var b := EncodeReturn(t);
            BigAt(b, 0) == t.kind && BigAt(b, 4) == |t.host| && BigAt(b, 8) == t.port && b[12..] == t.host
  {
    hide Big, BigAt;
    var b, c := EncodeEntry(e), EncodeReturn(t);
    WordIsAt(b, 0, |e.host|);
    WordIsAt(b, 4, e.port);
    WordIsAt(b, 8, e.first);
    WordIsAt(b, 12, e.last);
    WordIsAt(b, 16, e.flags);
    WordIsAt(c, 0, t.kind);
    WordIsAt(c, 4, |t.host|);
    WordIsAt(c, 8, t.port);
  }

  // ------------------------------------------------------------------------------
  // Reading one record
  // ------------------------------------------------------------------------------

  function TakeEntry(b: seq<Byte>): Read<Entry> {
    if |b| < ENTRY_FIXED then Short
    else
      var end := ENTRY_FIXED + FromBig(b[..4]);
      if |b| < end then Short
      else
        Got(Entry(b[ENTRY_FIXED..end], FromBig(b[4..8]), FromBig(b[8..12]), FromBig(b[12..16]), FromBig(b[16..20])), b[end..])
  }

  function TakeReturn(b: seq<Byte>): Read<Return> {
    if |b| < RETURN_FIXED then Short
    else
      var end := RETURN_FIXED + FromBig(b[4..8]);
      if |b| < end then Short
      else Got(Return(FromBig(b[..4]), FromBig(b[8..12]), b[RETURN_FIXED..end]), b[end..])
  }

  lemma CutWord(w: U32, b: seq<Byte>, tail: seq<Byte>)
    ensures |b| >= 4 && FromBig(b[..4]) == w && b[4..] == tail <==> b == Big(w) + tail
  {
    hide FromBig, Big;
    if |b| >= 4 {
      BigInverse(w, b[..4]);
      assert b == b[..4] + b[4..];
    }
    if b == Big(w) + tail {
      assert b[..4] == Big(w) && b[4..] == tail;
    }
  }

  /** Reading a record succeeds exactly on the encodings of that record. */
  lemma TakeEntryInverse(b: seq<Byte>, e: Entry, rest: seq<Byte>)
    requires FitsWord(e.host)
    ensures TakeEntry(b) == Got(e, rest) <==> b == EncodeEntry(e) + rest
  {
    hide FromBig, Big;
    var t5 := e.host + rest;
    var t4 := Big(e.flags) + t5;
    var t3 := Big(e.last) + t4;
    var t2 := Big(e.first) + t3;
    var t1 := Big(e.port) + t2;
    assert EncodeEntry(e) + rest == Big(|e.host|) + t1;
    CutWord(|e.host|, b, t1);
    if ENTRY_FIXED <= |b| {
      CutWord(e.port, b[4..], t2);
      CutWord(e.first, b[4..][4..], t3);
      CutWord(e.last, b[4..][4..][4..], t4);
      CutWord(e.flags, b[4..][4..][4..][4..], t5);
      assert b[4..][..4] == b[4..8] && b[4..][4..] == b[8..];
      assert b[8..][..4] == b[8..12] && b[8..][4..] == b[12..];
      assert b[12..][..4] == b[12..16] && b[12..][4..] == b[16..];
      assert b[16..][..4] == b[16..20] && b[16..][4..] == b[20..];
      var end := ENTRY_FIXED + |e.host|;
      if end <= |b| {
        assert b[20..] == b[20..end] + b[end..];
        assert b[20..] == t5 ==> b[20..end] == e.host && b[end..] == rest;
      }
    }
  }

  lemma TakeReturnInverse(b: seq<Byte>, t: Return, rest: seq<Byte>)
    requires FitsWord(t.host)
    ensures TakeReturn(b) == Got(t, rest) <==> b == EncodeReturn(t) + rest
  {
    hide FromBig, Big;
    var t3 := t.host + rest;
    var t2 := Big(t.port) + t3;
    var t1 := Big(|t.host|) + t2;
    assert EncodeReturn(t) + rest == Big(t.kind) + t1;
    CutWord(t.kind, b, t1);
    if RETURN_FIXED <= |b| {
      CutWord(|t.host|, b[4..], t2);
      CutWord(t.port, b[4..][4..], t3);
      assert b[4..][..4] == b[4..8] && b[4..][4..] == b[8..];
      assert b[8..][..4] == b[8..12] && b[8..][4..] == b[12..];
      var end := RETURN_FIXED + |t.host|;
      if end <= |b| {
        assert b[12..] == b[12..end] + b[end..];
        assert b[12..] == t3 ==> b[12..end] == t.host && b[end..] == rest;
      }
    }
  }

  lemma TakeEntryHostFits(b: seq<Byte>)
    ensures TakeEntry(b).Got? ==> FitsWord(TakeEntry(b).value.host)
  {
  }

  /** The first five words at `p`, as the readers copy them out. */
  datatype Fixed = Fixed(hostLen: U32, port: U32, first: U32, last: U32, flags: U32)

  function FixedAt(blob: seq<Byte>, p: nat): Fixed
    requires p + ENTRY_FIXED <= |blob|
  {
    Fixed(FromBig(blob[p..p + 4]), FromBig(blob[p + 4..p + 8]), FromBig(blob[p + 8..p + 12]),
          FromBig(blob[p + 12..p + 16]), FromBig(blob[p + 16..p + 20]))
  }

  lemma TakeEntryAt(blob: seq<Byte>, p: nat)
    requires p <= |blob|
    ensures |blob| - p < ENTRY_FIXED ==> TakeEntry(blob[p..]).Short?
    ensures ENTRY_FIXED <= |blob| - p ==>
              var f := FixedAt(blob, p);
              var q := p + ENTRY_FIXED;
              TakeEntry(blob[p..]) ==
              if |blob| - q < f.hostLen then Short
              else Got(Entry(blob[q..q + f.hostLen], f.port, f.first, f.last, f.flags), blob[q + f.hostLen..])
  {
    hide FromBig;
    var b := blob[p..];
    if ENTRY_FIXED <= |b| {
      var q := p + ENTRY_FIXED;
      assert b[..4] == blob[p..p + 4] && b[4..8] == blob[p + 4..p + 8] && b[8..12] == blob[p + 8..p + 12];
      assert b[12..16] == blob[p + 12..p + 16] && b[16..20] == blob[p + 16..p + 20];
      var n := FixedAt(blob, p).hostLen;
      if n <= |blob| - q {
        assert b[20..20 + n] == blob[q..q + n] && b[20 + n..] == blob[q + n..];
      }
    }
  }

  lemma TakeReturnAt(blob: seq<Byte>, p: nat)
    requires p <= |blob|
    ensures |blob| - p < RETURN_FIXED ==> TakeReturn(blob[p..]).Short?
    ensures RETURN_FIXED <= |blob| - p ==>
              var n := FromBig(blob[p + 4..p + 8]);
              var q := p + RETURN_FIXED;
              TakeReturn(blob[p..]) ==
              if |blob| - q < n then Short
              else Got(Return(FromBig(blob[p..p + 4]), FromBig(blob[p + 8..p + 12]), blob[q..q + n]), blob[q + n..])
  {
    hide FromBig;
    var b := blob[p..];
    if RETURN_FIXED <= |b| {
      var q := p + RETURN_FIXED;
      assert b[..4] == blob[p..p + 4] && b[4..8] == blob[p + 4..p + 8] && b[8..12] == blob[p + 8..p + 12];
      var n := FromBig(b[4..8]);
      if n <= |blob| - q {
        assert b[12..12 + n] == blob[q..q + n] && b[12 + n..] == blob[q + n..];
      }
    }
  }

  // ------------------------------------------------------------------------------
  // The validator
  // ------------------------------------------------------------------------------

  predicate HostOk(host: Host) {
    host != [] && PeerHost(host)
  }

  predicate EntryValid(e: Entry, nLayers: U32) {
    && HostOk(e.host)
    && 0 < e.port <= 65535
    && e.first <= e.last < nLayers
    && e.flags <= OUTPUT_LOGITS
    && (e.flags == OUTPUT_LOGITS ==> e.last + 1 == nLayers)
  }

  predicate Follows(previous: Option<U32>, e: Entry) {
    previous.Some? ==> e.first == previous.value + 1
  }

  /** Valid entries, each starting right after the one before. */
  ghost predicate RouteOk(es: seq<Entry>, previous: Option<U32>, nLayers: U32)
    ensures RouteOk(es, previous, nLayers) ==> AllFit(es)
  {
    es == [] ||
    (&& EntryValid(es[0], nLayers)
     && Follows(previous, es[0])
     && RouteOk(es[1..], Some(es[0].last), nLayers))
  }

  ghost predicate IsRoute(blob: seq<Byte>, count: nat, nLayers: U32) {
    exists es :: |es| == count && RouteOk(es, None, nLayers) && blob == Encode(es)
  }

  /** What is left to read of a route after some entries. */
  ghost predicate IsTail(b: seq<Byte>, left: nat, previous: Option<U32>, nLayers: U32) {
    exists es :: |es| == left && RouteOk(es, previous, nLayers) && b == EncodeEntries(es) + EncodeReturn(UPSTREAM)
  }

  lemma TailStep(b: seq<Byte>, left: nat, previous: Option<U32>, nLayers: U32)
    requires 0 < left
    ensures IsTail(b, left, previous, nLayers) <==>
            var t := TakeEntry(b);
            && t.Got? && EntryValid(t.value, nLayers) && Follows(previous, t.value)
            && IsTail(t.rest, left - 1, Some(t.value.last), nLayers)
  {
    hide TakeEntry, EncodeEntry, EncodeReturn, EntryValid, Follows;
    var t := TakeEntry(b);
    if IsTail(b, left, previous, nLayers) {
      var es: seq<Entry> :| |es| == left && RouteOk(es, previous, nLayers) && b == EncodeEntries(es) + EncodeReturn(UPSTREAM);
      var rest := EncodeEntries(es[1..]) + EncodeReturn(UPSTREAM);
      assert b == EncodeEntry(es[0]) + rest;
      TakeEntryInverse(b, es[0], rest);
      assert RouteOk(es[1..], Some(es[0].last), nLayers);
    }
    if t.Got? && EntryValid(t.value, nLayers) && Follows(previous, t.value) &&
       IsTail(t.rest, left - 1, Some(t.value.last), nLayers)
    {
      var tail: seq<Entry> :| |tail| == left - 1 && RouteOk(tail, Some(t.value.last), nLayers) &&
                  t.rest == EncodeEntries(tail) + EncodeReturn(UPSTREAM);
      var es := [t.value] + tail;
      assert es[0] == t.value && es[1..] == tail;
      TakeEntryHostFits(b);
      TakeEntryInverse(b, t.value, t.rest);
      assert b == EncodeEntries(es) + EncodeReturn(UPSTREAM);
      assert RouteOk(es, previous, nLayers);
    }
  }

  lemma TailEnd(b: seq<Byte>, previous: Option<U32>, nLayers: U32)
    ensures IsTail(b, 0, previous, nLayers) <==> TakeReturn(b) == Got(UPSTREAM, [])
  {
    hide TakeReturn, EncodeReturn;
    TakeReturnInverse(b, UPSTREAM, []);
    assert EncodeReturn(UPSTREAM) + [] == EncodeReturn(UPSTREAM);
    assert EncodeEntries([]) + EncodeReturn(UPSTREAM) == EncodeReturn(UPSTREAM);
    if TakeReturn(b) == Got(UPSTREAM, []) {
      var none: seq<Entry> := [];
      assert |none| == 0 && RouteOk(none, previous, nLayers) && b == EncodeEntries(none) + EncodeReturn(UPSTREAM);
    }
  }

  lemma RouteIsTail(blob: seq<Byte>, count: nat, nLayers: U32)
    requires 0 < count
    ensures IsRoute(blob, count, nLayers) <==> IsTail(blob, count, None, nLayers)
  {
    hide EncodeReturn, EncodeEntries;
    if IsTail(blob, count, None, nLayers) {
      var es: seq<Entry> :| |es| == count && RouteOk(es, None, nLayers) && blob == EncodeEntries(es) + EncodeReturn(UPSTREAM);
      assert blob == Encode(es);
    }
  }

  lemma EmptyRoute(blob: seq<Byte>, nLayers: U32)
    ensures IsRoute(blob, 0, nLayers) <==> blob == []
  {
    assert RouteOk([], None, nLayers) && Encode([]) == [];
  }

  /** The validator accepts exactly the encodings of valid contiguous routes. */
  method Validate(blob: seq<Byte>, count: nat, nLayers: U32) returns (ok: bool)
    ensures ok <==> IsRoute(blob, count, nLayers)
  {
    hide IsRoute, IsTail, TakeEntry, FixedAt, FromBig;
    if count == 0 {
      EmptyRoute(blob, nLayers);
      return blob == [];
    }
    RouteIsTail(blob, count, nLayers);
    var p: nat, previousEnd: U32, i := 0, 0xFFFF_FFFF, 0;
    while i < count
      invariant 0 <= i <= count && p <= |blob|
      invariant i != 0 ==> previousEnd < nLayers
      invariant IsRoute(blob, count, nLayers) <==>
                IsTail(blob[p..], count - i, if i == 0 then None else Some(previousEnd), nLayers)
    {
      TailStep(blob[p..], count - i, if i == 0 then None else Some(previousEnd), nLayers);
      TakeEntryAt(blob, p);
      if |blob| - p < ENTRY_FIXED {
        return false;
      }
      var fixed := FixedAt(blob, p);
      p := p + ENTRY_FIXED;
      if fixed.hostLen == 0 || NI_MAXHOST <= fixed.hostLen || |blob| - p < fixed.hostLen {
        return false;
      }
      if 0 in blob[p..p + fixed.hostLen] {
        return false;
      }
      if fixed.port == 0 || 65535 < fixed.port {
        return false;
      }
      if nLayers <= fixed.first || nLayers <= fixed.last || fixed.last < fixed.first {
        return false;
      }
      if OUTPUT_LOGITS < fixed.flags {
        return false;
      }
      if fixed.flags == OUTPUT_LOGITS && fixed.last + 1 != nLayers {
        return false;
      }
      if i != 0 && fixed.first != previousEnd + 1 {
        return false;
      }
      p := p + fixed.hostLen;
      previousEnd := fixed.last;
      i := i + 1;
    }
    TailEnd(blob[p..], Some(previousEnd), nLayers);
    TakeReturnAt(blob, p);
    if |blob| - p < RETURN_FIXED {
      return false;
    }
    var kind, hostLen, port := FromBig(blob[p..p + 4]), FromBig(blob[p + 4..p + 8]), FromBig(blob[p + 8..p + 12]);
    p := p + RETURN_FIXED;
    if NI_MAXHOST <= hostLen || |blob| - p < hostLen {
      return false;
    }
    if 0 in blob[p..p + hostLen] {
      return false;
    }
    if kind != RETURN_UPSTREAM {
      return false;
    }
    if hostLen != 0 || port != 0 {
      return false;
    }
    p := p + hostLen;
    return p == |blob|;
  }

  // ------------------------------------------------------------------------------
  // Picking out one entry and the final destination
  // ------------------------------------------------------------------------------

  ghost predicate HostsOk(es: seq<Entry>)
    ensures HostsOk(es) ==> AllFit(es)
  {
    forall e | e in es :: HostOk(e.host)
  }

  /** Entry number `target` of a blob, whatever follows it. */
  ghost predicate IsEntryAt(b: seq<Byte>, target: nat, e: Entry) {
    exists before: seq<Entry>, after: seq<Byte> ::
      |before| == target && HostsOk(before) && HostOk(e.host) && b == EncodeEntries(before) + (EncodeEntry(e) + after)
  }

  lemma EntryHere(b: seq<Byte>, e: Entry)
    ensures IsEntryAt(b, 0, e) <==> TakeEntry(b).Got? && TakeEntry(b).value == e && HostOk(e.host)
  {
    hide TakeEntry, EncodeEntry;
    if IsEntryAt(b, 0, e) {
      var before: seq<Entry>, after: seq<Byte> :| |before| == 0 && HostsOk(before) && HostOk(e.host) &&
                                                  b == EncodeEntries(before) + (EncodeEntry(e) + after);
      assert b == EncodeEntry(e) + after;
      TakeEntryInverse(b, e, after);
    }
    if TakeEntry(b).Got? && TakeEntry(b).value == e && HostOk(e.host) {
      var none: seq<Entry>, after := [], TakeEntry(b).rest;
      TakeEntryInverse(b, e, after);
      assert |none| == 0 && HostsOk(none) && b == EncodeEntries(none) + (EncodeEntry(e) + after);
    }
  }

  lemma EntryFurther(b: seq<Byte>, target: nat, e: Entry)
    requires 0 < target
    ensures IsEntryAt(b, target, e) <==>
            var t := TakeEntry(b);
            t.Got? && HostOk(t.value.host) && IsEntryAt(t.rest, target - 1, e)
  {
    hide TakeEntry, EncodeEntry, IsEntryAt;
    if IsEntryAt(b, target, e) {
      EntryStripped(b, target, e);
    }
    var t := TakeEntry(b);
    if t.Got? && HostOk(t.value.host) && IsEntryAt(t.rest, target - 1, e) {
      TakeEntryInverse(b, t.value, t.rest);
      EntryPrefixed(t.value, t.rest, target - 1, e);
    }
  }

  lemma EntryStripped(b: seq<Byte>, target: nat, e: Entry)
    requires 0 < target && IsEntryAt(b, target, e)
    ensures var t := TakeEntry(b);
            t.Got? && HostOk(t.value.host) && IsEntryAt(t.rest, target - 1, e)
  {
    hide TakeEntry, EncodeEntry;
    var before: seq<Entry>, after: seq<Byte> :| |before| == target && HostsOk(before) && HostOk(e.host) &&
                                                b == EncodeEntries(before) + (EncodeEntry(e) + after);
    var rest := EncodeEntries(before[1..]) + (EncodeEntry(e) + after);
    assert b == EncodeEntry(before[0]) + rest;
    TakeEntryInverse(b, before[0], rest);
    assert HostsOk(before[1..]);
  }

  lemma EntryPrefixed(first: Entry, rest: seq<Byte>, target: nat, e: Entry)
    requires HostOk(first.host) && IsEntryAt(rest, target, e)
    ensures IsEntryAt(EncodeEntry(first) + rest, target + 1, e)
  {
    hide TakeEntry, EncodeEntry;
    var before: seq<Entry>, after: seq<Byte> :| |before| == target && HostsOk(before) && HostOk(e.host) &&
                                                rest == EncodeEntries(before) + (EncodeEntry(e) + after);
    var all := [first] + before;
    assert all[0] == first && all[1..] == before;
    assert |all| == target + 1 && HostsOk(all) && EncodeEntry(first) + rest == EncodeEntries(all) + (EncodeEntry(e) + after);
  }

  method GetEntry(blob: seq<Byte>, count: nat, target: nat) returns (r: Option<Entry>)
    ensures r.Some? ==> target < count && IsEntryAt(blob, target, r.value)
    ensures r.None? ==> count <= target || forall e :: !IsEntryAt(blob, target, e)
  {
    hide IsEntryAt, TakeEntry, FixedAt;
    if count <= target {
      return None;
    }
    var p: nat, i := 0, 0;
    while i < count
      invariant 0 <= i <= target && p <= |blob|
      invariant forall e :: IsEntryAt(blob, target, e) <==> IsEntryAt(blob[p..], target - i, e)
      decreases count - i
    {
      forall e
        ensures i < target ==> (IsEntryAt(blob, target, e) <==>
                TakeEntry(blob[p..]).Got? && HostOk(TakeEntry(blob[p..]).value.host) &&
                IsEntryAt(TakeEntry(blob[p..]).rest, target - i - 1, e))
        ensures i == target ==> (IsEntryAt(blob, target, e) <==>
                TakeEntry(blob[p..]).Got? && TakeEntry(blob[p..]).value == e && HostOk(e.host))
      {
        if i < target {
          EntryFurther(blob[p..], target - i, e);
        } else {
          EntryHere(blob[p..], e);
        }
      }
      TakeEntryAt(blob, p);
      if |blob| - p < ENTRY_FIXED {
        return None;
      }
      var fixed := FixedAt(blob, p);
      p := p + ENTRY_FIXED;
      if fixed.hostLen == 0 || NI_MAXHOST <= fixed.hostLen || |blob| - p < fixed.hostLen {
        return None;
      }
      var host := blob[p..p + fixed.hostLen];
      if 0 in host {
        return None;
      }
      if i == target {
        return Some(Entry(host, fixed.port, fixed.first, fixed.last, fixed.flags));
      }
      p := p + fixed.hostLen;
      i := i + 1;
    }
    assert false;
  }

  ghost predicate NulFree(es: seq<Entry>) {
    forall e | e in es :: FitsWord(e.host) && 0 !in e.host
  }

  /** The record after `count` entries, up to the end of the blob. */
  ghost predicate IsReturn(b: seq<Byte>, count: nat, t: Return) {
    exists es: seq<Entry> ::
      |es| == count && NulFree(es) && PeerHost(t.host) && b == EncodeEntries(es) + EncodeReturn(t)
  }

  lemma ReturnHere(b: seq<Byte>, t: Return)
    ensures IsReturn(b, 0, t) <==> TakeReturn(b) == Got(t, []) && PeerHost(t.host)
  {
    hide TakeReturn, EncodeReturn;
    if PeerHost(t.host) {
      TakeReturnInverse(b, t, []);
      assert EncodeReturn(t) + [] == EncodeReturn(t);
      var none: seq<Entry> := [];
      assert EncodeEntries(none) + EncodeReturn(t) == EncodeReturn(t);
      assert |none| == 0 && NulFree(none);
    }
  }

  lemma ReturnFurther(b: seq<Byte>, count: nat, t: Return)
    requires 0 < count
    ensures IsReturn(b, count, t) <==>
            var e := TakeEntry(b);
            e.Got? && 0 !in e.value.host && IsReturn(e.rest, count - 1, t)
  {
    hide TakeEntry, EncodeEntry, EncodeReturn;
    var e := TakeEntry(b);
    if IsReturn(b, count, t) {
      var es: seq<Entry> :| |es| == count && NulFree(es) && PeerHost(t.host) &&
                            b == EncodeEntries(es) + EncodeReturn(t);
      var rest := EncodeEntries(es[1..]) + EncodeReturn(t);
      assert b == EncodeEntry(es[0]) + rest;
      TakeEntryInverse(b, es[0], rest);
      assert NulFree(es[1..]);
    }
    if e.Got? && 0 !in e.value.host && IsReturn(e.rest, count - 1, t) {
      var es: seq<Entry> :| |es| == count - 1 && NulFree(es) && PeerHost(t.host) &&
                            e.rest == EncodeEntries(es) + EncodeReturn(t);
      var all := [e.value] + es;
      assert all[0] == e.value && all[1..] == es;
      TakeEntryHostFits(b);
      TakeEntryInverse(b, e.value, e.rest);
      assert |all| == count && NulFree(all) && b == EncodeEntries(all) + EncodeReturn(t);
    }
  }

  method GetReturnTarget(blob: seq<Byte>, count: nat) returns (r: Option<Return>)
    ensures r.Some? ==> 0 < count && IsReturn(blob, count, r.value)
    ensures r.None? ==> count == 0 || forall t :: !IsReturn(blob, count, t)
  {
    hide IsReturn, TakeEntry, TakeReturn, FixedAt;
    if count == 0 {
      return None;
    }
    var p: nat, i := 0, 0;
    while i < count
      invariant 0 <= i <= count && p <= |blob|
      invariant forall t :: IsReturn(blob, count, t) <==> IsReturn(blob[p..], count - i, t)
    {
      forall t
        ensures IsReturn(blob, count, t) <==>
                TakeEntry(blob[p..]).Got? && 0 !in TakeEntry(blob[p..]).value.host &&
                IsReturn(TakeEntry(blob[p..]).rest, count - i - 1, t)
      {
        ReturnFurther(blob[p..], count - i, t);
      }
      TakeEntryAt(blob, p);
      if |blob| - p < ENTRY_FIXED {
        return None;
      }
      var hostLen := FixedAt(blob, p).hostLen;
      p := p + ENTRY_FIXED;
      if |blob| - p < hostLen {
        return None;
      }
      if 0 in blob[p..p + hostLen] {
        return None;
      }
      p := p + hostLen;
      i := i + 1;
    }
    forall t
      ensures IsReturn(blob, count, t) <==> TakeReturn(blob[p..]) == Got(t, []) && PeerHost(t.host)
    {
      ReturnHere(blob[p..], t);
    }
    TakeReturnAt(blob, p);
    if |blob| - p < RETURN_FIXED {
      return None;
    }
    var kind, hostLen, port := FromBig(blob[p..p + 4]), FromBig(blob[p + 4..p + 8]), FromBig(blob[p + 8..p + 12]);
    p := p + RETURN_FIXED;
    if NI_MAXHOST <= hostLen || |blob| - p < hostLen {
      return None;
    }
    var host := blob[p..p + hostLen];
    if 0 in host {
      return None;
    }
    p := p + hostLen;
    if p != |blob| {
      return None;
    }
    r := Some(Return(kind, port, host));
  }

  // ------------------------------------------------------------------------------
  // An accepted blob has one reading
  // ------------------------------------------------------------------------------

  lemma RouteHostsOk(es: seq<Entry>, previous: Option<U32>, nLayers: U32)
    requires RouteOk(es, previous, nLayers)
    ensures HostsOk(es) && NulFree(es)
  {
    if es != [] {
      RouteHostsOk(es[1..], Some(es[0].last), nLayers);
    }
  }

  lemma {:induction false} EntriesSplit(es: seq<Entry>, i: nat)
    requires AllFit(es) && i < |es|
    ensures EncodeEntries(es) == EncodeEntries(es[..i]) + (EncodeEntry(es[i]) + EncodeEntries(es[i + 1..]))
  {
    hide EncodeEntry;
    if i == 0 {
      assert es[1..] == es[i + 1..];
    } else {
      EntriesSplit(es[1..], i - 1);
      assert es[1..][..i - 1] == es[..i][1..] && es[1..][i..] == es[i + 1..];
    }
  }

  /** Everything read out of the encoding of a route is what was put in. */
  lemma ReadsWhatWasWritten(es: seq<Entry>, previous: Option<U32>, nLayers: U32, i: nat, e: Entry, t: Return)
    requires RouteOk(es, previous, nLayers) && i < |es|
    ensures IsEntryAt(Encode(es), i, e) <==> e == es[i]
    ensures IsReturn(Encode(es), |es|, t) <==> t == UPSTREAM
  {
    hide EncodeEntry, EncodeReturn, TakeEntry;
    RouteHostsOk(es, previous, nLayers);
    EntriesSplit(es, i);
    var after := EncodeEntries(es[i + 1..]) + EncodeReturn(UPSTREAM);
    assert Encode(es) == EncodeEntries(es[..i]) + (EncodeEntry(es[i]) + after);
    assert |es[..i]| == i && HostsOk(es[..i]);
    OneEntryAt(Encode(es), i, es[i], e);
    assert |es| == |es| && NulFree(es) && Encode(es) == EncodeEntries(es) + EncodeReturn(UPSTREAM);
    assert IsReturn(Encode(es), |es|, UPSTREAM);
    OneReturn(Encode(es), |es|, UPSTREAM, t);
  }

  lemma {:induction false} OneEntryAt(b: seq<Byte>, target: nat, e: Entry, f: Entry)
    requires IsEntryAt(b, target, e)
    ensures IsEntryAt(b, target, f) <==> e == f
    decreases target
  {
    hide IsEntryAt, TakeEntry;
    if target == 0 {
      EntryHere(b, e);
      EntryHere(b, f);
    } else {
      EntryFurther(b, target, e);
      EntryFurther(b, target, f);
      OneEntryAt(TakeEntry(b).rest, target - 1, e, f);
    }
  }

  lemma {:induction false} OneReturn(b: seq<Byte>, count: nat, t: Return, u: Return)
    requires IsReturn(b, count, t)
    ensures IsReturn(b, count, u) <==> t == u
    decreases count
  {
    hide IsReturn, TakeEntry, TakeReturn;
    if count == 0 {
      ReturnHere(b, t);
      ReturnHere(b, u);
    } else {
      ReturnFurther(b, count, t);
      ReturnFurther(b, count, u);
      OneReturn(TakeEntry(b).rest, count - 1, t, u);
    }
  }

  /** An accepted blob is the encoding of exactly one route. */
  lemma OneReading(es: seq<Entry>, fs: seq<Entry>, nLayers: U32)
    requires RouteOk(es, None, nLayers) && RouteOk(fs, None, nLayers)
    requires |es| == |fs| && Encode(es) == Encode(fs)
    ensures es == fs
  {
    forall i | 0 <= i < |es| ensures es[i] == fs[i] {
      ReadsWhatWasWritten(es, None, nLayers, i, fs[i], UPSTREAM);
      ReadsWhatWasWritten(fs, None, nLayers, i, fs[i], UPSTREAM);
    }
  }
}
