/** Reading a payload from a file with a cursor and a count of the bytes still owed to the
    reader (dist_payload_read_bytes, dist_payload_read_u32 and dist_payload_copy_bytes in
    ds4_distributed.c). */
module KvFile {
  import opened Wrappers
  import opened Bytes
  import opened KvFormat
  import opened KvCodec

  class PayloadFile {
    const data: seq<Byte>
    const end: nat
    var pos: nat
    var remaining: nat

    ghost predicate Valid()
      reads this
    {
      pos <= |data| && pos + remaining == end
    }

    /** What a read may still see. */
    ghost function Unread(): seq<Byte>
      reads this
      requires Valid()
    {
      data[pos..if end <= |data| then end else |data|]
    }

    constructor (data: seq<Byte>, payloadBytes: nat)
      ensures Valid() && this.data == data && end == payloadBytes && pos == 0
      ensures Unread() == if payloadBytes <= |data| then data[..payloadBytes] else data
    {
      this.data := data;
      end := payloadBytes;
      pos := 0;
      remaining := payloadBytes;
      new;
      assert data[0..] == data;
    }

    method ReadBytes(n: nat) returns (r: Option<seq<Byte>>)
      requires Valid()
      modifies this`pos, this`remaining
      ensures Valid()
      ensures match TakeBytes(old(Unread()), n)
              case Short => r.None?
              case Got(value, rest) => r == Some(value) && Unread() == rest
    {
      if remaining < n {
        return None;
      }
      if |data| - pos < n {
        return None;
      }
      var value := data[pos..pos + n];
      assert value == Unread()[..n];
      pos := pos + n;
      remaining := remaining - n;
      r := Some(value);
    }

    /** Read `n` words, giving up at the first one not below `bound`. */
    method ReadWords(n: nat, bound: nat) returns (r: Option<seq<U32>>)
      requires Valid()
      modifies this`pos, this`remaining
      ensures Valid()
      ensures match TakeWords(old(Unread()), n)
              case Short => r.None?
              case Got(ws, rest) => r == (if AllBelow(ws, bound) then Some(ws) else None) && (r.Some? ==> Unread() == rest)
    {
      hide TakeBytes, AllBelow;
      var ws: seq<U32> := [];
      NothingBelow(bound);
      AppendNothing(old(Unread()), n);
      for i := 0 to n
        invariant Valid() && AllBelow(ws, bound) && |ws| == i
        invariant TakeWords(old(Unread()), n) == Prepend(ws, TakeWords(Unread(), n - i))
      {
        ghost var b := Unread();
        TakeOne(b, n - i);
        var four := ReadBytes(4);
        if four.None? {
          return None;
        }
        var w := FromLittle(four.value);
        PrependMore(ws, w, TakeWords(Unread(), n - i - 1));
        if bound <= w {
          OneTooLarge(ws, w, TakeWords(Unread(), n - i - 1), bound);
          return None;
        }
        OneMoreBelow(ws, w, bound);
        ws := ws + [w];
      }
      assert ws + [] == ws;
      r := Some(ws);
    }
  }

  // ------------------------------------------------------------------------------
  // Steps of the word loop
  // ------------------------------------------------------------------------------

  function Prepend(ws: seq<U32>, r: Read<seq<U32>>): Read<seq<U32>> {
    match r case Short => Short case Got(more, rest) => Got(ws + more, rest)
  }

  lemma AppendNothing(b: seq<Byte>, n: nat)
    ensures TakeWords(b, n) == Prepend([], TakeWords(b, n))
  {
    if TakeWords(b, n).Got? {
      assert [] + TakeWords(b, n).value == TakeWords(b, n).value;
    }
  }

  lemma TakeOne(b: seq<Byte>, n: nat)
    requires 0 < n
    ensures match TakeBytes(b, 4)
            case Short => TakeWords(b, n).Short?
            case Got(four, rest) => |four| == 4 && TakeWords(b, n) == Prepend([FromLittle(four)], TakeWords(rest, n - 1))
  {
    hide FromLittle;
  }

  lemma PrependMore(ws: seq<U32>, w: U32, r: Read<seq<U32>>)
    ensures Prepend(ws, Prepend([w], r)) == Prepend(ws + [w], r)
  {
    if r.Got? {
      assert ws + ([w] + r.value) == ws + [w] + r.value;
    }
  }

  lemma NothingBelow(bound: nat)
    ensures AllBelow([], bound)
  {
  }

  lemma OneMoreBelow(ws: seq<U32>, w: U32, bound: nat)
    requires AllBelow(ws, bound) && w < bound
    ensures AllBelow(ws + [w], bound)
  {
  }

  lemma OneTooLarge(ws: seq<U32>, w: U32, r: Read<seq<U32>>, bound: nat)
    requires bound <= w
    ensures Prepend(ws + [w], r).Got? ==> !AllBelow(Prepend(ws + [w], r).value, bound)
  {
    if r.Got? {
      assert w in ws + [w] + r.value;
    }
  }
}
