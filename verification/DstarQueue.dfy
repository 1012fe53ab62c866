/** The D-STAR transmit queue: records go into a byte ring, come out one at a time into the output
    buffer, and leave as the bytes that are modulated. A byte is its eight bits, the least
    significant first. */
module DstarQueue {
  import opened DstarFec
  import opened DstarHeader

  type Byte = b: seq<bool> | |b| == 8 witness [false, false, false, false, false, false, false, false]

  const BUF_BYTES := 8192
  const PO_BYTES := 600
  const PREAMBLE_BYTES := 60
  const HEADER_BYTES := 41
  const FRAME_BYTES := 12
  const END_SYNC_BYTES := 6

  const TYPE_HEADER: Byte := [false, false, false, false, false, false, false, false]
  const TYPE_DATA: Byte := [true, false, false, false, false, false, false, false]
  const TYPE_EOT: Byte := [false, true, false, false, false, false, false, false]
  const PREAMBLE: Byte := [false, true, false, true, false, true, false, true]           // 0xAA
  const SYNC0: Byte := [false, true, false, true, false, true, true, true]               // 0xEA
  const SYNC1: Byte := [false, true, true, false, false, true, false, true]              // 0xA6
  const END55: Byte := [true, false, true, false, true, false, true, false]              // 0x55
  const ENDC8: Byte := [false, false, false, true, false, false, true, true]             // 0xC8
  const END7A: Byte := [false, true, false, true, true, true, true, false]               // 0x7A

  const END_SYNC: seq<Byte> := [END55, END55, END55, END55, ENDC8, END7A]

  /** What can be queued. */
  datatype Record = Header(h: seq<Byte>) | Frame(f: seq<Byte>) | Eot

  predicate WellFormed(r: Record) {
    match r
    case Header(h) => |h| == HEADER_BYTES
    case Frame(f) => |f| == FRAME_BYTES
    case Eot => true
  }

  // ---- bytes and bits

  function Flatten(b: seq<Byte>): (x: seq<bool>)
    ensures |x| == 8 * |b|
  {
    if b == [] then [] else Flatten(b[..|b| - 1]) + b[|b| - 1]
  }

  function Chop(x: seq<bool>): (b: seq<Byte>)
    requires |x| % 8 == 0
    ensures |b| == |x| / 8
  {
    if x == [] then [] else Chop(x[..|x| - 8]) + [x[|x| - 8..]]
  }

  lemma {:induction false} FlattenChop(x: seq<bool>)
    requires |x| % 8 == 0
    ensures Flatten(Chop(x)) == x
  {
    if x != [] {
      FlattenChop(x[..|x| - 8]);
      assert Chop(x)[..|Chop(x)| - 1] == Chop(x[..|x| - 8]);
    }
  }

  // ---- what a record is in the queue, and on the air

  function Tag(r: Record): Byte {
    match r
    case Header(_) => TYPE_HEADER
    case Frame(_) => TYPE_DATA
    case Eot => TYPE_EOT
  }

  function Body(r: Record): seq<Byte> {
    match r
    case Header(h) => h
    case Frame(f) => f
    case Eot => END_SYNC + END_SYNC + END_SYNC
  }

  function Encode(r: Record): (b: seq<Byte>)
    ensures b != []
  {
    [Tag(r)] + Body(r)
  }

  lemma TagOf(r: Record)
    ensures Tag(r) == TYPE_HEADER <==> r.Header?
    ensures Tag(r) == TYPE_DATA <==> r.Frame?
    ensures Tag(r) == TYPE_EOT <==> r.Eot?
  {
    assert TYPE_HEADER[0] != TYPE_DATA[0] && TYPE_HEADER[1] != TYPE_EOT[1] && TYPE_DATA[0] != TYPE_EOT[0];
  }

  /** A header goes out as the end of the frame sync and its coded section, a frame as it is, the
      end of the transmission as three end patterns. */
  function Expand(r: Record): (b: seq<Byte>)
    requires WellFormed(r)
    ensures b != [] && |b| <= PO_BYTES
  {
    match r
    case Header(h) => [SYNC0, SYNC1] + Chop(HeaderSection(Flatten(h)))
    case Frame(f) => f
    case Eot => END_SYNC + END_SYNC + END_SYNC
  }

  /** A header goes out behind the frame sync of the D-STAR standard, 1110110 01010000, its last four bits the first
      of the coded section; before it the bit sync goes on. */
  lemma FrameSync(h: seq<Byte>)
    requires |h| == HEADER_BYTES
    ensures var b := Expand(Header(h));
      |b| == 85 && Flatten(b[..3])[..20] ==
        [false, true, false, true, false] +
        [true, true, true, false, true, true, false, false, true, false, true, false, false, false, false]
  {
    hide HeaderSection;
    var x := HeaderSection(Flatten(h));
    SectionStart(Flatten(h));
    ChopFirst(x);
    var b := Expand(Header(h));
    hide Chop;
    assert b[..3] == [SYNC0, SYNC1, b[2]] && b[2][..4] == x[..8][..4] == x[..4];
    FlattenThree(SYNC0, SYNC1, b[2]);
  }

  lemma FlattenThree(a: Byte, b: Byte, c: Byte)
    ensures forall i :: 0 <= i < 24 ==> Flatten([a, b, c])[i] == if i < 8 then a[i] else if i < 16 then b[i - 8] else c[i - 16]
  {
    assert [a, b, c][..2] == [a, b] && [a, b][..1] == [a] && [a][..0] == [];
    assert Flatten([a]) == a;
    assert Flatten([a, b]) == Flatten([a]) + b;
  }

  lemma SectionStart(h: seq<bool>)
    requires |h| == HEADER_BITS
    ensures HeaderSection(h)[..4] == [false, false, false, false]
  {
  }

  lemma {:induction false} ChopFirst(x: seq<bool>)
    requires |x| % 8 == 0 && |x| > 0
    ensures Chop(x)[0] == x[..8]
  {
    if |x| > 8 {
      ChopFirst(x[..|x| - 8]);
      assert x[..|x| - 8][..8] == x[..8];
    }
  }

  /** The end of a transmission is, three times, the bit sync and the standard's last frame 000100110101111 and a zero. */
  lemma LastFrame()
    ensures Expand(Eot) == END_SYNC + END_SYNC + END_SYNC
    ensures END_SYNC[4] == [false, false, false, true, false, false, true, true]
    ensures END_SYNC[5] == [false, true, false, true, true, true, true, false]
    ensures END_SYNC[0] == END_SYNC[1] == END_SYNC[2] == END_SYNC[3] == [true, false, true, false, true, false, true, false]
  {
  }

  ghost predicate AllFormed(rs: seq<Record>) {
    forall i :: 0 <= i < |rs| ==> WellFormed(rs[i])
  }

  function EncodeAll(rs: seq<Record>): seq<Byte> {
    if rs == [] then [] else Encode(rs[0]) + EncodeAll(rs[1..])
  }

  ghost function ExpandAll(rs: seq<Record>): seq<Byte>
    requires AllFormed(rs)
  {
    if rs == [] then [] else Expand(rs[0]) + ExpandAll(rs[1..])
  }

  lemma {:induction false} EncodeSnoc(rs: seq<Record>, r: Record)
    ensures EncodeAll(rs + [r]) == EncodeAll(rs) + Encode(r)
  {
    hide Encode;
    if rs != [] {
      EncodeSnoc(rs[1..], r);
      assert (rs + [r])[1..] == rs[1..] + [r];
    }
  }

  lemma {:induction false} ExpandSnoc(rs: seq<Record>, r: Record)
    requires AllFormed(rs) && WellFormed(r)
    ensures AllFormed(rs + [r]) && ExpandAll(rs + [r]) == ExpandAll(rs) + Expand(r)
  {
    hide Expand;
    if rs != [] {
      ExpandSnoc(rs[1..], r);
      assert (rs + [r])[1..] == rs[1..] + [r];
    }
  }

  function Repeat(n: nat): (b: seq<Byte>)
    ensures |b| == n
  {
    seq(n, _ => PREAMBLE)
  }

  // ---- the ring

  function Contents(q: seq<Byte>, tail: nat, len: nat): (c: seq<Byte>)
    requires |q| == BUF_BYTES
    ensures |c| == len
  {
    seq(len, i requires 0 <= i < len => q[(tail + i) % BUF_BYTES])
  }

  lemma RingPut(q: seq<Byte>, tail: nat, len: nat, b: Byte)
    requires |q| == BUF_BYTES && tail < BUF_BYTES && len < BUF_BYTES
    ensures Contents(q[(tail + len) % BUF_BYTES := b], tail, len + 1) == Contents(q, tail, len) + [b]
  {
    var after := q[(tail + len) % BUF_BYTES := b];
    forall i | 0 <= i < len
      ensures Contents(after, tail, len + 1)[i] == Contents(q, tail, len)[i]
    {
      assert (tail + i) % BUF_BYTES != (tail + len) % BUF_BYTES;
    }
  }

  lemma NextPlace(x: nat)
    ensures (x % BUF_BYTES + 1) % BUF_BYTES == (x + 1) % BUF_BYTES
  {
  }

  lemma RingGet(q: seq<Byte>, tail: nat, len: nat)
    requires |q| == BUF_BYTES && tail < BUF_BYTES && 0 < len < BUF_BYTES
    ensures Contents(q, tail, len)[0] == q[tail]
    ensures Contents(q, (tail + 1) % BUF_BYTES, len - 1) == Contents(q, tail, len)[1..]
  {
    var next := (tail + 1) % BUF_BYTES;
    forall i | 0 <= i < len - 1
      ensures Contents(q, next, len - 1)[i] == Contents(q, tail, len)[1..][i]
    {
      assert (next + i) % BUF_BYTES == (tail + 1 + i) % BUF_BYTES;
    }
  }

  class DstarTx {
    const queue: array<Byte>
    var qHead: nat
    var qTail: nat
    var qLen: nat
    var po: seq<Byte>          // the output buffer, as far as it is filled
    var poPtr: nat
    var firstHeader: bool      // the preamble is still to be sent
    var preambleLeft: nat

    ghost var records: seq<Record>     // queued
    ghost var sent: seq<Byte>          // modulated since the reset
    ghost var stream: seq<Byte>        // what the records accepted since the reset are on the air

    /** What is still to be modulated. */
    ghost function Pending(): seq<Byte>
      reads this
      requires poPtr <= |po| && AllFormed(records)
    {
      po[poPtr..] + Repeat(preambleLeft) + ExpandAll(records)
    }

    ghost predicate RingValid()
      reads this, queue
    {
      queue.Length == BUF_BYTES && qTail < BUF_BYTES && qLen < BUF_BYTES && qHead == (qTail + qLen) % BUF_BYTES
    }

    ghost predicate Valid()
      reads this, queue
    {
      && RingValid()
      && Contents(queue[..], qTail, qLen) == EncodeAll(records) && AllFormed(records)
      && |po| <= PO_BYTES && (if po == [] then poPtr == 0 else poPtr < |po|)
      && preambleLeft <= PREAMBLE_BYTES && (preambleLeft > 0 ==> records != [])
      && sent + Pending() == stream
    }

    constructor ()
      ensures Valid() && stream == [] && firstHeader && fresh(queue)
    {
      queue := new Byte[BUF_BYTES];
      qHead, qTail, qLen, po, poPtr, firstHeader, preambleLeft := 0, 0, 0, [], 0, true, 0;
      records, sent, stream := [], [], [];
    }

    method Reset()
      requires RingValid()
      modifies this
      ensures Valid() && stream == [] && sent == [] && firstHeader
    {
      qHead, qTail, qLen, po, poPtr, firstHeader, preambleLeft := 0, 0, 0, [], 0, true, 0;
      records, sent, stream := [], [], [];
    }

    method QueuePut(data: seq<Byte>) returns (ok: bool)
      requires RingValid()
      modifies this`qHead, this`qLen, queue
      ensures RingValid() && ok == (|data| <= BUF_BYTES - old(qLen) - 1)
      ensures Contents(queue[..], qTail, qLen) == old(Contents(queue[..], qTail, qLen)) + if ok then data else []
    {
      hide Contents;
      if |data| > BUF_BYTES - qLen - 1 {
        return false;
      }
      ghost var before := Contents(queue[..], qTail, qLen);
      for i := 0 to |data|
        invariant qHead == (qTail + qLen + i) % BUF_BYTES && qLen == old(qLen)
        invariant Contents(queue[..], qTail, qLen + i) == before + data[..i]
      {
        RingPut(queue[..], qTail, qLen + i, data[i]);
        ghost var q := queue[..];
        queue[qHead] := data[i];
        assert queue[..] == q[qHead := data[i]];
        assert before + data[..i] + [data[i]] == before + data[..i + 1];
        NextPlace(qTail + qLen + i);
        qHead := (qHead + 1) % BUF_BYTES;
      }
      assert data[..|data|] == data;
      qLen := qLen + |data|;
      return true;
    }

    method QueueGet() returns (v: Byte)
      requires RingValid() && qLen > 0
      modifies this`qTail, this`qLen
      ensures RingValid() && qLen == old(qLen) - 1
      ensures old(Contents(queue[..], qTail, qLen)) == [v] + Contents(queue[..], qTail, qLen)
    {
      hide Contents;
      RingGet(queue[..], qTail, qLen);
      v := queue[qTail];
      qTail := (qTail + 1) % BUF_BYTES;
      qLen := qLen - 1;
    }

    /** The next n bytes of the queue. */
    method Take(n: nat) returns (b: seq<Byte>)
      requires RingValid() && n <= qLen
      modifies this`qTail, this`qLen
      ensures RingValid() && qLen == old(qLen) - n && |b| == n
      ensures old(Contents(queue[..], qTail, qLen)) == b + Contents(queue[..], qTail, qLen)
    {
      hide Contents;
      ghost var before := Contents(queue[..], qTail, qLen);
      b := [];
      for i := 0 to n
        invariant RingValid() && qLen == old(qLen) - i && |b| == i
        invariant before == b + Contents(queue[..], qTail, qLen)
      {
        var v := QueueGet();
        b := b + [v];
      }
    }

    /** A record's bytes are in the queue: it is accepted. */
    ghost method Accepted(r: Record, before: seq<Byte>)
      requires RingValid() && AllFormed(records) && WellFormed(r) && before == EncodeAll(records)
      requires Contents(queue[..], qTail, qLen) == before + Encode(r)
      requires |po| <= PO_BYTES && (if po == [] then poPtr == 0 else poPtr < |po|)
      requires preambleLeft <= PREAMBLE_BYTES && sent + Pending() == stream
      modifies this`records, this`stream
      ensures Valid() && records == old(records) + [r] && stream == old(stream) + Expand(r)
    {
      hide Contents, Expand, Encode;
      EncodeSnoc(records, r);
      ExpandSnoc(records, r);
      records := records + [r];
      stream := stream + Expand(r);
    }

    /** Queue a header; the first one of a transmission, on an idle queue, brings the preamble. */
    method TxHeader(h: seq<Byte>) returns (ok: bool)
      requires Valid() && |h| == HEADER_BYTES
      modifies this, queue
      ensures Valid() && sent == old(sent)
      ensures ok == (1 + HEADER_BYTES <= BUF_BYTES - old(qLen) - 1)
      ensures stream == old(stream) + (if old(firstHeader && Idle()) then Repeat(PREAMBLE_BYTES) else []) +
                        (if ok then Expand(Header(h)) else [])
      ensures firstHeader == (old(firstHeader) && !old(Idle()))
      ensures !ok ==> records == old(records) && Pending() == old(Pending())
    {
      hide Contents, Expand, EncodeAll, ExpandAll;
      ghost var before := EncodeAll(records);
      if qLen == 0 && po == [] && firstHeader {
        NoneQueued();
        preambleLeft := PREAMBLE_BYTES;
        firstHeader := false;
        stream := stream + Repeat(PREAMBLE_BYTES);
        NoneExpanded(records);
        assert Repeat(0) == [];
      }
      ok := QueuePut([TYPE_HEADER] + h);
      if ok {
        Accepted(Header(h), before);
      }
    }

    /** The queue and the output buffer are empty. */
    ghost predicate Idle()
      reads this
    {
      qLen == 0 && po == []
    }

    lemma NoneQueued()
      requires Valid() && qLen == 0
      ensures records == [] && preambleLeft == 0
    {
      EncodeNone(records);
    }

    method TxFrame(f: seq<Byte>) returns (ok: bool)
      requires Valid() && |f| == FRAME_BYTES
      modifies this, queue
      ensures Valid() && sent == old(sent) && firstHeader == old(firstHeader)
      ensures ok == (FRAME_BYTES + 1 <= BUF_BYTES - old(qLen) - 1)
      ensures stream == old(stream) + if ok then Expand(Frame(f)) else []
    {
      hide Contents, Expand, EncodeAll, ExpandAll;
      if BUF_BYTES - qLen - 1 < FRAME_BYTES + 1 {
        return false;
      }
      ghost var before := EncodeAll(records);
      var put := QueuePut([TYPE_DATA]);
      put := QueuePut(f);
      assert before + [TYPE_DATA] + f == before + ([TYPE_DATA] + f);
      Accepted(Frame(f), before);
      return true;
    }

    method TxEot() returns (ok: bool)
      requires Valid()
      modifies this, queue
      ensures Valid() && sent == old(sent) && firstHeader == old(firstHeader)
      ensures ok == (1 + 3 * END_SYNC_BYTES <= BUF_BYTES - old(qLen) - 1)
      ensures stream == old(stream) + if ok then Expand(Eot) else []
    {
      hide Contents, Expand, EncodeAll, ExpandAll;
      if BUF_BYTES - qLen - 1 < 1 + 3 * END_SYNC_BYTES {
        return false;
      }
      ghost var before := EncodeAll(records);
      var put := QueuePut([TYPE_EOT]);
      put := QueuePut(END_SYNC + END_SYNC + END_SYNC);
      assert before + [TYPE_EOT] + (END_SYNC + END_SYNC + END_SYNC) ==
             before + ([TYPE_EOT] + END_SYNC + END_SYNC + END_SYNC);
      Accepted(Eot, before);
      return true;
    }

    /** Something is pending exactly while not all that was accepted has gone out. */
    method IsPending() returns (pending: bool)
      requires Valid()
      ensures pending <==> Pending() != []
      ensures pending <==> sent != stream
    {
      pending := qLen > 0 || po != [];
      EncodeNone(records);
      assert Pending() == [] ==> sent + Pending() == sent;
      assert |sent + Pending()| == |sent| + |Pending()|;
    }

    /** Fill the output buffer when it is empty: the preamble, or the next record. Nothing is lost
        or added, and the buffer stays empty only when nothing is pending. */
    method Refill()
      requires Valid()
      modifies this
      ensures Valid() && sent == old(sent) && stream == old(stream) && firstHeader == old(firstHeader)
      ensures Pending() == old(Pending())
      ensures po == [] <==> Pending() == []
    {
      EncodeNone(records);
      if po != [] {
        return;
      }
      if preambleLeft > 0 {
        TakePreamble();
        return;
      }
      if qLen == 0 {
        return;
      }
      TakeRecord();
    }

    method TakePreamble()
      requires Valid() && po == [] && preambleLeft > 0
      modifies this`po, this`poPtr, this`preambleLeft
      ensures Valid() && Pending() == old(Pending()) && po != []
    {
      hide Contents, EncodeAll, ExpandAll;
      ghost var n := preambleLeft;
      while preambleLeft > 0 && |po| < 256
        invariant preambleLeft + |po| == n && po == Repeat(|po|) && poPtr == 0
        decreases preambleLeft
      {
        po := po + [PREAMBLE];
        preambleLeft := preambleLeft - 1;
      }
      poPtr := 0;
      assert po[0..] == po;
      assert Repeat(n) == po + Repeat(0);
    }

    /** The record at the head of the queue is read back whole and expanded. */
    method TakeRecord()
      requires Valid() && po == [] && preambleLeft == 0 && records != []
      modifies this`po, this`poPtr, this`qTail, this`qLen, this`records
      ensures Valid() && Pending() == old(Pending()) && po != []
    {
      ghost var r, rest := records[0], records[1..];
      Head(records);
      hide Contents, EncodeAll, ExpandAll, Expand, Encode, Repeat;
      assert po[poPtr..] == [];
      ghost var before := Pending();
      assert before == [] + Repeat(0) + (Expand(r) + ExpandAll(rest));
      Regroup(Expand(r), Repeat(0), ExpandAll(rest));
      var out := ReadRecord(r, EncodeAll(rest));
      po := out;
      poPtr := 0;
      records := rest;
      assert Pending() == before;
    }

    method ReadRecord(ghost r: Record, ghost rest: seq<Byte>) returns (out: seq<Byte>)
      requires RingValid() && WellFormed(r) && Contents(queue[..], qTail, qLen) == Encode(r) + rest
      modifies this`qTail, this`qLen
      ensures RingValid() && Contents(queue[..], qTail, qLen) == rest
      ensures out == Expand(r)
    {
      hide Contents, HeaderSection, Chop, Flatten, Tag;
      TagOf(r);
      assert Encode(r) + rest == [Tag(r)] + (Body(r) + rest);
      var kind := QueueGet();
      SamePrefix([kind], [Tag(r)], Contents(queue[..], qTail, qLen), Body(r) + rest);
      assert [kind][0] == [Tag(r)][0];
      if kind == TYPE_HEADER {
        var header := Take(HEADER_BYTES);
        SamePrefix(header, Body(r), Contents(queue[..], qTail, qLen), rest);
        var coded := HeaderFec(Flatten(header));
        out := [SYNC0, SYNC1] + Chop(coded);
      } else if kind == TYPE_DATA {
        out := Take(FRAME_BYTES);
        SamePrefix(out, Body(r), Contents(queue[..], qTail, qLen), rest);
      } else {
        out := Take(3 * END_SYNC_BYTES);
        SamePrefix(out, Body(r), Contents(queue[..], qTail, qLen), rest);
      }
    }

    /** Modulate: 40 samples for each byte, as many bytes as fit and are pending, in order. */
    method Generate(n: nat) returns (written: nat)
      requires Valid()
      modifies this
      ensures Valid() && stream == old(stream) && firstHeader == old(firstHeader)
      ensures written % 40 == 0 && written <= n
      ensures written / 40 == if n / 40 < |old(Pending())| then n / 40 else |old(Pending())|
      ensures sent == old(sent) + old(Pending())[..written / 40]
      ensures Pending() == old(Pending())[written / 40..]
    {
      hide Contents, EncodeAll, ExpandAll;
      ghost var before, k := Pending(), 0;
      written := 0;
      while written + 40 <= n
        invariant Valid() && stream == old(stream) && firstHeader == old(firstHeader)
        invariant written == 40 * k && written <= n && k <= |before|
        invariant sent == old(sent) + before[..k] && Pending() == before[k..]
      {
        Refill();
        if po == [] {
          break;
        }
        assert k < |before|;
        SliceStep(before, k, old(sent));
        EmitByte();
        written := written + 40;
        k := k + 1;
      }
    }

    method EmitByte()
      requires Valid() && po != []
      modifies this`po, this`poPtr, this`sent
      ensures Valid() && old(Pending()) != []
      ensures sent == old(sent) + [old(Pending())[0]] && Pending() == old(Pending())[1..]
    {
      hide Contents, EncodeAll, ExpandAll, Repeat;
      var c := po[poPtr];
      ghost var before, stay := Pending(), Repeat(preambleLeft) + ExpandAll(records);
      ghost var left := po[poPtr + 1..];
      NextByte(po[poPtr..], left, c, Repeat(preambleLeft), ExpandAll(records), sent);
      sent := sent + [c];
      poPtr := poPtr + 1;
      if poPtr >= |po| {
        poPtr := 0;
        po := [];
        assert po[poPtr..] == left;
      }
    }
  }

  lemma SliceStep(x: seq<Byte>, k: nat, sent: seq<Byte>)
    requires k < |x|
    ensures x[k..][0] == x[k] && x[k..][1..] == x[k + 1..]
    ensures sent + x[..k] + [x[k]] == sent + x[..k + 1]
  {
  }

  lemma NextByte(p: seq<Byte>, left: seq<Byte>, c: Byte, a: seq<Byte>, b: seq<Byte>, sent: seq<Byte>)
    requires p != [] && p[0] == c && p[1..] == left
    ensures p + a + b != [] && (p + a + b)[0] == c && (p + a + b)[1..] == left + a + b
    ensures sent + (p + a + b) == sent + [c] + (left + a + b)
  {
    assert p == [c] + left;
    assert p + a + b == [c] + (left + a + b);
  }

  lemma Regroup(p: seq<Byte>, none: seq<Byte>, rest: seq<Byte>)
    requires none == []
    ensures [] + none + (p + rest) == p[0..] + none + rest
  {
  }

  lemma EncodeNone(rs: seq<Record>)
    requires AllFormed(rs)
    ensures EncodeAll(rs) == [] <==> rs == []
    ensures ExpandAll(rs) == [] <==> rs == []
  {
  }

  lemma Head(rs: seq<Record>)
    requires rs != [] && AllFormed(rs)
    ensures AllFormed(rs[1..])
    ensures EncodeAll(rs) == Encode(rs[0]) + EncodeAll(rs[1..]) && ExpandAll(rs) == Expand(rs[0]) + ExpandAll(rs[1..])
  {
  }

  lemma SamePrefix(a: seq<Byte>, b: seq<Byte>, c: seq<Byte>, d: seq<Byte>)
    requires a + c == b + d && |a| == |b|
    ensures a == b && c == d
  {
    assert a == (a + c)[..|a|] && b == (b + d)[..|b|];
    assert c == (a + c)[|a|..] && d == (b + d)[|b|..];
  }

  lemma NoneExpanded(rs: seq<Record>)
    requires rs == []
    ensures AllFormed(rs) && ExpandAll(rs) == []
  {
  }
}
