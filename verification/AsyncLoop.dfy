/** The file loop: one thread reads a file over and over into a ring, the real-time side takes bytes
    out and never waits. A state machine over the single steps of the two, an atomic access or the copy
    of one byte each. A byte is known by where it comes from: the how manieth opening of the file,
    and the how manieth byte read from it. */
module AsyncLoop {

  const CHUNK := 65536

  datatype Cell = Cell(gen: nat, idx: nat)

  /** Where the loop thread is. */
  datatype Loop =
    | Closed                                 // no file
    | Hiding                                 // file closed and active cleared, flush not yet set
    | Filling                                // file open, about to look for room
    | Read(n: nat)                           // n bytes read from the file
    | Putting(n: nat, k: nat, j: nat)        // j of k bytes copied into the ring, n read
    | Filled                                 // no room: about to set active
    | Resting

  /** Where the reader is. */
  datatype Reader =
    | Ready
    | FlushClear(n: nat)                     // reading n bytes: flush was not set
    | ActiveSeen(n: nat)
    | Enough(n: nat)                         // n bytes are queued
    | Getting(n: nat, k: nat, out: seq<Cell>)
    | FlushSeen
    | Dropping(h: nat)                       // about to set tail to h
    | Dropped                                // about to clear flush

  datatype State = State(buf: seq<Cell>, head: nat, tail: nat, active: bool, flush: bool, loop: Loop, reader: Reader,
                         gen: nat, idx: nat, got: seq<Cell>)

  datatype Action =
    | Open | Look | ReadFile(n: nat) | BeginPut | PutByte | EndPut | Activate | Again | Close | Fail | SetFlush
    | CallRead(n: nat) | CallIdle | LookActive | LookUsed | BeginGet | GetByte | EndGet | LoadHead | StoreTail | ClearFlush

  function Init(cap: nat): State {
    State(seq(cap, _ => Cell(0, 0)), 0, 0, false, false, Closed, Ready, 0, 0, [])
  }

  function Min(a: nat, b: nat): nat {
    if a <= b then a else b
  }

  predicate Enabled(s: State, a: Action) {
    match a
    case Open => s.loop.Closed? && !s.flush
    case Look => s.loop.Filling?
    case ReadFile(n) => s.loop == Read(0) && 0 < n <= CHUNK
    case BeginPut => s.loop.Read? && s.loop.n > 0
    case PutByte => s.loop.Putting? && s.loop.j < s.loop.k
    case EndPut => s.loop.Putting? && s.loop.j == s.loop.k
    case Activate => s.loop.Filled?
    case Again => s.loop.Resting?
    case Close => s.loop.Resting?
    case Fail => s.loop == Read(0)
    case SetFlush => s.loop.Hiding?
    case CallRead(_) => s.reader.Ready?
    case CallIdle => s.reader.Ready?
    case LookActive => s.reader.FlushClear?
    case LookUsed => s.reader.ActiveSeen?
    case BeginGet => s.reader.Enough?
    case GetByte => s.reader.Getting? && |s.reader.out| < s.reader.k
    case EndGet => s.reader.Getting? && |s.reader.out| == s.reader.k
    case LoadHead => s.reader.FlushSeen?
    case StoreTail => s.reader.Dropping?
    case ClearFlush => s.reader.Dropped?
  }

  /** The counters and the ring are in order. */
  ghost predicate Ring(s: State, cap: nat) {
    && |s.buf| == cap >= 2 * CHUNK && s.tail <= s.head <= s.tail + cap
  }

  function Used(s: State): nat {
    if s.tail <= s.head then s.head - s.tail else 0
  }

  function Room(s: State, cap: nat): nat {
    if Used(s) <= cap then cap - Used(s) else 0
  }

  function Do(s: State, a: Action, cap: nat): (t: State)
    requires Enabled(s, a) && |s.buf| == cap > 0
    ensures |t.buf| == cap
  {
    match a
    case Open => s.(loop := Filling, gen := s.gen + 1, idx := 0)
    case Look => s.(loop := if Room(s, cap) >= CHUNK then Read(0) else Filled)
    case ReadFile(n) => s.(loop := Read(n))
    case BeginPut => s.(loop := Putting(s.loop.n, Min(s.loop.n, Room(s, cap)), 0))
    case PutByte =>
      var j := s.loop.j;
      s.(buf := s.buf[(s.head + j) % cap := Cell(s.gen, s.idx + j)], loop := s.loop.(j := j + 1))
    case EndPut => s.(head := s.head + s.loop.k, idx := s.idx + s.loop.n, loop := Filling)
    case Activate => s.(active := true, loop := Resting)
    case Again => s.(loop := Filling)
    case Close => s.(active := false, loop := Hiding)
    case Fail => s.(active := false, loop := Hiding)
    case SetFlush => s.(flush := true, loop := Closed)
    case CallRead(n) => s.(reader := if s.flush then FlushSeen else FlushClear(n))
    case CallIdle => s.(reader := if s.flush then FlushSeen else Ready)
    case LookActive => s.(reader := if s.active then ActiveSeen(s.reader.n) else Ready)
    case LookUsed => s.(reader := if Used(s) < s.reader.n then Ready else Enough(s.reader.n))
    case BeginGet => s.(reader := Getting(s.reader.n, Min(s.reader.n, Used(s)), []))
    case GetByte =>
      var out := s.reader.out;
      s.(reader := s.reader.(out := out + [s.buf[(s.tail + |out|) % cap]]))
    case EndGet => s.(tail := s.tail + s.reader.k, got := s.got + s.reader.out, reader := Ready)
    case LoadHead => s.(reader := Dropping(s.head))
    case StoreTail => s.(tail := s.reader.h, reader := Dropped)
    case ClearFlush => s.(flush := false, reader := Ready)
  }

  // ---- the invariant

  /** Byte p of all put into the ring is in its place: the one so many before the next of its file. */
  predicate Holds(s: State, cap: nat, p: nat)
    requires |s.buf| == cap > 0
  {
    s.head <= s.idx + p && s.buf[p % cap] == Cell(s.gen, s.idx + p - s.head)
  }

  /** The place in the file of the next byte to be taken. */
  function NextIdx(s: State): int {
    s.idx - (s.head - s.tail)
  }

  ghost predicate LoopInv(s: State, cap: nat)
    requires Ring(s, cap)
  {
    match s.loop
    case Read(n) => n <= CHUNK <= cap - (s.head - s.tail)
    case Putting(n, k, j) =>
      && j <= k == n && s.head + k <= s.tail + cap
      && forall i :: s.head <= i < s.head + j ==> Holds(s, cap, i)
    case Closed => s.flush || s.head == s.tail
    case _ => true
  }

  ghost predicate ReaderInv(s: State) {
    match s.reader
    case Enough(n) => n <= s.head - s.tail
    case Getting(n, k, out) =>
      && |out| <= k == n <= s.head - s.tail && (n > 0 ==> NextIdx(s) >= 0)
      && forall i :: 0 <= i < |out| ==> out[i] == Cell(s.gen, NextIdx(s) + i)
    case FlushSeen => s.flush
    case Dropping(h) => s.flush && h == s.head
    case Dropped => s.flush && s.head == s.tail
    case _ => true
  }

  /** y may come right after x: the next byte of the same opening, or the first of a later one. */
  predicate Follows(x: Cell, y: Cell) {
    (y.gen == x.gen && y.idx == x.idx + 1) || (y.gen > x.gen && y.idx == 0)
  }

  /** Openings never go back, and of each that is heard no byte is skipped or repeated from its first. */
  ghost predicate Orderly(got: seq<Cell>) {
    && (got != [] ==> got[0].idx == 0)
    && forall i, j :: 0 <= i && j == i + 1 < |got| ==> Follows(got[i], got[j])
  }

  /** The next byte to be taken, of opening gen and at place idx, may come after got. */
  predicate MayFollow(got: seq<Cell>, gen: nat, idx: int) {
    if got == [] then idx == 0
    else
      var x := got[|got| - 1];
      if x.gen == gen then idx == x.idx + 1 else idx == 0
  }

  ghost predicate Inv(s: State, cap: nat) {
    && Ring(s, cap) && LoopInv(s, cap) && ReaderInv(s)
    && (forall p :: s.tail <= p < s.head ==> Holds(s, cap, p))
    && (s.flush ==> s.loop.Closed?)
    && Orderly(s.got) && (s.got != [] ==> s.got[|s.got| - 1].gen <= s.gen)
    && ((s.loop.Closed? && s.head == s.tail) || MayFollow(s.got, s.gen, NextIdx(s)))
  }

  /** Two places less than the ring apart are different places in it. */
  lemma Apart(p: nat, q: nat, cap: nat)
    requires cap > 0 && p < q < p + cap
    ensures p % cap != q % cap
  {
    if p % cap == q % cap {
      var a, b := p / cap, q / cap;
      assert p == a * cap + p % cap && q == b * cap + q % cap;
      assert q - p == (b - a) * cap;
      Multiples(b - a, cap);
    }
  }

  lemma Multiples(m: int, cap: nat)
    requires cap > 0
    ensures m >= 1 ==> m * cap >= cap
    ensures m <= 0 ==> m * cap <= 0
  {
  }

  lemma InitInv(cap: nat)
    requires cap >= 2 * CHUNK
    ensures Inv(Init(cap), cap)
  {
  }

  predicate LoopAction(a: Action) {
    a.Open? || a.Look? || a.ReadFile? || a.BeginPut? || a.PutByte? || a.EndPut? || a.Activate? || a.Again? || a.Close?
    || a.Fail? || a.SetFlush?
  }

  lemma PutByteInv(s: State, cap: nat)
    requires Inv(s, cap) && Enabled(s, PutByte)
    ensures Inv(Do(s, PutByte, cap), cap)
  {
    hide Orderly, MayFollow;
    var t := Do(s, PutByte, cap);
    var j := s.loop.j;
    forall p | s.tail <= p < s.head + j
      ensures Holds(t, cap, p)
    {
      assert Holds(s, cap, p);
      Apart(p, s.head + j, cap);
    }
    assert Holds(t, cap, s.head + j);
  }

  lemma EndPutInv(s: State, cap: nat)
    requires Inv(s, cap) && Enabled(s, EndPut)
    ensures Inv(Do(s, EndPut, cap), cap)
  {
    hide Orderly, MayFollow;
    var t := Do(s, EndPut, cap);
    forall p | t.tail <= p < t.head
      ensures Holds(t, cap, p)
    {
      assert Holds(s, cap, p);
    }
  }

  lemma LoopStep(s: State, a: Action, cap: nat)
    requires Inv(s, cap) && Enabled(s, a) && LoopAction(a) && !a.PutByte? && !a.EndPut?
    ensures Inv(Do(s, a, cap), cap)
  {
    hide Orderly;
    var t := Do(s, a, cap);
    forall p | t.tail <= p < t.head
      ensures Holds(t, cap, p)
    {
      assert Holds(s, cap, p);
    }
  }

  lemma ReaderStep(s: State, a: Action, cap: nat)
    requires Inv(s, cap) && Enabled(s, a) && !LoopAction(a) && !a.GetByte? && !a.EndGet?
    ensures Inv(Do(s, a, cap), cap)
  {
    hide Orderly;
    var t := Do(s, a, cap);
    assert s.tail < s.head ==> Holds(s, cap, s.tail);
    forall p | Holds(s, cap, p)
      ensures Holds(t, cap, p)
    {
    }
  }

  lemma GetByteInv(s: State, cap: nat)
    requires Inv(s, cap) && Enabled(s, GetByte)
    ensures Inv(Do(s, GetByte, cap), cap)
  {
    hide Orderly, MayFollow;
    var t := Do(s, GetByte, cap);
    var m := s.tail + |s.reader.out|;
    assert Holds(s, cap, m);
    forall p | t.tail <= p < t.head
      ensures Holds(t, cap, p)
    {
      assert Holds(s, cap, p);
    }
    if t.loop.Putting? {
      forall p | t.head <= p < t.head + t.loop.j
        ensures Holds(t, cap, p)
      {
        assert Holds(s, cap, p);
      }
    }
  }

  lemma EndGetInv(s: State, cap: nat)
    requires Inv(s, cap) && Enabled(s, EndGet)
    ensures Inv(Do(s, EndGet, cap), cap)
  {
    hide Orderly, MayFollow, Holds, Follows;
    var t := Do(s, EndGet, cap);
    SameHolds(s, t, cap);
    if s.loop.Closed? && s.head == s.tail {
      assert s.reader.out == [] && t.got == s.got;
    } else {
      Delivered(s.got, s.reader.out, s.gen, NextIdx(s));
      LastGen(s.got, s.reader.out, s.gen, NextIdx(s));
    }
  }

  lemma SameHolds(s: State, t: State, cap: nat)
    requires |s.buf| == cap > 0 && t.buf == s.buf && t.head == s.head && t.idx == s.idx && t.gen == s.gen
    ensures forall p: nat :: Holds(t, cap, p) == Holds(s, cap, p)
  {
  }

  /** Bytes that follow on what was taken leave it in order. */
  lemma Delivered(got: seq<Cell>, out: seq<Cell>, gen: nat, at: int)
    requires Orderly(got) && MayFollow(got, gen, at) && (got != [] ==> got[|got| - 1].gen <= gen)
    requires out != [] ==> at >= 0
    requires forall i :: 0 <= i < |out| ==> out[i] == Cell(gen, at + i)
    ensures Orderly(got + out) && MayFollow(got + out, gen, at + |out|)
  {
    var all := got + out;
    forall i, j | 0 <= i && j == i + 1 < |all|
      ensures Follows(all[i], all[j])
    {
      if j < |got| {
        assert Follows(got[i], got[j]);
      }
    }
  }

  lemma LastGen(got: seq<Cell>, out: seq<Cell>, gen: nat, at: int)
    requires (out != [] ==> at >= 0) && forall i :: 0 <= i < |out| ==> out[i] == Cell(gen, at + i)
    requires got != [] ==> got[|got| - 1].gen <= gen
    ensures got + out != [] ==> (got + out)[|got + out| - 1].gen <= gen
  {
  }

  lemma InvStep(s: State, a: Action, cap: nat)
    requires Inv(s, cap) && Enabled(s, a)
    ensures Inv(Do(s, a, cap), cap)
  {
    hide LoopInv, ReaderInv, Orderly, MayFollow, Holds, Do, Enabled;
    if a.PutByte? {
      PutByteInv(s, cap);
    } else if a.EndPut? {
      EndPutInv(s, cap);
    } else if a.GetByte? {
      GetByteInv(s, cap);
    } else if a.EndGet? {
      EndGetInv(s, cap);
    } else if LoopAction(a) {
      LoopStep(s, a, cap);
    } else {
      ReaderStep(s, a, cap);
    }
  }

  // ---- whole runs

  /** The state after a run of steps, in any order the two threads take them. */
  ghost predicate Run(ss: seq<State>, acts: seq<Action>, cap: nat) {
    && |ss| == |acts| + 1 && ss[0] == Init(cap) && cap >= 2 * CHUNK
    && forall i :: 0 <= i < |acts| ==> Enabled(ss[i], acts[i]) && |ss[i].buf| == cap && ss[i + 1] == Do(ss[i], acts[i], cap)
  }

  lemma {:induction false} RunInv(ss: seq<State>, acts: seq<Action>, cap: nat, i: nat)
    requires Run(ss, acts, cap) && i < |ss|
    ensures Inv(ss[i], cap)
  {
    hide Inv, Do, Enabled;
    if i == 0 {
      InitInv(cap);
    } else {
      RunInv(ss, acts, cap, i - 1);
      InvStep(ss[i - 1], acts[i - 1], cap);
    }
  }

  /** In every run a byte put into the ring takes no place of one not yet taken out, and a chunk read
      from the file always fits. */
  lemma NeverOverwrites(ss: seq<State>, acts: seq<Action>, cap: nat, i: nat, p: nat)
    requires Run(ss, acts, cap) && i < |acts| && acts[i].PutByte?
    requires ss[i].tail <= p < ss[i].head
    ensures ss[i].loop.k == ss[i].loop.n
    ensures p % cap != (ss[i].head + ss[i].loop.j) % cap
    ensures ss[i + 1].buf[p % cap] == ss[i].buf[p % cap]
  {
    RunInv(ss, acts, cap, i);
    Apart(p, ss[i].head + ss[i].loop.j, cap);
  }

  /** Each read that succeeds returns as many bytes as it asked for, consecutive and of one opening. */
  lemma ReadsConsecutive(ss: seq<State>, acts: seq<Action>, cap: nat, i: nat, j: nat)
    requires Run(ss, acts, cap) && i < |acts| && acts[i].EndGet? && j < |ss[i].reader.out|
    ensures var out := ss[i].reader.out;
      |out| == ss[i].reader.n && out[j] == Cell(out[0].gen, out[0].idx + j)
      && ss[i + 1].got == ss[i].got + out
  {
    RunInv(ss, acts, cap, i);
  }

  /** All bytes ever returned, in order: the openings never go back, and each that is heard is heard
      from its first byte, none skipped or repeated. */
  lemma ReadsInOrder(ss: seq<State>, acts: seq<Action>, cap: nat, i: nat)
    requires Run(ss, acts, cap) && i < |ss|
    ensures Orderly(ss[i].got)
  {
    hide LoopInv, ReaderInv, Orderly, Holds, Do, Enabled;
    RunInv(ss, acts, cap, i);
  }

  /** An opening is heard from its first byte on: of the bytes returned of it, the one at place k has
      the k before it right before it. */
  lemma {:induction false} HeardFromTheFirst(got: seq<Cell>, i: nat)
    requires Orderly(got) && i < |got|
    ensures got[i].idx <= i
    ensures forall m :: i - got[i].idx <= m <= i ==> got[m] == Cell(got[i].gen, got[i].idx - (i - m))
  {
    if i > 0 {
      assert Follows(got[i - 1], got[i]);
      HeardFromTheFirst(got, i - 1);
    }
  }

  // ---- exactly when a read succeeds

  /** A call of read(n), from its start to its return. */
  ghost predicate ReadCall(ss: seq<State>, acts: seq<Action>, c: nat, m: nat, n: nat) {
    && |ss| == |acts| + 1 && c < m < |ss| && acts[c] == CallRead(n) && ss[m].reader.Ready?
    && forall k :: c < k < m ==> !ss[k].reader.Ready?
  }

  /** In it the loop was seen active. */
  ghost predicate SawActive(ss: seq<State>, acts: seq<Action>, c: nat, m: nat)
    requires |ss| == |acts| + 1 && m < |ss|
  {
    exists k :: c < k < m && acts[k] == LookActive && ss[k].active
  }

  /** In it at least n bytes were counted in the ring. */
  ghost predicate SawEnough(ss: seq<State>, acts: seq<Action>, c: nat, m: nat, n: nat)
    requires |ss| == |acts| + 1 && m < |ss|
  {
    exists k :: c < k < m && acts[k] == LookUsed && ss[k].head - ss[k].tail >= n
  }

  lemma SawNext(ss: seq<State>, acts: seq<Action>, c: nat, m: nat, n: nat)
    requires |ss| == |acts| + 1 && c < m < |acts|
    ensures SawActive(ss, acts, c, m + 1) <==> SawActive(ss, acts, c, m) || (acts[m] == LookActive && ss[m].active)
    ensures SawEnough(ss, acts, c, m + 1, n) <==>
      SawEnough(ss, acts, c, m, n) || (acts[m] == LookUsed && ss[m].head - ss[m].tail >= n)
  {
  }

  /** Where a call of read(n) is: what it has seen so far, and that it has taken nothing yet. */
  ghost predicate Stage(r: Reader, n: nat, flush: bool, active: bool, enough: bool) {
    match r
    case Ready => false
    case FlushClear(x) => x == n && !flush && !active && !enough
    case ActiveSeen(x) => x == n && !flush && active && !enough
    case Enough(x) => x == n && !flush && active && enough
    case Getting(x, _, _) => x == n && !flush && active && enough
    case _ => flush
  }

  lemma StageStep(s: State, a: Action, cap: nat, n: nat, flush: bool, active: bool, enough: bool)
    requires Inv(s, cap) && Enabled(s, a) && Stage(s.reader, n, flush, active, enough)
    ensures var t := Do(s, a, cap);
      var more, plenty := active || (a == LookActive && s.active), enough || (a == LookUsed && s.head - s.tail >= n);
      && (!t.reader.Ready? ==> Stage(t.reader, n, flush, more, plenty) && t.got == s.got)
      && (t.reader.Ready? && a == EndGet ==>
            !flush && more && plenty && |s.reader.out| == n && t.got == s.got + s.reader.out)
      && (t.reader.Ready? && a != EndGet ==> !(!flush && more && plenty) && t.got == s.got)
      && (t.reader.Ready? && flush ==> !t.flush && t.head == t.tail)
  {
    hide Holds, Orderly, MayFollow;
  }

  lemma {:induction false} CallStage(ss: seq<State>, acts: seq<Action>, cap: nat, c: nat, m: nat, n: nat)
    requires Run(ss, acts, cap) && c < m < |ss| && acts[c] == CallRead(n)
    requires forall k :: c < k <= m ==> !ss[k].reader.Ready?
    ensures Stage(ss[m].reader, n, ss[c].flush, SawActive(ss, acts, c, m), SawEnough(ss, acts, c, m, n))
    ensures ss[m].got == ss[c].got
  {
    hide Inv, Enabled, SawActive, SawEnough;
    if m == c + 1 {
      assert ss[m] == Do(ss[c], acts[c], cap);
      NothingSeen(ss, acts, c, n);
    } else {
      hide Do, Stage;
      CallStage(ss, acts, cap, c, m - 1, n);
      SawNext(ss, acts, c, m - 1, n);
      RunInv(ss, acts, cap, m - 1);
      StageStep(ss[m - 1], acts[m - 1], cap, n, ss[c].flush, SawActive(ss, acts, c, m - 1), SawEnough(ss, acts, c, m - 1, n));
    }
  }

  lemma NothingSeen(ss: seq<State>, acts: seq<Action>, c: nat, n: nat)
    requires |ss| == |acts| + 1 && c + 1 < |ss|
    ensures !SawActive(ss, acts, c, c + 1) && !SawEnough(ss, acts, c, c + 1, n)
  {
  }

  /** In every run a read of n bytes succeeds if and only if flush was clear when it looked, the loop was seen
      active and n bytes were counted. Then it returns n bytes, otherwise none; and one that found flush
      set leaves the ring empty and flush clear. */
  lemma ReadExactly(ss: seq<State>, acts: seq<Action>, cap: nat, c: nat, m: nat, n: nat)
    requires Run(ss, acts, cap) && ReadCall(ss, acts, c, m, n)
    ensures acts[m - 1] == EndGet <==> !ss[c].flush && SawActive(ss, acts, c, m) && SawEnough(ss, acts, c, m, n)
    ensures acts[m - 1] == EndGet ==> ss[c].got <= ss[m].got && |ss[m].got| == |ss[c].got| + n
    ensures acts[m - 1] != EndGet ==> ss[m].got == ss[c].got
    ensures ss[c].flush ==> !ss[m].flush && ss[m].head == ss[m].tail
  {
    hide Inv, Enabled, SawActive, SawEnough;
    assert ss[c + 1] == Do(ss[c], acts[c], cap);
    hide Do, Stage;
    CallStage(ss, acts, cap, c, m - 1, n);
    SawNext(ss, acts, c, m - 1, n);
    RunInv(ss, acts, cap, m - 1);
    StageStep(ss[m - 1], acts[m - 1], cap, n, ss[c].flush, SawActive(ss, acts, c, m - 1), SawEnough(ss, acts, c, m - 1, n));
  }

  // ---- when the loop is active

  /** The loop thread became active, and neither closed the file nor failed to read it since. */
  ghost predicate Activated(acts: seq<Action>, i: nat)
    requires i <= |acts|
  {
    exists k :: 0 <= k < i && acts[k] == Activate && forall j :: k < j < i ==> acts[j] != Close && acts[j] != Fail
  }

  lemma ActivatedNext(acts: seq<Action>, i: nat)
    requires i < |acts|
    ensures Activated(acts, i + 1) <==> acts[i] == Activate || (Activated(acts, i) && acts[i] != Close && acts[i] != Fail)
  {
    if Activated(acts, i) && acts[i] != Close && acts[i] != Fail {
      var k :| 0 <= k < i && acts[k] == Activate && forall j :: k < j < i ==> acts[j] != Close && acts[j] != Fail;
      assert acts[k] == Activate && forall j :: k < j < i + 1 ==> acts[j] != Close && acts[j] != Fail;
    }
  }

  /** In every run the reader finds the loop active exactly from when the ring was first full on until the file goes,
      and the file is open then. */
  lemma {:induction false} ActiveExactly(ss: seq<State>, acts: seq<Action>, cap: nat, i: nat)
    requires Run(ss, acts, cap) && i < |ss|
    ensures ss[i].active <==> Activated(acts, i)
    ensures ss[i].active ==> !ss[i].loop.Closed? && !ss[i].loop.Hiding?
  {
    if i > 0 {
      hide Activated, Do;
      ActiveExactly(ss, acts, cap, i - 1);
      ActivatedNext(acts, i - 1);
      ActiveStep(ss[i - 1], acts[i - 1], cap);
    }
  }

  lemma ActiveStep(s: State, a: Action, cap: nat)
    requires Enabled(s, a) && |s.buf| == cap > 0 && (s.active ==> !s.loop.Closed? && !s.loop.Hiding?)
    ensures var t := Do(s, a, cap);
      && (t.active <==> a == Activate || (s.active && a != Close && a != Fail))
      && (t.active ==> !t.loop.Closed? && !t.loop.Hiding?)
  {
  }

  // ---- and that one can

  /** The steps of a run, from any state. */
  ghost predicate Path(ss: seq<State>, acts: seq<Action>, cap: nat) {
    && |ss| == |acts| + 1 && cap > 0
    && forall i :: 0 <= i < |acts| ==> Enabled(ss[i], acts[i]) && |ss[i].buf| == cap && ss[i + 1] == Do(ss[i], acts[i], cap)
  }

  /** The file is open, or can be opened: nothing is left to discard. */
  predicate CanFill(s: State) {
    !s.loop.Hiding? && !s.flush
  }

  predicate Full(s: State, cap: nat) {
    s.loop.Resting? && s.active && Room(s, cap) < CHUNK
  }

  /** The loop thread's next step, each read of the file giving a chunk. */
  function NextFill(s: State): Action
    requires CanFill(s)
  {
    match s.loop
    case Closed => Open
    case Hiding => SetFlush
    case Filling => Look
    case Read(n) => if n == 0 then ReadFile(CHUNK) else BeginPut
    case Putting(_, k, j) => if j < k then PutByte else EndPut
    case Filled => Activate
    case Resting => Again
  }

  function LoopRank(s: State, cap: nat): nat {
    match s.loop
    case Closed => 8
    case Hiding => 8
    case Resting => if s.active && Room(s, cap) < CHUNK then 0 else 7
    case Read(n) => if n == 0 then 2 else 6
    case Putting(_, _, _) => 5
    case Filling => 3
    case Filled => if Room(s, cap) < CHUNK then 1 else 8
  }

  /** The room that is left when what was read from the file is in the ring. */
  function Left(s: State, cap: nat): nat {
    var r := Room(s, cap);
    match s.loop
    case Read(n) => if n <= r then r - n else 0
    case Putting(_, k, _) => if k <= r then r - k else 0
    case _ => r
  }

  function ToCopy(s: State): nat {
    if s.loop.Putting? && s.loop.j <= s.loop.k then s.loop.k - s.loop.j else 0
  }

  lemma FillStep(s: State, cap: nat)
    requires Inv(s, cap) && CanFill(s) && !Full(s, cap)
    ensures Enabled(s, NextFill(s))
    ensures var t := Do(s, NextFill(s), cap);
      && CanFill(t) && t.reader == s.reader && t.tail == s.tail && t.got == s.got
      && (Left(t, cap) < Left(s, cap) || (Left(t, cap) == Left(s, cap) &&
            (LoopRank(t, cap) < LoopRank(s, cap) || (LoopRank(t, cap) == LoopRank(s, cap) && ToCopy(t) < ToCopy(s)))))
  {
    hide Holds, Orderly, MayFollow;
  }

  /** Left alone, the loop thread fills the ring and becomes active. */
  lemma {:induction false} Fills(s: State, cap: nat) returns (ss: seq<State>, acts: seq<Action>)
    requires Inv(s, cap) && CanFill(s)
    ensures Path(ss, acts, cap) && ss[0] == s
    ensures var t := ss[|acts|]; Full(t, cap) && Inv(t, cap) && !t.flush && t.reader == s.reader && t.got == s.got
    decreases Left(s, cap), LoopRank(s, cap), ToCopy(s)
  {
    if Full(s, cap) {
      ss, acts := [s], [];
    } else {
      hide Inv, Do, Enabled, NextFill, CanFill, Full, Left, LoopRank, ToCopy;
      FillStep(s, cap);
      var t := Do(s, NextFill(s), cap);
      InvStep(s, NextFill(s), cap);
      RingLength(s, cap);
      var more, moreActs := Fills(t, cap);
      ss, acts := Ahead(s, NextFill(s), cap, more, moreActs);
    }
  }

  lemma RingLength(s: State, cap: nat)
    requires Inv(s, cap)
    ensures |s.buf| == cap > 0
  {
  }

  /** A path with one step before it. */
  lemma Ahead(s: State, a: Action, cap: nat, ss: seq<State>, acts: seq<Action>) returns (more: seq<State>, moreActs: seq<Action>)
    requires Path(ss, acts, cap) && Enabled(s, a) && |s.buf| == cap > 0 && ss[0] == Do(s, a, cap)
    ensures more == [s] + ss && moreActs == [a] + acts && Path(more, moreActs, cap)
  {
    hide Do, Enabled;
    more, moreActs := [s] + ss, [a] + acts;
    forall i | 0 <= i < |moreActs|
      ensures Enabled(more[i], moreActs[i]) && |more[i].buf| == cap && more[i + 1] == Do(more[i], moreActs[i], cap)
    {
      if i > 0 {
        assert moreActs[i] == acts[i - 1] && more[i] == ss[i - 1] && more[i + 1] == ss[i];
      }
    }
  }

  /** The bytes are copied out, and the read returns. */
  lemma {:induction false} Gets(s: State, cap: nat) returns (ss: seq<State>, acts: seq<Action>)
    requires |s.buf| == cap > 0 && s.reader.Getting? && |s.reader.out| <= s.reader.k
    ensures Path(ss, acts, cap) && ss[0] == s
    ensures ss[|acts|].reader.Ready? && |ss[|acts|].got| == |s.got| + s.reader.k && s.got <= ss[|acts|].got
    decreases s.reader.k - |s.reader.out|
  {
    if |s.reader.out| == s.reader.k {
      ss, acts := [s, Do(s, EndGet, cap)], [EndGet];
    } else {
      var more, moreActs := Gets(Do(s, GetByte, cap), cap);
      ss, acts := Ahead(s, GetByte, cap, more, moreActs);
    }
  }

  /** A read by itself, with the loop active and n bytes there, returns n bytes. */
  lemma ReadBy(s: State, cap: nat, n: nat) returns (ss: seq<State>, acts: seq<Action>)
    requires |s.buf| == cap > 0 && s.reader.Ready? && s.active && !s.flush && n <= Used(s)
    ensures Path(ss, acts, cap) && ss[0] == s && acts != [] && acts[0] == CallRead(n)
    ensures ss[|acts|].reader.Ready? && |ss[|acts|].got| == |s.got| + n && s.got <= ss[|acts|].got
  {
    var s1 := Do(s, CallRead(n), cap);
    var s2 := Do(s1, LookActive, cap);
    var s3 := Do(s2, LookUsed, cap);
    ss, acts := Gets(Do(s3, BeginGet, cap), cap);
    hide Path;
    ss, acts := Ahead(s3, BeginGet, cap, ss, acts);
    ss, acts := Ahead(s2, LookUsed, cap, ss, acts);
    ss, acts := Ahead(s1, LookActive, cap, ss, acts);
    ss, acts := Ahead(s, CallRead(n), cap, ss, acts);
  }

  /** From any state of a run in which nothing is left to discard, the loop thread left alone fills the ring, and a
      read of up to all but a chunk of it then returns what it asked for. */
  lemma Delivers(ss: seq<State>, acts: seq<Action>, cap: nat, i: nat, n: nat)
    returns (fill: seq<State>, fills: seq<Action>, take: seq<State>, takes: seq<Action>)
    requires Run(ss, acts, cap) && i < |ss| && CanFill(ss[i]) && ss[i].reader.Ready? && n <= cap - CHUNK
    ensures Path(fill, fills, cap) && fill[0] == ss[i] && Full(fill[|fills|], cap)
    ensures Path(take, takes, cap) && take[0] == fill[|fills|] && takes != [] && takes[0] == CallRead(n)
    ensures take[|takes|].reader.Ready? && ss[i].got <= take[|takes|].got && |take[|takes|].got| == |ss[i].got| + n
  {
    hide LoopInv, ReaderInv, Orderly, MayFollow, Holds, Do, Enabled;
    RunInv(ss, acts, cap, i);
    fill, fills := Fills(ss[i], cap);
    take, takes := ReadBy(fill[|fills|], cap, n);
  }
}
