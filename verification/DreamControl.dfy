/** The control of the Dream processes: the DSP thread asks for starts and stops and never waits, the
    control thread starts and stops the processes. A state machine over the single steps of the two,
    an atomic access or a section under the lock each. Processes are numbered as they start. */
module DreamControl {
  import opened VoiceCrypto

  datatype Side = Rx | Tx

  /** One side: its request, its atomic slot and pending flag, and, for the statements below only,
      the stops completed since the last start was asked for. */
  datatype Half = Half(want: bool, gen: nat, slot: Option<nat>, pending: bool, stops: nat)

  /** Where the asking thread is. */
  datatype Asker =
    | Idle
    | StartAsked(side: Side)                  // the slot was empty: about to ask
    | PendingClear(side: Side)                // stopping: pending read false
    | Taking(side: Side)                      // stopping: about to take what is in the slot
    | Holding(side: Side, p: Option<nat>)     // stopping: has taken it, not yet under the lock

  /** Where the control thread is. It holds the lock in Checked and Ending. */
  datatype Control =
    | Top
    | Stopping(p: nat)
    | Starting(side: Side, gen: nat)
    | Started(side: Side, gen: nat, started: Option<nat>)
    | Checked(side: Side, p: nat)             // found wanted, and the slot empty
    | Failed(side: Side)
    | Discarding(side: Side, p: nat)
    | Ending(side: Side)

  datatype State = State(rx: Half, tx: Half, toStop: seq<nat>, asker: Asker, control: Control, next: nat,
                         stopped: seq<nat>, left: seq<nat>)

  const STOP_LIST := 8

  function Get(s: State, side: Side): Half {
    if side == Rx then s.rx else s.tx
  }

  function Set(s: State, side: Side, h: Half): State {
    if side == Rx then s.(rx := h) else s.(tx := h)
  }

  function Init(): State {
    var h := Half(false, 0, None, false, 0);
    State(h, h, [], Idle, Top, 0, [], [])
  }

  predicate Locked(s: State) {
    s.control.Checked? || s.control.Ending?
  }

  // ---- the steps

  datatype Action =
    | CallStart(side: Side) | AskStart
    | CallStop(side: Side) | LookAtSlot | TakeSlot | AskStop
    | TakeStop | StopOne | TakeStart(side: Side) | Start(ok: bool) | Decide | Publish | Clean | Discard | Finish

  predicate Enabled(s: State, a: Action) {
    match a
    case CallStart(_) => s.asker.Idle?
    case AskStart => s.asker.StartAsked? && !Locked(s)
    case CallStop(_) => s.asker.Idle?
    case LookAtSlot => s.asker.PendingClear?
    case TakeSlot => s.asker.Taking?
    case AskStop => s.asker.Holding? && !Locked(s)
    case TakeStop => s.control.Top? && s.toStop != []
    case StopOne => s.control.Stopping?
    case TakeStart(side) => s.control.Top? && s.toStop == [] && Get(s, side).want && (side == Rx || !s.rx.want)
    case Start(_) => s.control.Starting?
    case Decide => s.control.Started?
    case Publish => s.control.Checked?
    case Clean => s.control.Failed?
    case Discard => s.control.Discarding?
    case Finish => s.control.Ending?
  }

  /** A stop is done. */
  function StopDone(s: State, side: Side): State {
    var h := Get(s, side);
    Set(s, side, h.(stops := h.stops + 1)).(asker := Idle)
  }

  function Do(s: State, a: Action): State
    requires Enabled(s, a)
  {
    match a
    case CallStart(side) =>
      var t := Set(s, side, Get(s, side).(stops := 0));
      if Get(s, side).slot.Some? then t else t.(asker := StartAsked(side))
    case AskStart =>
      var side := s.asker.side;
      var h := Get(s, side);
      Set(s, side, if h.want then h else h.(want := true, gen := h.gen + 1, pending := true)).(asker := Idle)
    case CallStop(side) =>
      if Get(s, side).pending then s.(asker := Taking(side)) else s.(asker := PendingClear(side))
    case LookAtSlot =>
      var side := s.asker.side;
      if Get(s, side).slot.Some? then s.(asker := Taking(side)) else StopDone(s, side)
    case TakeSlot =>
      var side := s.asker.side;
      var h := Get(s, side);
      Set(s, side, h.(slot := None)).(asker := Holding(side, h.slot))
    case AskStop =>
      var side, p := s.asker.side, s.asker.p;
      var h := Get(s, side);
      var t := Set(s, side, h.(want := false, gen := h.gen + 1));
      var u :=
        if p.None? then t
        else if |s.toStop| < STOP_LIST then t.(toStop := s.toStop + [p.value])
        else t.(left := s.left + [p.value]);
      StopDone(u, side)
    case TakeStop =>
      var n := |s.toStop| - 1;
      s.(toStop := s.toStop[..n], control := Stopping(s.toStop[n]))
    case StopOne => s.(stopped := s.stopped + [s.control.p], control := Top)
    case TakeStart(side) =>
      var h := Get(s, side);
      Set(s, side, h.(want := false)).(control := Starting(side, h.gen))
    case Start(ok) =>
      if ok then s.(next := s.next + 1, control := Started(s.control.side, s.control.gen, Some(s.next)))
      else s.(control := Started(s.control.side, s.control.gen, None))
    case Decide =>
      var side := s.control.side;
      var h := Get(s, side);
      var p := s.control.started;
      if p.None? then s.(control := Failed(side))
      else if h.gen == s.control.gen && h.slot.None? then s.(control := Checked(side, p.value))
      else s.(control := Discarding(side, p.value))
    case Publish =>
      var side, p := s.control.side, s.control.p;
      Set(s, side, Get(s, side).(slot := Some(p))).(control := Ending(side))
    case Clean => s.(control := Ending(s.control.side))
    case Discard => s.(stopped := s.stopped + [s.control.p], control := Ending(s.control.side))
    case Finish =>
      var side := s.control.side;
      var h := Get(s, side);
      Set(s, side, if h.want then h else h.(pending := false)).(control := Top)
  }

  // ---- where the processes are

  function Times(l: seq<nat>, p: nat): nat {
    if l == [] then 0 else Times(l[..|l| - 1], p) + if l[|l| - 1] == p then 1 else 0
  }

  function AtAsker(a: Asker): Option<nat> {
    if a.Holding? then a.p else None
  }

  function AtControl(c: Control): Option<nat> {
    match c
    case Stopping(p) => Some(p)
    case Started(_, _, p) => p
    case Checked(_, p) => Some(p)
    case Discarding(_, p) => Some(p)
    case _ => None
  }

  function Is(x: Option<nat>, p: nat): nat {
    if x == Some(p) then 1 else 0
  }

  /** In how many places process p is: the slots, the asker's hand, the stop list, the control
      thread's hand, among the stopped, among those left running. */
  function Places(s: State, p: nat): nat {
    Is(s.rx.slot, p) + Is(s.tx.slot, p) + Is(AtAsker(s.asker), p) + Times(s.toStop, p) + Is(AtControl(s.control), p)
    + Times(s.stopped, p) + Times(s.left, p)
  }

  /** Each process started so far is in exactly one place, and no other is anywhere. */
  ghost predicate Accounted(s: State) {
    forall p: nat :: Places(s, p) == if p < s.next then 1 else 0
  }

  function Full(x: Option<nat>): nat {
    if x.Some? then 1 else 0
  }

  /** The processes running and not in the hands of the control thread. */
  function Waiting(s: State): nat {
    Full(s.rx.slot) + Full(s.tx.slot) + Full(AtAsker(s.asker)) + |s.toStop|
  }

  function MostWaiting(c: Control): nat {
    if c.Starting? || c.Started? || c.Checked? then 3 else 4
  }

  // ---- the invariant

  /** The control thread has a start of this side in hand. */
  predicate UnderWay(s: State, side: Side) {
    match s.control
    case Starting(x, _) => x == side
    case Started(x, _, _) => x == side
    case Checked(x, _) => x == side
    case Failed(x) => x == side
    case Discarding(x, _) => x == side
    case Ending(x) => x == side
    case _ => false
  }

  /** The control thread will not publish for this side unless a new start is asked for. */
  predicate Calm(s: State, side: Side) {
    && !Get(s, side).want
    && !(s.control.Starting? && s.control.side == side && s.control.gen == Get(s, side).gen)
    && !(s.control.Started? && s.control.side == side && s.control.gen == Get(s, side).gen)
    && !(s.control.Checked? && s.control.side == side)
  }

  ghost predicate SideInv(s: State, side: Side) {
    var h := Get(s, side);
    && (h.want || UnderWay(s, side) ==> h.pending)
    && ((s.control.Starting? || s.control.Started?) && s.control.side == side ==> s.control.gen <= h.gen)
    && (s.asker == PendingClear(side) ==> !h.want && !UnderWay(s, side))
    && (s.control.Checked? && s.control.side == side ==> h.slot.None?)
    && (h.stops >= 1 ==> Calm(s, side) && s.asker != StartAsked(side))
    && (h.stops >= 1 && s.asker.Holding? && s.asker.side == side ==> h.slot.None?)
    && (h.stops >= 2 ==> h.slot.None?)
  }

  ghost predicate Inv(s: State) {
    && SideInv(s, Rx) && SideInv(s, Tx)
    && Accounted(s)
    && Waiting(s) <= MostWaiting(s.control)
    && s.left == []
  }

  lemma InitInv()
    ensures Inv(Init())
  {
  }

  lemma StartSteps(s: State, a: Action, side: Side)
    requires Enabled(s, a) && SideInv(s, Rx) && SideInv(s, Tx) && (a.CallStart? || a.AskStart?)
    ensures SideInv(Do(s, a), side)
  {
  }

  lemma CallStopStep(s: State, a: Action, side: Side)
    requires Enabled(s, a) && SideInv(s, Rx) && SideInv(s, Tx) && a.CallStop?
    ensures SideInv(Do(s, a), side)
  {
  }

  lemma LookStep(s: State, a: Action, side: Side)
    requires Enabled(s, a) && SideInv(s, Rx) && SideInv(s, Tx) && a.LookAtSlot?
    ensures SideInv(Do(s, a), side)
  {
  }

  lemma TakeSlotStep(s: State, a: Action, side: Side)
    requires Enabled(s, a) && SideInv(s, Rx) && SideInv(s, Tx) && a.TakeSlot?
    ensures SideInv(Do(s, a), side)
  {
  }

  lemma AskStopStep(s: State, a: Action, side: Side)
    requires Enabled(s, a) && SideInv(s, Rx) && SideInv(s, Tx) && (a.AskStop?)
    ensures SideInv(Do(s, a), side)
  {
  }

  lemma ControlStops(s: State, a: Action, side: Side)
    requires Enabled(s, a) && SideInv(s, Rx) && SideInv(s, Tx) && (a.TakeStop? || a.StopOne?)
    ensures SideInv(Do(s, a), side)
  {
  }

  lemma ControlStarts(s: State, a: Action, side: Side)
    requires Enabled(s, a) && SideInv(s, Rx) && SideInv(s, Tx) && (a.TakeStart? || a.Start?)
    ensures SideInv(Do(s, a), side)
  {
  }

  lemma ControlDecides(s: State, a: Action, side: Side)
    requires Enabled(s, a) && SideInv(s, Rx) && SideInv(s, Tx) && (a.Decide? || a.Publish?)
    ensures SideInv(Do(s, a), side)
  {
  }

  lemma ControlEnds(s: State, a: Action, side: Side)
    requires Enabled(s, a) && SideInv(s, Rx) && SideInv(s, Tx) && (a.Clean? || a.Discard? || a.Finish?)
    ensures SideInv(Do(s, a), side)
  {
  }

  lemma SideStep(s: State, a: Action, side: Side)
    requires Enabled(s, a) && SideInv(s, Rx) && SideInv(s, Tx)
    ensures SideInv(Do(s, a), side)
  {
    hide SideInv, Do, Enabled;
    if a.CallStart? || a.AskStart? {
      StartSteps(s, a, side);
    } else if a.CallStop? {
      CallStopStep(s, a, side);
    } else if a.LookAtSlot? {
      LookStep(s, a, side);
    } else if a.TakeSlot? {
      TakeSlotStep(s, a, side);
    } else if a.AskStop? {
      AskStopStep(s, a, side);
    } else if a.TakeStop? || a.StopOne? {
      ControlStops(s, a, side);
    } else if a.TakeStart? || a.Start? {
      ControlStarts(s, a, side);
    } else if a.Decide? || a.Publish? {
      ControlDecides(s, a, side);
    } else {
      ControlEnds(s, a, side);
    }
  }

  // ---- the census

  /** A step of the asker moves a process from one place to another. */
  lemma AskerMoves(s: State, a: Action, p: nat)
    requires Enabled(s, a)
    requires a.CallStart? || a.AskStart? || a.CallStop? || a.LookAtSlot? || a.TakeSlot?
    ensures Places(Do(s, a), p) == Places(s, p)
  {
    hide Times;
  }

  lemma AskStopMoves(s: State, p: nat)
    requires Enabled(s, AskStop)
    ensures Places(Do(s, AskStop), p) == Places(s, p)
  {
    hide Times, AtControl;
    var t := Do(s, AskStop);
    assert t.rx.slot == s.rx.slot && t.tx.slot == s.tx.slot && t.control == s.control && t.stopped == s.stopped;
    if s.asker.p.Some? {
      if |s.toStop| < STOP_LIST {
        TimesSnoc(s.toStop, s.asker.p.value, p);
      } else {
        TimesSnoc(s.left, s.asker.p.value, p);
      }
    }
  }

  /** A step of the control thread does, or starts one. */
  lemma ControlMoves(s: State, a: Action, p: nat)
    requires Enabled(s, a) && (s.control.Checked? ==> Get(s, s.control.side).slot.None?)
    requires !(a.CallStart? || a.AskStart? || a.CallStop? || a.LookAtSlot? || a.TakeSlot? || a.AskStop?)
    ensures Places(Do(s, a), p) == Places(s, p) + if a == Start(true) && p == s.next then 1 else 0
  {
    hide Times;
    if a.TakeStop? {
      var n := |s.toStop| - 1;
      assert s.toStop == s.toStop[..n] + [s.toStop[n]];
      TimesSnoc(s.toStop[..n], s.toStop[n], p);
    } else if a.StopOne? || a.Discard? {
      TimesSnoc(s.stopped, s.control.p, p);
    }
  }

  lemma TimesSnoc(l: seq<nat>, x: nat, p: nat)
    ensures Times(l + [x], p) == Times(l, p) + if x == p then 1 else 0
  {
    assert (l + [x])[..|l|] == l;
  }

  lemma SlotFree(s: State)
    requires s.control.Checked? && SideInv(s, Rx) && SideInv(s, Tx)
    ensures Get(s, s.control.side).slot.None?
  {
  }

  lemma PlacesStep(s: State, a: Action)
    requires Enabled(s, a) && Accounted(s) && SideInv(s, Rx) && SideInv(s, Tx)
    ensures Accounted(Do(s, a))
  {
    hide Places, SideInv;
    if s.control.Checked? {
      SlotFree(s);
    }
    forall p: nat
      ensures Places(Do(s, a), p) == if p < Do(s, a).next then 1 else 0
    {
      if a.AskStop? {
        AskStopMoves(s, p);
      } else if a.CallStart? || a.AskStart? || a.CallStop? || a.LookAtSlot? || a.TakeSlot? {
        AskerMoves(s, a, p);
      } else {
        ControlMoves(s, a, p);
      }
    }
  }

  lemma WaitingStep(s: State, a: Action)
    requires Enabled(s, a) && Waiting(s) <= MostWaiting(s.control) && s.left == []
    requires s.control.Checked? ==> Get(s, s.control.side).slot.None?
    ensures Waiting(Do(s, a)) <= MostWaiting(Do(s, a).control) && Do(s, a).left == []
  {
  }

  lemma InvStep(s: State, a: Action)
    requires Enabled(s, a) && Inv(s)
    ensures Inv(Do(s, a))
  {
    hide SideInv, Do, Places, Accounted, Waiting;
    SideStep(s, a, Rx);
    SideStep(s, a, Tx);
    PlacesStep(s, a);
    if s.control.Checked? {
      SlotFree(s);
    }
    WaitingStep(s, a);
  }

  // ---- whole runs

  /** The states of a run: any interleaving of the two threads' steps. */
  ghost predicate Run(ss: seq<State>, acts: seq<Action>) {
    && |ss| == |acts| + 1 && ss[0] == Init()
    && forall i :: 0 <= i < |acts| ==> Enabled(ss[i], acts[i]) && ss[i + 1] == Do(ss[i], acts[i])
  }

  lemma {:induction false} RunInv(ss: seq<State>, acts: seq<Action>, i: nat)
    requires Run(ss, acts) && i < |ss|
    ensures Inv(ss[i])
  {
    hide Inv, Do, Enabled;
    if i == 0 {
      InitInv();
    } else {
      RunInv(ss, acts, i - 1);
      InvStep(ss[i - 1], acts[i - 1]);
    }
  }

  /** In every run each process is in exactly one place, the stop list has room, and so no process
      is ever left running. */
  lemma EachInOnePlace(ss: seq<State>, acts: seq<Action>, i: nat, p: nat)
    requires Run(ss, acts) && i < |ss|
    ensures Places(ss[i], p) == if p < ss[i].next then 1 else 0
    ensures |ss[i].toStop| <= 4 < STOP_LIST && ss[i].left == []
  {
    hide Places, Do, Enabled;
    RunInv(ss, acts, i);
  }

  /** A stop that returns without the lock had nothing to do: nothing wanted, nothing under way,
      nothing running. */
  lemma QuietReturn(ss: seq<State>, acts: seq<Action>, i: nat)
    requires Run(ss, acts) && i < |acts| && acts[i].LookAtSlot? && ss[i + 1].asker.Idle?
    ensures var side := ss[i].asker.side;
      !Get(ss[i], side).want && !UnderWay(ss[i], side) && Get(ss[i], side).slot.None?
  {
    RunInv(ss, acts, i);
  }

  /** The control thread publishes nothing on a calm side, which stays calm until a start is asked
      for. */
  lemma CalmStep(s: State, a: Action, side: Side)
    requires Enabled(s, a) && Inv(s) && Get(s, side).stops >= 1 && a != CallStart(side)
    ensures Get(Do(s, a), side).stops >= Get(s, side).stops
    ensures Get(s, side).slot.None? ==> Get(Do(s, a), side).slot.None?
  {
    hide Places, Waiting;
  }

  /** Between a stop and the next start an empty slot stays empty; after two stops it is empty. */
  lemma {:induction false} StaysEmpty(ss: seq<State>, acts: seq<Action>, i: nat, j: nat, side: Side)
    requires Run(ss, acts) && i <= j < |ss|
    requires forall k :: i <= k < j ==> acts[k] != CallStart(side)
    requires Get(ss[i], side).stops >= 2 || (Get(ss[i], side).stops == 1 && Get(ss[i], side).slot.None?)
    ensures Get(ss[j], side).slot.None? && Get(ss[j], side).stops >= 1
  {
    hide Do, Enabled;
    RunInv(ss, acts, i);
    if i < j {
      StaysEmpty(ss, acts, i, j - 1, side);
      RunInv(ss, acts, j - 1);
      CalmStep(ss[j - 1], acts[j - 1], side);
    }
  }

  // ---- exactly when a stop leaves one running

  /** The steps of a run, from any state. */
  ghost predicate Path(ss: seq<State>, acts: seq<Action>) {
    && |ss| == |acts| + 1
    && forall i :: 0 <= i < |acts| ==> Enabled(ss[i], acts[i]) && ss[i + 1] == Do(ss[i], acts[i])
  }

  /** The asking thread is in a stop of this side. */
  predicate InStop(s: State, side: Side) {
    !s.asker.Idle? && !s.asker.StartAsked? && s.asker.side == side
  }

  /** A stop of this side, from its call to its return. */
  ghost predicate StopCall(ss: seq<State>, acts: seq<Action>, c: nat, m: nat, side: Side) {
    && |ss| == |acts| + 1 && c < m < |ss| && acts[c] == CallStop(side) && ss[m].asker.Idle?
    && forall k :: c < k < m ==> InStop(ss[k], side)
  }

  /** The control thread published for this side in step k, when the stop had taken the slot. */
  predicate PublishedHeld(s: State, a: Action, side: Side) {
    InStop(s, side) && s.asker.Holding? && a == Publish && s.control.Checked? && s.control.side == side
  }

  /** It did during the stop: after the slot was taken, before the section under the lock. */
  ghost predicate Overtaken(ss: seq<State>, acts: seq<Action>, c: nat, m: nat, side: Side)
    requires |ss| == |acts| + 1 && c <= m < |ss|
  {
    exists k :: c <= k < m && PublishedHeld(ss[k], acts[k], side)
  }

  /** A step within a stop. */
  lemma StopStep(s: State, a: Action, side: Side)
    requires Enabled(s, a) && Inv(s) && InStop(s, side)
    ensures var t := Do(s, a);
      && (InStop(t, side) || t.asker.Idle?) && (s.asker.Holding? ==> t.asker.Holding? || t.asker.Idle?)
      && (t.asker.Holding? && !s.asker.Holding? ==> Get(t, side).slot.None?)
      && (s.asker.Holding? && t.asker.Holding? ==>
            (Get(t, side).slot.Some? <==> Get(s, side).slot.Some? || PublishedHeld(s, a, side)))
      && (s.asker.Holding? && t.asker.Idle? ==> Get(t, side).slot == Get(s, side).slot && !PublishedHeld(s, a, side))
      && (!s.asker.Holding? && t.asker.Idle? ==> Get(t, side).slot.None?)
  {
    hide Places, Waiting;
  }

  lemma {:induction false} HeldSlot(ss: seq<State>, acts: seq<Action>, c: nat, m: nat, side: Side)
    requires Run(ss, acts) && c < m < |ss| && acts[c] == CallStop(side)
    requires forall k :: c < k < m ==> InStop(ss[k], side)
    ensures InStop(ss[m], side) || ss[m].asker.Idle?
    ensures !ss[m].asker.Holding? ==> ss[m].asker.Idle? || !Overtaken(ss, acts, c, m, side)
    ensures ss[m].asker.Holding? || (ss[m].asker.Idle? && m > c + 1) ==>
      (Get(ss[m], side).slot.Some? <==> Overtaken(ss, acts, c, m, side))
  {
    hide Do, Enabled, Inv;
    if m == c + 1 {
      CallStep(ss[c], side);
    } else {
      HeldSlot(ss, acts, c, m - 1, side);
      RunInv(ss, acts, m - 1);
      StopStep(ss[m - 1], acts[m - 1], side);
      assert Overtaken(ss, acts, c, m, side) <==>
        Overtaken(ss, acts, c, m - 1, side) || PublishedHeld(ss[m - 1], acts[m - 1], side);
    }
  }

  lemma CallStep(s: State, side: Side)
    requires Enabled(s, CallStop(side))
    ensures InStop(Do(s, CallStop(side)), side) && !Do(s, CallStop(side)).asker.Holding?
  {
  }

  /** In every run a stop leaves its side's slot empty exactly if the control thread published nothing
      for that side between the taking of the slot and the section under the lock. */
  lemma OneStopExactly(ss: seq<State>, acts: seq<Action>, c: nat, m: nat, side: Side)
    requires Run(ss, acts) && StopCall(ss, acts, c, m, side)
    ensures Get(ss[m], side).slot.None? <==> !Overtaken(ss, acts, c, m, side)
  {
    hide Do, Enabled;
    CallStep(ss[c], side);
    HeldSlot(ss, acts, c, m, side);
  }

  // ---- and when it is sure not to

  /** No start of this side is wanted, none in the control thread's hands can still be published. */
  predicate Quiet(s: State, side: Side) {
    && !Get(s, side).want
    && !(s.control.Starting? && s.control.side == side && s.control.gen == Get(s, side).gen)
    && !(s.control.Started? && s.control.side == side && s.control.gen == Get(s, side).gen && s.control.started.Some?)
    && !(s.control.Checked? && s.control.side == side)
  }

  /** What makes a stop under way sure to leave the slot empty. */
  predicate Sure(s: State, side: Side) {
    Quiet(s, side) && (s.asker.Holding? ==> Get(s, side).slot.None?)
  }

  /** A way the stop can go on from s to its return. */
  ghost predicate Finishes(ss: seq<State>, acts: seq<Action>, s: State, side: Side) {
    && Path(ss, acts) && acts != [] && ss[0] == s && ss[|acts|].asker.Idle?
    && forall k :: 0 <= k < |acts| ==> InStop(ss[k], side)
  }

  lemma SureStep(s: State, a: Action, side: Side)
    requires Enabled(s, a) && Inv(s) && InStop(s, side) && Sure(s, side)
    ensures var t := Do(s, a);
      if t.asker.Idle? then Get(t, side).slot.None? else Sure(t, side)
  {
    hide Places, Waiting;
  }

  lemma {:induction false} SureKept(ss: seq<State>, acts: seq<Action>, side: Side, m: nat)
    requires Path(ss, acts) && m < |ss| && Inv(ss[0]) && Sure(ss[0], side) && InStop(ss[0], side)
    requires forall k :: 0 <= k < m ==> InStop(ss[k], side)
    ensures Inv(ss[m]) && if ss[m].asker.Idle? then Get(ss[m], side).slot.None? else Sure(ss[m], side)
  {
    hide Do, Enabled, Inv, Sure;
    if m > 0 {
      SureKept(ss, acts, side, m - 1);
      InvStep(ss[m - 1], acts[m - 1]);
      SureStep(ss[m - 1], acts[m - 1], side);
    }
  }

  /** The control thread's next step, every start succeeding. */
  function Next(s: State): Action {
    match s.control
    case Top => if s.toStop != [] then TakeStop else if s.rx.want then TakeStart(Rx) else TakeStart(Tx)
    case Stopping(_) => StopOne
    case Starting(_, _) => Start(true)
    case Started(_, _, _) => Decide
    case Checked(_, _) => Publish
    case Failed(_) => Clean
    case Discarding(_, _) => Discard
    case Ending(_) => Finish
  }

  /** The control thread has nothing left to do. */
  predicate AtRest(s: State) {
    s.control.Top? && s.toStop == [] && !s.rx.want && !s.tx.want
  }

  function Rank(c: Control): nat {
    match c
    case Top => 0
    case Stopping(_) => 1
    case Ending(_) => 1
    case Checked(_, _) => 2
    case Failed(_) => 2
    case Discarding(_, _) => 2
    case Started(_, _, _) => 3
    case Starting(_, _) => 4
  }

  function Work(s: State): nat {
    2 * |s.toStop| + Rank(s.control) + (if s.rx.want then 5 else 0) + if s.tx.want then 5 else 0
  }

  /** A Dream runs on this side, or will when the control thread has done what it was asked. */
  predicate Served(s: State, side: Side) {
    Get(s, side).slot.Some? || !Quiet(s, side)
  }

  lemma NextStep(s: State, side: Side)
    requires !AtRest(s)
    ensures Enabled(s, Next(s))
    ensures var t := Do(s, Next(s));
      Work(t) < Work(s) && t.asker == s.asker && (Served(t, side) <==> Served(s, side))
  {
  }

  /** Left alone, the control thread comes to rest, with a Dream published on just the sides that were
      served. */
  lemma {:induction false} Settle(s: State, side: Side) returns (ss: seq<State>, acts: seq<Action>)
    ensures Path(ss, acts) && ss[0] == s && AtRest(ss[|acts|])
    ensures forall k :: 0 <= k < |ss| ==> ss[k].asker == s.asker
    ensures Get(ss[|acts|], side).slot.Some? <==> Served(s, side)
    decreases Work(s)
  {
    if AtRest(s) {
      ss, acts := [s], [];
    } else {
      hide Do, Enabled, Next, Served, AtRest, Work;
      NextStep(s, side);
      var more, moreActs := Settle(Do(s, Next(s)), side);
      ss, acts := Ahead(s, Next(s), more, moreActs);
    }
  }

  /** A path with one step before it. */
  lemma Ahead(s: State, a: Action, ss: seq<State>, acts: seq<Action>) returns (more: seq<State>, moreActs: seq<Action>)
    requires Path(ss, acts) && Enabled(s, a) && ss[0] == Do(s, a)
    ensures more == [s] + ss && moreActs == [a] + acts && Path(more, moreActs)
  {
    hide Do, Enabled;
    more, moreActs := [s] + ss, [a] + acts;
    forall i | 0 <= i < |moreActs|
      ensures Enabled(more[i], moreActs[i]) && more[i + 1] == Do(more[i], moreActs[i])
    {
      if i > 0 {
        assert moreActs[i] == acts[i - 1] && more[i] == ss[i - 1] && more[i + 1] == ss[i];
      }
    }
  }

  /** A path with one step after it. */
  lemma After(ss: seq<State>, acts: seq<Action>, a: Action) returns (more: seq<State>, moreActs: seq<Action>)
    requires Path(ss, acts) && Enabled(ss[|acts|], a)
    ensures moreActs == acts + [a] && more == ss + [Do(ss[|acts|], a)] && Path(more, moreActs)
  {
    hide Do, Enabled;
    more, moreActs := ss + [Do(ss[|acts|], a)], acts + [a];
  }

  /** With the slot taken: let the control thread come to rest, then go under the lock. */
  lemma HeldLeft(s: State, side: Side) returns (ss: seq<State>, acts: seq<Action>)
    requires InStop(s, side) && s.asker.Holding? && !Sure(s, side)
    ensures Finishes(ss, acts, s, side) && Get(ss[|acts|], side).slot.Some?
  {
    hide Do, Enabled, Quiet;
    var some, someActs := Settle(s, side);
    assert Served(s, side);
    var last := some[|someActs|];
    LockStep(last, side);
    ss, acts := After(some, someActs, AskStop);
    assert ss[|acts|] == Do(last, AskStop);
    forall k | 0 <= k < |acts|
      ensures InStop(ss[k], side)
    {
      assert ss[k] == some[k];
    }
  }

  lemma LockStep(s: State, side: Side)
    requires InStop(s, side) && s.asker.Holding? && AtRest(s)
    ensures Enabled(s, AskStop) && Do(s, AskStop).asker.Idle? && Get(Do(s, AskStop), side).slot == Get(s, side).slot
  {
  }

  lemma TakeStep(s: State, side: Side)
    requires s.asker == Taking(side) && !Quiet(s, side)
    ensures Enabled(s, TakeSlot)
    ensures var t := Do(s, TakeSlot); InStop(t, side) && t.asker.Holding? && !Sure(t, side)
  {
  }

  lemma LookSure(s: State, side: Side)
    requires Inv(s) && s.asker == PendingClear(side)
    ensures Sure(s, side)
  {
    hide Places, Waiting;
  }

  /** If it is not sure, there is a way to go on that leaves a Dream running. */
  lemma MayBeLeft(s: State, side: Side) returns (ss: seq<State>, acts: seq<Action>)
    requires Inv(s) && InStop(s, side) && !Sure(s, side)
    ensures Finishes(ss, acts, s, side) && Get(ss[|acts|], side).slot.Some?
  {
    hide Do, Enabled, Inv, Quiet;
    if s.asker.Holding? {
      ss, acts := HeldLeft(s, side);
    } else if s.asker.Taking? {
      TakeStep(s, side);
      var more, moreActs := HeldLeft(Do(s, TakeSlot), side);
      ss, acts := Ahead(s, TakeSlot, more, moreActs);
      assert ss[|acts|] == more[|moreActs|];
      forall k | 0 <= k < |acts|
        ensures InStop(ss[k], side)
      {
        assert k > 0 ==> ss[k] == more[k - 1];
      }
    } else {
      LookSure(s, side);
    }
  }

  /** At any point of a stop in any run: every way it can go on leaves the slot empty exactly if no
      start of the side is wanted and none can still be published. */
  lemma StopSure(ss: seq<State>, acts: seq<Action>, i: nat, side: Side)
    requires Run(ss, acts) && i < |ss| && InStop(ss[i], side)
    ensures Sure(ss[i], side) <==>
      forall tt, bb :: Finishes(tt, bb, ss[i], side) ==> Get(tt[|bb|], side).slot.None?
  {
    hide Inv, Sure, InStop;
    RunInv(ss, acts, i);
    if Sure(ss[i], side) {
      forall tt, bb | Finishes(tt, bb, ss[i], side)
        ensures Get(tt[|bb|], side).slot.None?
      {
        FinishesEmpty(tt, bb, ss[i], side);
      }
    } else {
      var tt, bb := MayBeLeft(ss[i], side);
    }
  }

  lemma FinishesEmpty(tt: seq<State>, bb: seq<Action>, s: State, side: Side)
    requires Inv(s) && Sure(s, side) && Finishes(tt, bb, s, side)
    ensures Get(tt[|bb|], side).slot.None?
  {
    hide Inv, Sure;
    assert InStop(tt[0], side);
    SureKept(tt, bb, side, |bb|);
  }

  /** One stop is not enough: a run in which a start is published between the stop's taking of the
      slot and its section under the lock. */
  lemma OneStopLeavesOne() returns (ss: seq<State>, acts: seq<Action>)
    ensures Run(ss, acts) && |ss| == 11
    ensures acts == [CallStart(Rx), AskStart, TakeStart(Rx), Start(true), CallStop(Rx), TakeSlot, Decide, Publish, Finish,
                     AskStop]
    ensures ss[10].rx.stops == 1 && ss[10].rx.slot == Some(0) && ss[10].asker.Idle? && ss[10].control.Top?
  {
    hide Run, Do, Enabled, Steps;
    StartRun();
    FirstSteps();
    MiddleSteps();
    LaterSteps();
    FinalStep();
    ss, acts := [Steps(0)], [];
    ss, acts := Extend(ss, acts, CallStart(Rx), Steps(1));
    ss, acts := Extend(ss, acts, AskStart, Steps(2));
    ss, acts := Extend(ss, acts, TakeStart(Rx), Steps(3));
    ss, acts := Extend(ss, acts, Start(true), Steps(4));
    ss, acts := Extend(ss, acts, CallStop(Rx), Steps(5));
    ss, acts := Extend(ss, acts, TakeSlot, Steps(6));
    ss, acts := Extend(ss, acts, Decide, Steps(7));
    ss, acts := Extend(ss, acts, Publish, Steps(8));
    ss, acts := Extend(ss, acts, Finish, Steps(9));
    ss, acts := Extend(ss, acts, AskStop, Steps(10));
    LastStep();
  }

  lemma FirstSteps()
    ensures Enabled(Steps(0), CallStart(Rx)) && Do(Steps(0), CallStart(Rx)) == Steps(1)
    ensures Enabled(Steps(1), AskStart) && Do(Steps(1), AskStart) == Steps(2)
    ensures Enabled(Steps(2), TakeStart(Rx)) && Do(Steps(2), TakeStart(Rx)) == Steps(3)
    ensures Enabled(Steps(3), Start(true)) && Do(Steps(3), Start(true)) == Steps(4)
  {
  }

  lemma MiddleSteps()
    ensures Enabled(Steps(4), CallStop(Rx)) && Do(Steps(4), CallStop(Rx)) == Steps(5)
    ensures Enabled(Steps(5), TakeSlot) && Do(Steps(5), TakeSlot) == Steps(6)
    ensures Enabled(Steps(6), Decide) && Do(Steps(6), Decide) == Steps(7)
  {
  }

  lemma LaterSteps()
    ensures Enabled(Steps(7), Publish) && Do(Steps(7), Publish) == Steps(8)
    ensures Enabled(Steps(8), Finish) && Do(Steps(8), Finish) == Steps(9)
  {
  }

  lemma FinalStep()
    ensures Enabled(Steps(9), AskStop) && Do(Steps(9), AskStop) == Steps(10)
  {
  }

  lemma LastStep()
    ensures Steps(10).rx.stops == 1 && Steps(10).rx.slot == Some(0) && Steps(10).asker.Idle? && Steps(10).control.Top?
  {
  }

  /** The states of that run. */
  function Steps(n: nat): State {
    var h := Half(false, 0, None, false, 0);
    var w := Half(true, 1, None, true, 0);
    var v := Half(false, 1, None, true, 0);
    match n
    case 1 => State(h, h, [], StartAsked(Rx), Top, 0, [], [])
    case 2 => State(w, h, [], Idle, Top, 0, [], [])
    case 3 => State(v, h, [], Idle, Starting(Rx, 1), 0, [], [])
    case 4 => State(v, h, [], Idle, Started(Rx, 1, Some(0)), 1, [], [])
    case 5 => State(v, h, [], Taking(Rx), Started(Rx, 1, Some(0)), 1, [], [])
    case 6 => State(v, h, [], Holding(Rx, None), Started(Rx, 1, Some(0)), 1, [], [])
    case 7 => State(v, h, [], Holding(Rx, None), Checked(Rx, 0), 1, [], [])
    case 8 => State(v.(slot := Some(0)), h, [], Holding(Rx, None), Ending(Rx), 1, [], [])
    case 9 => State(v.(slot := Some(0), pending := false), h, [], Holding(Rx, None), Top, 1, [], [])
    case 10 => State(v.(slot := Some(0), pending := false, gen := 2, stops := 1), h, [], Idle, Top, 1, [], [])
    case _ => Init()
  }

  lemma StartRun()
    ensures Run([Steps(0)], [])
  {
  }

  lemma Extend(ss: seq<State>, acts: seq<Action>, a: Action, t: State) returns (more: seq<State>, moreActs: seq<Action>)
    requires Run(ss, acts) && |ss| > 0
    requires Enabled(ss[|ss| - 1], a) && t == Do(ss[|ss| - 1], a)
    ensures more == ss + [t] && moreActs == acts + [a] && Run(more, moreActs)
  {
    hide Do, Enabled;
    more, moreActs := ss + [t], acts + [a];
  }

  // ---- the pending flag

  /** A stop took back a start of this side that the control thread had not yet taken. */
  predicate TookBack(s: State, a: Action, side: Side) {
    a == AskStop && s.asker.Holding? && s.asker.side == side && Get(s, side).want
  }

  /** The control thread was done with a start of this side. */
  predicate DoneWith(s: State, a: Action, side: Side) {
    a == Finish && s.control.Ending? && s.control.side == side
  }

  /** A start was taken back since the control thread was last done with one. */
  ghost predicate Stuck(ss: seq<State>, acts: seq<Action>, i: nat, side: Side)
    requires |ss| == |acts| + 1 && i < |ss|
  {
    exists k :: 0 <= k < i && TookBack(ss[k], acts[k], side) && forall j :: k < j < i ==> !DoneWith(ss[j], acts[j], side)
  }

  lemma StuckNext(ss: seq<State>, acts: seq<Action>, i: nat, side: Side)
    requires |ss| == |acts| + 1 && i < |acts|
    ensures Stuck(ss, acts, i + 1, side) <==>
      TookBack(ss[i], acts[i], side) || (Stuck(ss, acts, i, side) && !DoneWith(ss[i], acts[i], side))
  {
    if Stuck(ss, acts, i, side) && !DoneWith(ss[i], acts[i], side) {
      var k :| 0 <= k < i && TookBack(ss[k], acts[k], side) && forall j :: k < j < i ==> !DoneWith(ss[j], acts[j], side);
      assert TookBack(ss[k], acts[k], side) && forall j :: k < j < i + 1 ==> !DoneWith(ss[j], acts[j], side);
    }
  }

  lemma PendingStep(s: State, a: Action, side: Side, stuck: bool)
    requires Enabled(s, a) && Inv(s)
    requires Get(s, side).pending <==> Get(s, side).want || UnderWay(s, side) || stuck
    ensures var t, h := Do(s, a), Get(Do(s, a), side);
      h.pending <==> h.want || UnderWay(t, side) || TookBack(s, a, side) || (stuck && !DoneWith(s, a, side))
  {
    hide Places, Waiting;
  }

  /** In every run the pending flag, which the code gives as "a start asked for or under way", is set if and only if
      a start is wanted or under way or was taken back since the control thread was last done with one. */
  lemma {:induction false} PendingExactly(ss: seq<State>, acts: seq<Action>, i: nat, side: Side)
    requires Run(ss, acts) && i < |ss|
    ensures Get(ss[i], side).pending <==> Get(ss[i], side).want || UnderWay(ss[i], side) || Stuck(ss, acts, i, side)
  {
    hide Inv, Do, Enabled, Stuck, DoneWith, TookBack;
    if i == 0 {
      NotStuck(ss, acts, side);
    } else {
      PendingExactly(ss, acts, i - 1, side);
      RunInv(ss, acts, i - 1);
      StuckNext(ss, acts, i - 1, side);
      PendingStep(ss[i - 1], acts[i - 1], side, Stuck(ss, acts, i - 1, side));
    }
  }

  lemma NotStuck(ss: seq<State>, acts: seq<Action>, side: Side)
    requires |ss| == |acts| + 1
    ensures !Stuck(ss, acts, 0, side) && !UnderWay(Init(), side)
  {
  }

  /** A run in which it is set with the control thread at rest, nothing wanted and nothing running. */
  lemma PendingForNothing() returns (ss: seq<State>, acts: seq<Action>)
    ensures Run(ss, acts) && acts == [CallStart(Rx), AskStart, CallStop(Rx), TakeSlot, AskStop]
    ensures var t := ss[|acts|]; AtRest(t) && t.asker.Idle? && t.rx.slot.None? && t.rx.pending
  {
    hide Run, Do, Enabled, Steps;
    StartRun();
    FirstSteps();
    BackSteps();
    ss, acts := [Steps(0)], [];
    ss, acts := Extend(ss, acts, CallStart(Rx), Steps(1));
    ss, acts := Extend(ss, acts, AskStart, Steps(2));
    ss, acts := Extend(ss, acts, CallStop(Rx), Back(0));
    ss, acts := Extend(ss, acts, TakeSlot, Back(1));
    ss, acts := Extend(ss, acts, AskStop, Back(2));
  }

  /** The last states of that run. */
  function Back(n: nat): State {
    var h := Half(false, 0, None, false, 0);
    var w := Half(true, 1, None, true, 0);
    match n
    case 0 => State(w, h, [], Taking(Rx), Top, 0, [], [])
    case 1 => State(w, h, [], Holding(Rx, None), Top, 0, [], [])
    case _ => State(w.(want := false, gen := 2, stops := 1), h, [], Idle, Top, 0, [], [])
  }

  lemma BackSteps()
    ensures Enabled(Steps(2), CallStop(Rx)) && Do(Steps(2), CallStop(Rx)) == Back(0)
    ensures Enabled(Back(0), TakeSlot) && Do(Back(0), TakeSlot) == Back(1)
    ensures Enabled(Back(1), AskStop) && Do(Back(1), AskStop) == Back(2)
  {
  }

  // ---- shutdown

  /** At rest, every process started has been stopped, but for the ones in the slots. */
  lemma AllStopped(ss: seq<State>, acts: seq<Action>, i: nat, p: nat)
    requires Run(ss, acts) && i < |ss|
    requires ss[i].asker.Idle? && ss[i].control.Top? && ss[i].toStop == []
    ensures Times(ss[i].stopped, p) ==
      if p < ss[i].next && ss[i].rx.slot != Some(p) && ss[i].tx.slot != Some(p) then 1 else 0
  {
    hide Do, Enabled;
    RunInv(ss, acts, i);
    assert Places(ss[i], p) == Is(ss[i].rx.slot, p) + Is(ss[i].tx.slot, p) + Times(ss[i].stopped, p);
  }

  /** A step that neither starts nor stops this side leaves the slot of a stopped side as it is. */
  lemma IdleStep(s: State, a: Action, side: Side)
    requires Enabled(s, a) && Inv(s) && Get(s, side).stops >= 1 && a != CallStart(side) && !InStop(s, side)
    ensures Get(Do(s, a), side).stops >= 1 && Get(Do(s, a), side).slot == Get(s, side).slot
  {
    hide Places, Waiting;
  }

  lemma {:induction false} StaysAs(ss: seq<State>, acts: seq<Action>, i: nat, j: nat, side: Side)
    requires Run(ss, acts) && i <= j < |ss| && Get(ss[i], side).stops >= 1
    requires forall k :: i <= k < j ==> acts[k] != CallStart(side) && !InStop(ss[k], side)
    ensures Get(ss[j], side).slot == Get(ss[i], side).slot && Get(ss[j], side).stops >= 1
  {
    hide Do, Enabled, Inv, InStop;
    if i < j {
      StaysAs(ss, acts, i, j - 1, side);
      RunInv(ss, acts, j - 1);
      IdleStep(ss[j - 1], acts[j - 1], side);
    }
  }

  /** A stop that returns is counted. */
  lemma ReturnStep(s: State, a: Action, side: Side)
    requires Enabled(s, a) && InStop(s, side) && Do(s, a).asker.Idle?
    ensures Get(Do(s, a), side).stops >= 1
  {
  }

  lemma StopCounted(ss: seq<State>, acts: seq<Action>, c: nat, m: nat, side: Side)
    requires Run(ss, acts) && StopCall(ss, acts, c, m, side)
    ensures Get(ss[m], side).stops >= 1
  {
    hide Do, Enabled, InStop;
    CallStep(ss[c], side);
    assert m > c + 1;
    ReturnStep(ss[m - 1], acts[m - 1], side);
  }

  /** The shutdown: the receiver's stop from c to d, the transmitter's from e to m, nothing else asked for,
      and the control thread found at rest at z. */
  ghost predicate Shutdown(ss: seq<State>, acts: seq<Action>, c: nat, d: nat, e: nat, m: nat, z: nat) {
    && StopCall(ss, acts, c, d, Rx) && StopCall(ss, acts, e, m, Tx) && d <= e && m <= z < |ss|
    && (forall k :: d <= k < e || m <= k < z ==> ss[k].asker.Idle? && acts[k] != CallStart(Rx) && acts[k] != CallStart(Tx))
    && ss[z].asker.Idle? && AtRest(ss[z])
  }

  /** The shutdown has stopped every process ever started exactly if neither of its stops was
      overtaken by a start. */
  lemma ShutdownExactly(ss: seq<State>, acts: seq<Action>, c: nat, d: nat, e: nat, m: nat, z: nat)
    requires Run(ss, acts) && Shutdown(ss, acts, c, d, e, m, z)
    ensures (forall p: nat :: p < ss[z].next ==> Times(ss[z].stopped, p) == 1) <==>
      !Overtaken(ss, acts, c, d, Rx) && !Overtaken(ss, acts, e, m, Tx)
  {
    hide Do, Enabled, Times, Overtaken;
    OneStopExactly(ss, acts, c, d, Rx);
    OneStopExactly(ss, acts, e, m, Tx);
    StopCounted(ss, acts, c, d, Rx);
    StopCounted(ss, acts, e, m, Tx);
    NotInRx(ss, acts, c, d, e, m, z);
    StaysAs(ss, acts, d, z, Rx);
    StaysAs(ss, acts, m, z, Tx);
    SlotsDecide(ss, acts, z);
  }

  /** At rest, all are stopped exactly if the slots are empty. */
  lemma SlotsDecide(ss: seq<State>, acts: seq<Action>, i: nat)
    requires Run(ss, acts) && i < |ss| && ss[i].asker.Idle? && AtRest(ss[i])
    ensures (forall p: nat :: p < ss[i].next ==> Times(ss[i].stopped, p) == 1) <==>
      ss[i].rx.slot.None? && ss[i].tx.slot.None?
  {
    hide Run, Times;
    var s := ss[i];
    SlotsStarted(ss, acts, i);
    if s.rx.slot.Some? {
      AllStopped(ss, acts, i, s.rx.slot.value);
    } else if s.tx.slot.Some? {
      AllStopped(ss, acts, i, s.tx.slot.value);
    } else {
      forall p: nat | p < s.next
        ensures Times(s.stopped, p) == 1
      {
        AllStopped(ss, acts, i, p);
      }
    }
  }

  lemma NotInRx(ss: seq<State>, acts: seq<Action>, c: nat, d: nat, e: nat, m: nat, z: nat)
    requires Run(ss, acts) && Shutdown(ss, acts, c, d, e, m, z)
    ensures forall k :: d <= k < z ==> acts[k] != CallStart(Rx) && !InStop(ss[k], Rx)
  {
    hide Do;
    forall k | d <= k < z
      ensures acts[k] != CallStart(Rx) && !InStop(ss[k], Rx)
    {
      if e < k < m {
        assert InStop(ss[k], Tx) && Enabled(ss[k], acts[k]);
      } else if k == e {
        assert Enabled(ss[k], acts[k]);
      }
    }
  }

  /** What is in a slot was started. */
  lemma SlotsStarted(ss: seq<State>, acts: seq<Action>, i: nat)
    requires Run(ss, acts) && i < |ss|
    ensures ss[i].rx.slot.Some? ==> ss[i].rx.slot.value < ss[i].next
    ensures ss[i].tx.slot.Some? ==> ss[i].tx.slot.value < ss[i].next
  {
    hide Do, Enabled;
    RunInv(ss, acts, i);
    if ss[i].rx.slot.Some? {
      assert Places(ss[i], ss[i].rx.slot.value) >= 1;
    }
    if ss[i].tx.slot.Some? {
      assert Places(ss[i], ss[i].tx.slot.value) >= 1;
    }
  }
}
