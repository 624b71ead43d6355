/** The concurrent protocol of loc_api_sync_req.cpp as a machine whose steps are the
    atomic actions of the source: taking a mutex, one critical section up to its
    unlock, sending, blocking, waking.

    Every invocation of loc_sync_send_req and of loc_sync_process_ind is an
    activation with an identity of its own; a thread that calls twice is two
    activations. Any number of activations may be inside the module at once.

    The machine (what the code has) and the history (what an observer notes down)
    are separate parts of a state: no machine step can read the history. */
module SyncProtocol {
  import opened Options
  import opened SyncTable

  type Id = nat

  /** The results of loc_sync_send_req. SendFailed stands for the statuses other than
      eLOC_CLIENT_SUCCESS that locClientSendReq returns. */
  datatype Status = Success | FailureTimeout | FailureInternal | SendFailed(code: nat)

  /** Where an activation is. "Want" waits for a mutex, "In" holds it. */
  datatype Pc =
    // loc_sync_send_req
    | AllocWant(c: Call)
    | AllocIn(c: Call)
    | SelectWant(c: Call, k: nat)
    | SelectIn(c: Call, k: nat)
    | Sending(c: Call, k: nat)
    | WaitCheck(c: Call, k: nat)
    | WaitWant(c: Call, k: nat)
    | WaitIn(c: Call, k: nat)
    | Blocked(c: Call, k: nat, signalled: bool)
    | WakeWant(c: Call, k: nat, timedOut: bool)
    | WakeIn(c: Call, k: nat, timedOut: bool)
    | FreeWant(c: Call, k: nat, st: Status)
    | FreeIn(c: Call, k: nat, st: Status)
    | Returning(c: Call, st: Status)
    // loc_sync_process_ind
    | IndWant(ind: Ind)
    | IndCheck(ind: Ind)
    | IndLoop(ind: Ind, i: nat, anyUsed: bool, consumed: bool)
    | IndSlotWant(ind: Ind, i: nat, anyUsed: bool)
    | IndSlotIn(ind: Ind, i: nat, anyUsed: bool)
    | IndEnd(ind: Ind, anyUsed: bool)
  {
    predicate IsInd() {
      IndWant? || IndCheck? || IndLoop? || IndSlotWant? || IndSlotIn? || IndEnd?
    }

    /** Between the unlock of loc_alloc_slot and the reset in loc_free_slot. */
    predicate OwnsSlot() {
      !IsInd() && !AllocWant? && !AllocIn? && !Returning?
    }

    predicate WantsGlobal() {
      AllocWant? || FreeWant? || IndWant?
    }

    predicate HoldsGlobal() {
      AllocIn? || FreeIn? || IndCheck? || IndLoop? || IndSlotWant? || IndSlotIn? || IndEnd?
    }

    predicate WantsLock(j: nat) {
      ((SelectWant? || WaitWant? || WakeWant?) && k == j) || (IndSlotWant? && i == j)
    }

    predicate HoldsLock(j: nat) {
      ((SelectIn? || WaitIn? || WakeIn?) && k == j) || (IndSlotIn? && i == j)
    }
  }

  datatype Machine = Machine(
    globalLock: Option<Id>,
    slotLocks: seq<Option<Id>>,
    table: Table,
    acts: map<Id, Pc>,
    next: Id)

  function InitialMachine(): Machine {
    Machine(None, seq(SLOT_COUNT, _ => None), InitialTable(), map[], 0)
  }

  ghost predicate Shape(m: Machine) {
    && |m.slotLocks| == SLOT_COUNT
    && WellFormed(m.table)
    && forall t :: t in m.acts ==>
                     && t < m.next
                     && (m.acts[t].OwnsSlot() ==> m.acts[t].k < SLOT_COUNT)
                     && (m.acts[t].IndLoop? ==> m.acts[t].i <= SLOT_COUNT)
                     && (m.acts[t].IndSlotWant? || m.acts[t].IndSlotIn? ==> m.acts[t].i < SLOT_COUNT)
  }

  /** What happens next: a caller or an indication arrives, an activation runs on by
      itself, locClientSendReq returns, a timed wait expires, or a condition wait
      returns without a signal. */
  datatype Label =
    | EnterCall(c: Call)
    | EnterInd(ind: Ind)
    | Run(t: Id)
    | SendResult(t: Id, st: Status)
    | TimeOut(t: Id)
    | SpuriousWake(t: Id)

  predicate CanRun(m: Machine, pc: Pc)
    requires |m.slotLocks| == SLOT_COUNT
  {
    match pc
    case AllocWant(_) => m.globalLock.None?
    case FreeWant(_, _, _) => m.globalLock.None?
    case IndWant(_) => m.globalLock.None?
    case SelectWant(_, k) => k < SLOT_COUNT && m.slotLocks[k].None?
    case WaitWant(_, k) => k < SLOT_COUNT && m.slotLocks[k].None?
    case WakeWant(_, k, _) => k < SLOT_COUNT && m.slotLocks[k].None?
    case IndSlotWant(_, i, _) => i < SLOT_COUNT && m.slotLocks[i].None?
    case Sending(_, _) => false
    case Blocked(_, _, signalled) => signalled
    case _ => true
  }

  /** Indications carry the handle of an open client, never the invalid one. */
  ghost predicate Enabled(m: Machine, l: Label)
    requires Shape(m)
  {
    match l
    case EnterCall(c) => true
    case EnterInd(ind) => ind.handle != INVALID_HANDLE
    case Run(t) => t in m.acts && CanRun(m, m.acts[t])
    case SendResult(t, st) => t in m.acts && m.acts[t].Sending? && (st.Success? || st.SendFailed?)
    case TimeOut(t) => t in m.acts && m.acts[t].Blocked?
    case SpuriousWake(t) => t in m.acts && m.acts[t].Blocked? && !m.acts[t].signalled
  }

  /** pthread_cond_signal on the condition of slot k. */
  function Signal(acts: map<Id, Pc>, k: nat): map<Id, Pc> {
    map t | t in acts ::
      if acts[t].Blocked? && acts[t].k == k then acts[t].(signalled := true) else acts[t]
  }

  function Goto(m: Machine, t: Id, pc: Pc): Machine {
    m.(acts := m.acts[t := pc])
  }

  function LockSlot(m: Machine, t: Id, k: nat, pc: Pc): Machine
    requires k < |m.slotLocks|
  {
    Goto(m, t, pc).(slotLocks := m.slotLocks[k := Some(t)])
  }

  function UnlockSlot(m: Machine, t: Id, k: nat, pc: Pc): Machine
    requires k < |m.slotLocks|
  {
    Goto(m, t, pc).(slotLocks := m.slotLocks[k := None])
  }

  function LockGlobal(m: Machine, t: Id, pc: Pc): Machine {
    Goto(m, t, pc).(globalLock := Some(t))
  }

  function UnlockGlobal(m: Machine, t: Id, pc: Pc): Machine {
    Goto(m, t, pc).(globalLock := None)
  }

  /** One step of activation t by itself. */
  ghost function RunStep(m: Machine, t: Id): Machine
    requires Shape(m) && Enabled(m, Run(t))
  {
    match m.acts[t]
    case AllocWant(c) => LockGlobal(m, t, AllocIn(c))
    case AllocIn(c) =>
      var k := FirstFree(m.table.used);
      if k < SLOT_COUNT
      then UnlockGlobal(m, t, SelectWant(c, k)).(table := AllocSlot(m.table))
      else UnlockGlobal(m, t, Returning(c, Success))    // the initial status is returned as it is
    case SelectWant(c, k) => LockSlot(m, t, k, SelectIn(c, k))
    case SelectIn(c, k) =>
      UnlockSlot(m, t, k, Sending(c, k)).(table := SetSlot(m.table, k, SelectedSlot(c)))
    case WaitCheck(c, k) =>                             // reads slot_in_use without a lock
      if m.table.used[k] then Goto(m, t, WaitWant(c, k)) else Goto(m, t, Returning(c, FailureInternal))
    case WaitWant(c, k) => LockSlot(m, t, k, WaitIn(c, k))
    case WaitIn(c, k) =>
      var s := m.table.slots[k];
      if s.arrived then UnlockSlot(m, t, k, FreeWant(c, k, Success))
      else if s.waiting then UnlockSlot(m, t, k, FreeWant(c, k, FailureInternal))
      else UnlockSlot(m, t, k, Blocked(c, k, false)).(table := SetSlot(m.table, k, s.(waiting := true)))
    case Blocked(c, k, _) => Goto(m, t, WakeWant(c, k, false))
    case WakeWant(c, k, timedOut) => LockSlot(m, t, k, WakeIn(c, k, timedOut))
    case WakeIn(c, k, timedOut) =>
      var st := if timedOut then FailureTimeout else Success;
      UnlockSlot(m, t, k, FreeWant(c, k, st)).(
        table := SetSlot(m.table, k, m.table.slots[k].(waiting := false)))
    case FreeWant(c, k, st) => LockGlobal(m, t, FreeIn(c, k, st))
    case FreeIn(c, k, st) =>
      UnlockGlobal(m, t, Returning(c, st)).(table := FreeSlot(m.table, k))
    case Returning(_, _) => m.(acts := m.acts - {t})
    case IndWant(ind) => LockGlobal(m, t, IndCheck(ind))
    case IndCheck(ind) =>
      if m.table.inUse then Goto(m, t, IndLoop(ind, 0, false, false))
      else m.(acts := m.acts - {t}, globalLock := None)
    case IndLoop(ind, i, anyUsed, consumed) =>
      if i < SLOT_COUNT && !consumed
      then Goto(m, t, IndSlotWant(ind, i, anyUsed || m.table.used[i]))
      else Goto(m, t, IndEnd(ind, anyUsed))
    case IndSlotWant(ind, i, anyUsed) => LockSlot(m, t, i, IndSlotIn(ind, i, anyUsed))
    case IndSlotIn(ind, i, anyUsed) => ScanStep(m, t, ind, i, anyUsed)
    case IndEnd(ind, anyUsed) =>
      m.(acts := m.acts - {t}, globalLock := None,
         table := if anyUsed then m.table else m.table.(inUse := false))
  }

  /** The body of the scan for one slot, under the global mutex and the lock of that slot. */
  ghost function ScanStep(m: Machine, t: Id, ind: Ind, i: nat, anyUsed: bool): Machine
    requires Shape(m) && i < SLOT_COUNT
  {
    var s := m.table.slots[i];
    if Matches(m.table.used[i], s, ind) then
      UnlockSlot(m.(acts := if s.waiting then Signal(m.acts, i) else m.acts),
                 t, i, IndLoop(ind, i + 1, anyUsed, Copies(s, ind))).(
        table := SetSlot(m.table, i, Touched(s, ind)))
    else
      UnlockSlot(m, t, i, IndLoop(ind, i + 1, anyUsed, false))
  }

  ghost function Apply(m: Machine, l: Label): Machine
    requires Shape(m) && Enabled(m, l)
  {
    match l
    case EnterCall(c) => Goto(m, m.next, AllocWant(c)).(next := m.next + 1)
    case EnterInd(ind) => Goto(m, m.next, IndWant(ind)).(next := m.next + 1)
    case Run(t) => RunStep(m, t)
    case SendResult(t, st) =>
      var pc := m.acts[t];
      Goto(m, t, if st.Success? then WaitCheck(pc.c, pc.k) else FreeWant(pc.c, pc.k, st))
    case TimeOut(t) => Goto(m, t, WakeWant(m.acts[t].c, m.acts[t].k, true))
    case SpuriousWake(t) => Goto(m, t, WakeWant(m.acts[t].c, m.acts[t].k, false))
  }

  lemma ScanKeepsShape(m: Machine, t: Id)
    requires Shape(m) && t in m.acts && m.acts[t].IndSlotIn?
    ensures Shape(ScanStep(m, t, m.acts[t].ind, m.acts[t].i, m.acts[t].anyUsed))
  {
  }

  lemma OwnerKeepsShape(m: Machine, t: Id)
    requires Shape(m) && Enabled(m, Run(t)) && m.acts[t].OwnsSlot()
    ensures Shape(RunStep(m, t))
  {
  }

  lemma OtherKeepsShape(m: Machine, t: Id)
    requires Shape(m) && Enabled(m, Run(t)) && !m.acts[t].OwnsSlot() && !m.acts[t].IndSlotIn?
    ensures Shape(RunStep(m, t))
  {
  }

  lemma ApplyKeepsShape(m: Machine, l: Label)
    requires Shape(m) && Enabled(m, l)
    ensures Shape(Apply(m, l))
  {
    if l.Run? {
      if m.acts[l.t].OwnsSlot() { OwnerKeepsShape(m, l.t); }
      else if m.acts[l.t].IndSlotIn? { ScanKeepsShape(m, l.t); }
      else { OtherKeepsShape(m, l.t); }
    }
  }

  // -------------------------------------------------------------------- history

  /** When an indication met a call: before it blocked, while it was blocked, after it
      was signalled but before it ran, after its wait had timed out but before it ran,
      or when its result was settled but its slot not yet free. */
  datatype Phase = Early | Waking | Again | Late | Ending

  datatype Hit = Hit(ind: Ind, from: Id, phase: Phase, copied: bool)

  /** What an observer knows of one invocation of loc_sync_send_req. */
  datatype CallRecord = CallRecord(
    c: Call,
    slot: Option<nat>,
    selected: bool,
    hits: seq<Hit>,
    blocked: bool,
    timedOut: bool,
    spurious: bool,
    frees: nat,
    ret: Option<Status>)

  /** A slot that an indication matched, and whether its payload went there. */
  datatype Touch = Touch(k: nat, copied: bool)

  /** calls: every invocation so far. owner: the call that each slot belongs to.
      touches: the slots that each indication has matched, in order. */
  datatype History = History(
    calls: map<Id, CallRecord>,
    owner: seq<Option<Id>>,
    touches: map<Id, seq<Touch>>)

  function InitialHistory(): History {
    History(map[], seq(SLOT_COUNT, _ => None), map[])
  }

  function PhaseOf(pc: Pc): Phase {
    match pc
    case Blocked(_, _, signalled) => if signalled then Again else Waking
    case WakeWant(_, _, timedOut) => if timedOut then Late else Again
    case FreeWant(_, _, _) => Ending
    case _ => Early
  }

  ghost function Observe(h: History, m: Machine, l: Label): History
    requires Shape(m) && Enabled(m, l) && |h.owner| == SLOT_COUNT
  {
    match l
    case EnterCall(c) =>
      h.(calls := h.calls[m.next := CallRecord(c, None, false, [], false, false, false, 0, None)])
    case EnterInd(_) => h.(touches := h.touches[m.next := []])
    case SendResult(_, _) => h
    case TimeOut(t) =>
      if t in h.calls then h.(calls := h.calls[t := h.calls[t].(timedOut := true)]) else h
    case SpuriousWake(t) =>
      if t in h.calls then h.(calls := h.calls[t := h.calls[t].(spurious := true)]) else h
    case Run(t) =>
      if m.acts[t].IndSlotIn? then ObserveScan(h, m, t)
      else if t in h.calls then ObserveCall(h, m, t)
      else h
  }

  ghost function ObserveCall(h: History, m: Machine, t: Id): History
    requires Shape(m) && Enabled(m, Run(t)) && |h.owner| == SLOT_COUNT && t in h.calls
  {
    var r := h.calls[t];
    match m.acts[t]
    case AllocIn(c) =>
      var k := FirstFree(m.table.used);
      if k < SLOT_COUNT
      then h.(calls := h.calls[t := r.(slot := Some(k))], owner := h.owner[k := Some(t)])
      else h
    case SelectIn(_, _) => h.(calls := h.calls[t := r.(selected := true)])
    case WaitIn(c, k) =>
      var s := m.table.slots[k];
      if s.arrived || s.waiting then h else h.(calls := h.calls[t := r.(blocked := true)])
    case FreeIn(c, k, _) =>
      h.(calls := h.calls[t := r.(frees := r.frees + 1)], owner := h.owner[k := None])
    case Returning(_, st) => h.(calls := h.calls[t := r.(ret := Some(st))])
    case _ => h
  }

  ghost function ObserveScan(h: History, m: Machine, t: Id): History
    requires Shape(m) && |h.owner| == SLOT_COUNT && t in m.acts && m.acts[t].IndSlotIn?
  {
    var i := m.acts[t].i;
    var ind := m.acts[t].ind;
    var s := m.table.slots[i];
    var copied := Copies(s, ind);
    if !Matches(m.table.used[i], s, ind) then h
    else
      var h1 := if t in h.touches then h.(touches := h.touches[t := h.touches[t] + [Touch(i, copied)]]) else h;
      if h.owner[i].Some? && h.owner[i].value in h.calls && h.owner[i].value in m.acts then
        var u := h.owner[i].value;
        var r := h.calls[u];
        h1.(calls := h.calls[u := r.(hits := r.hits + [Hit(ind, t, PhaseOf(m.acts[u]), copied)])])
      else h1
  }

  // ----------------------------------------------------------------------- runs

  datatype State = State(m: Machine, h: History)

  function InitialState(): State {
    State(InitialMachine(), InitialHistory())
  }

  ghost predicate CanStep(s: State, l: Label) {
    Shape(s.m) && |s.h.owner| == SLOT_COUNT && Enabled(s.m, l)
  }

  ghost function Next(s: State, l: Label): State
    requires CanStep(s, l)
  {
    State(Apply(s.m, l), Observe(s.h, s.m, l))
  }

  /** ls is a possible interleaving from the initial state. */
  ghost predicate Possible(ls: seq<Label>)
    decreases |ls|, 0
  {
    ls == [] || (Possible(ls[..|ls| - 1]) && CanStep(After(ls[..|ls| - 1]), ls[|ls| - 1]))
  }

  ghost function After(ls: seq<Label>): (s: State)
    requires Possible(ls)
    ensures Shape(s.m) && |s.h.owner| == SLOT_COUNT
    decreases |ls|, 1
  {
    if ls == [] then InitialState()
    else
      var before := After(ls[..|ls| - 1]);
      ApplyKeepsShape(before.m, ls[|ls| - 1]);
      Next(before, ls[|ls| - 1])
  }

  lemma Extend(ls: seq<Label>, l: Label)
    requires Possible(ls) && CanStep(After(ls), l)
    ensures Possible(ls + [l]) && After(ls + [l]) == Next(After(ls), l)
  {
    assert (ls + [l])[..|ls + [l]| - 1] == ls;
  }
}
