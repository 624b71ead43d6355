/** What every step of the protocol keeps. */
module SyncInvariant {
  import opened Options
  import opened SyncTable
  import opened SyncProtocol

  // ------------------------------------------------------------------ locks

  ghost predicate GlobalLockOk(m: Machine) {
    && (m.globalLock.Some? ==> m.globalLock.value in m.acts)
    && forall t :: t in m.acts ==> (m.acts[t].HoldsGlobal() <==> m.globalLock == Some(t))
  }

  ghost predicate SlotLockOk(m: Machine, j: nat)
    requires j < |m.slotLocks|
  {
    && (m.slotLocks[j].Some? ==> m.slotLocks[j].value in m.acts)
    && forall t :: t in m.acts ==> (m.acts[t].HoldsLock(j) <==> m.slotLocks[j] == Some(t))
  }

  ghost predicate Locks(m: Machine) {
    && |m.slotLocks| == SLOT_COUNT
    && GlobalLockOk(m)
    && forall j :: 0 <= j < SLOT_COUNT ==> SlotLockOk(m, j)
  }

  // -------------------------------------------------------------- ownership

  /** The slots in use and the calls between alloc and free correspond one to one. */
  ghost predicate Owners(m: Machine, owner: seq<Option<Id>>) {
    && |owner| == SLOT_COUNT && WellFormed(m.table)
    && (forall k :: 0 <= k < SLOT_COUNT ==>
          && (m.table.used[k] <==> owner[k].Some?)
          && (owner[k].Some? ==>
                var t := owner[k].value;
                t in m.acts && m.acts[t].OwnsSlot() && m.acts[t].k == k))
    && forall t :: t in m.acts && m.acts[t].OwnsSlot() ==>
                     m.acts[t].k < SLOT_COUNT && owner[m.acts[t].k] == Some(t)
  }

  // ----------------------------------------------------------- slot contents

  /** The fields of a slot are determined by where its owner is. */
  predicate Fits(s: Slot, pc: Pc, hits: seq<Hit>) {
    match pc
    case SelectWant(_, _) => s == RESET_SLOT
    case SelectIn(_, _) => s == RESET_SLOT
    case Sending(c, _) => s == SelectedSlot(c).(arrived := hits != [])
    case WaitCheck(c, _) => s == SelectedSlot(c).(arrived := hits != [])
    case WaitWant(c, _) => s == SelectedSlot(c).(arrived := hits != [])
    case WaitIn(c, _) => s == SelectedSlot(c).(arrived := hits != [])
    case Blocked(c, _, _) => s == SelectedSlot(c).(waiting := true)
    case WakeWant(c, _, _) => s == SelectedSlot(c).(waiting := true)
    case WakeIn(c, _, _) => s == SelectedSlot(c).(waiting := true)
    case FreeWant(c, _, _) => s == SelectedSlot(c).(arrived := s.arrived)
    case FreeIn(c, _, _) => s == SelectedSlot(c).(arrived := s.arrived)
    case _ => false
  }

  ghost predicate SlotOk(s: State, k: nat)
    requires k < SLOT_COUNT && |s.h.owner| == SLOT_COUNT && WellFormed(s.m.table)
  {
    match s.h.owner[k]
    case None => s.m.table.slots[k] == RESET_SLOT
    case Some(t) => t in s.m.acts && t in s.h.calls && Fits(s.m.table.slots[k], s.m.acts[t], s.h.calls[t].hits)
  }

  ghost predicate Slots(s: State) {
    && |s.h.owner| == SLOT_COUNT && WellFormed(s.m.table)
    && forall k :: 0 <= k < SLOT_COUNT ==> SlotOk(s, k)
  }

  // ------------------------------------------------------- indication scans

  ghost predicate ScanOk(t: Table, pc: Pc)
    requires WellFormed(t)
  {
    && (pc.IsInd() ==> pc.ind.handle != INVALID_HANDLE)
    && match pc
       case IndLoop(_, i, anyUsed, consumed) =>
         i <= SLOT_COUNT && (anyUsed <==> UsedBelow(t.used, i)) && (consumed ==> anyUsed)
       case IndSlotWant(_, i, anyUsed) => i < SLOT_COUNT && (anyUsed <==> UsedBelow(t.used, i + 1))
       case IndSlotIn(_, i, anyUsed) => i < SLOT_COUNT && (anyUsed <==> UsedBelow(t.used, i + 1))
       case IndEnd(_, anyUsed) => anyUsed <==> UsedBelow(t.used, SLOT_COUNT)
       case _ => true
  }

  ghost predicate Scans(m: Machine) {
    && WellFormed(m.table)
    && (m.table.inUse <==> UsedBelow(m.table.used, SLOT_COUNT))
    && forall t :: t in m.acts ==> ScanOk(m.table, m.acts[t])
  }

  /** The slots an indication has matched are increasing, lie below its scan, and only
      the last of them can have received the payload. */
  predicate TouchesOk(ts: seq<Touch>) {
    && (forall i, j :: 0 <= i < j < |ts| ==> ts[i].k < ts[j].k)
    && forall i :: 0 <= i < |ts| - 1 ==> !ts[i].copied
  }

  predicate TouchesAt(ts: seq<Touch>, pc: Pc) {
    && TouchesOk(ts)
    && match pc
       case IndWant(_) => ts == []
       case IndCheck(_) => ts == []
       case IndLoop(_, i, _, consumed) => TouchesBelow(ts, i) && (consumed || NoneCopied(ts))
       case IndSlotWant(_, i, _) => TouchesBelow(ts, i) && NoneCopied(ts)
       case IndSlotIn(_, i, _) => TouchesBelow(ts, i) && NoneCopied(ts)
       case _ => true
  }

  predicate TouchesBelow(ts: seq<Touch>, n: nat) {
    forall j :: 0 <= j < |ts| ==> ts[j].k < n
  }

  predicate NoneCopied(ts: seq<Touch>) {
    forall j :: 0 <= j < |ts| ==> !ts[j].copied
  }

  ghost predicate Touches(s: State) {
    && (forall t :: t in s.h.touches ==> t < s.m.next && TouchesOk(s.h.touches[t]))
    && forall t :: t in s.m.acts && s.m.acts[t].IsInd() ==>
                     t in s.h.touches && TouchesAt(s.h.touches[t], s.m.acts[t])
  }

  // ------------------------------------------------------------ call records

  /** The i-th indication that met a call c: it was the one the call asked for, its
      payload was copied exactly when both sides have one, only the first can come before
      the wait, and only the first can be the one that wakes it. */
  predicate HitOk(c: Call, blocked: bool, h: Hit, i: nat) {
    && h.ind.handle == c.handle && h.ind.id == c.indId
    && (h.copied <==> c.buffer != NO_BUFFER && h.ind.hasPayload)
    && (h.phase == Early ==> i == 0 && !blocked)
    && (h.phase == Waking ==> i == 0 && blocked)
    && (!blocked ==> h.phase == Early || h.phase == Ending)
  }

  ghost predicate HitsFor(c: Call, blocked: bool, hits: seq<Hit>) {
    forall i :: 0 <= i < |hits| ==> HitOk(c, blocked, hits[i], i)
  }

  ghost predicate HitsOk(r: CallRecord) {
    HitsFor(r.c, r.blocked, r.hits)
  }

  predicate Gone(r: CallRecord) {
    r.ret.Some? && Finished(r, r.ret.value)
  }

  /** Some indication met the call while its result was still open. */
  predicate Evidence(r: CallRecord) {
    r.hits != [] && r.hits[0].phase != Ending
  }

  /** What the status of a call that owned a slot says. */
  predicate Outcome(r: CallRecord, st: Status) {
    if r.blocked then
      && st == (if r.timedOut then FailureTimeout else Success)
      && !(r.timedOut && r.spurious)
      && (!r.timedOut && !r.spurious ==> Evidence(r))
    else
      && !r.timedOut && !r.spurious
      && (st.Success? || st.SendFailed?)
      && (st.Success? ==> Evidence(r))
  }

  /** A call that has left: without a slot it reports success and did nothing; with one
      it freed it exactly once. */
  predicate Finished(r: CallRecord, st: Status) {
    if r.slot.None? then
      st == Success && !r.selected && r.hits == [] && !r.blocked && r.frees == 0 && !r.timedOut && !r.spurious
    else
      r.selected && r.frees == 1 && Outcome(r, st)
  }

  predicate Active(r: CallRecord, pc: Pc) {
    match pc
    case AllocWant(c) => r == CallRecord(c, None, false, [], false, false, false, 0, None)
    case AllocIn(c) => r == CallRecord(c, None, false, [], false, false, false, 0, None)
    case SelectWant(c, k) => r == CallRecord(c, Some(k), false, [], false, false, false, 0, None)
    case SelectIn(c, k) => r == CallRecord(c, Some(k), false, [], false, false, false, 0, None)
    case Sending(c, k) => BeforeWait(r, c, k)
    case WaitCheck(c, k) => BeforeWait(r, c, k)
    case WaitWant(c, k) => BeforeWait(r, c, k)
    case WaitIn(c, k) => BeforeWait(r, c, k)
    case Blocked(c, k, signalled) =>
      r == CallRecord(c, Some(k), true, r.hits, true, false, false, 0, None) && Open(r)
      && (signalled <==> r.hits != [])
    case WakeWant(c, k, timedOut) => Woken(r, c, k, timedOut)
    case WakeIn(c, k, timedOut) => Woken(r, c, k, timedOut)
    case FreeWant(c, k, st) => Leaving(r, c, k, st)
    case FreeIn(c, k, st) => Leaving(r, c, k, st)
    case Returning(c, st) => r.c == c && r.ret.None? && Finished(r, st)
    case _ => false
  }

  /** No indication met the call after its result was settled. */
  predicate Open(r: CallRecord) {
    forall i :: 0 <= i < |r.hits| ==> r.hits[i].phase != Ending
  }

  predicate BeforeWait(r: CallRecord, c: Call, k: nat) {
    r == CallRecord(c, Some(k), true, r.hits, false, false, false, 0, None) && Open(r) && |r.hits| <= 1
  }

  predicate Woken(r: CallRecord, c: Call, k: nat, timedOut: bool) {
    && r == CallRecord(c, Some(k), true, r.hits, true, timedOut, r.spurious, 0, None)
    && Open(r) && !(timedOut && r.spurious)
    && (timedOut || r.spurious || r.hits != [])
  }

  predicate Leaving(r: CallRecord, c: Call, k: nat, st: Status) {
    && r.c == c && r.slot == Some(k) && r.selected && r.frees == 0 && r.ret.None?
    && Outcome(r, st)
  }

  ghost predicate RecordOk(s: State, t: Id)
    requires t in s.h.calls
  {
    && t < s.m.next
    && HitsOk(s.h.calls[t])
    && if t in s.m.acts then Active(s.h.calls[t], s.m.acts[t]) else Gone(s.h.calls[t])
  }

  ghost predicate Records(s: State) {
    && (forall t :: t in s.m.acts ==> t < s.m.next && (t in s.h.calls <==> !s.m.acts[t].IsInd()))
    && forall t :: t in s.h.calls ==> RecordOk(s, t)
  }

  ghost predicate Inv(s: State) {
    && Shape(s.m)
    && Locks(s.m)
    && Owners(s.m, s.h.owner)
    && Slots(s)
    && Scans(s.m)
    && Touches(s)
    && Records(s)
  }

  // ------------------------------------------ what a step of one activation may do

  predicate HoldsGlobalAt(m: Machine, t: Id) {
    t in m.acts && m.acts[t].HoldsGlobal()
  }

  predicate HoldsLockAt(m: Machine, t: Id, j: nat) {
    t in m.acts && m.acts[t].HoldsLock(j)
  }

  ghost predicate OthersSame(m: Machine, m': Machine, t: Id) {
    forall u :: u != t ==>
                  && (u in m.acts <==> u in m'.acts)
                  && (u in m.acts ==> m'.acts[u] == m.acts[u])
  }

  /** Only t takes or leaves mutexes, as its place before and after says. */
  ghost predicate LockMove(m: Machine, m': Machine, t: Id) {
    && |m.slotLocks| == SLOT_COUNT && |m'.slotLocks| == SLOT_COUNT
    && m'.globalLock == (if HoldsGlobalAt(m', t) then Some(t)
                         else if HoldsGlobalAt(m, t) then None else m.globalLock)
    && (HoldsGlobalAt(m', t) && !HoldsGlobalAt(m, t) ==> m.globalLock.None?)
    && forall j :: 0 <= j < SLOT_COUNT ==> SlotLockMove(m, m', t, j)
  }

  ghost predicate SlotLockMove(m: Machine, m': Machine, t: Id, j: nat)
    requires j < |m.slotLocks| && j < |m'.slotLocks|
  {
    && m'.slotLocks[j] == (if HoldsLockAt(m', t, j) then Some(t)
                           else if HoldsLockAt(m, t, j) then None else m.slotLocks[j])
    && (HoldsLockAt(m', t, j) && !HoldsLockAt(m, t, j) ==> m.slotLocks[j].None?)
  }

  lemma LocksKept(m: Machine, m': Machine, t: Id)
    requires Locks(m) && OthersSame(m, m', t) && LockMove(m, m', t)
    ensures Locks(m')
  {
    forall j | 0 <= j < SLOT_COUNT
      ensures SlotLockOk(m', j)
    {
      assert SlotLockOk(m, j) && SlotLockMove(m, m', t, j);
    }
  }

  /** A step of a call inside its slot, or of an indication on that slot: only the
      contents of the slot, the place of its owner and the record of its owner change. */
  ghost predicate OwnStep(s: State, s': State, t: Id) {
    && t in s.m.acts && t in s'.m.acts && t in s.h.calls && t in s'.h.calls
    && s.m.acts[t].OwnsSlot() && s'.m.acts[t].OwnsSlot() && s.m.acts[t].k == s'.m.acts[t].k < SLOT_COUNT
    && OthersSame(s.m, s'.m, t)
    && s'.m.next == s.m.next
    && WellFormed(s.m.table) && WellFormed(s'.m.table)
    && s'.m.table.used == s.m.table.used && s'.m.table.inUse == s.m.table.inUse
    && (forall j :: 0 <= j < SLOT_COUNT && j != s.m.acts[t].k ==> s'.m.table.slots[j] == s.m.table.slots[j])
    && s'.h.owner == s.h.owner && s'.h.touches == s.h.touches
    && (forall u :: u in s.h.calls <==> u in s'.h.calls)
    && (forall u :: u in s.h.calls && u != t ==> s'.h.calls[u] == s.h.calls[u])
  }

  lemma OwnStepRecords(s: State, s': State, t: Id)
    requires Records(s) && OwnStep(s, s', t)
    requires HitsOk(s'.h.calls[t]) && Active(s'.h.calls[t], s'.m.acts[t])
    ensures Records(s')
  {
    forall u | u in s'.h.calls
      ensures RecordOk(s', u)
    {
      assert u == t || RecordOk(s, u);
    }
  }

  lemma OwnStepSlots(s: State, s': State, t: Id)
    requires Slots(s) && Owners(s.m, s.h.owner) && OwnStep(s, s', t)
    requires Fits(s'.m.table.slots[s.m.acts[t].k], s'.m.acts[t], s'.h.calls[t].hits)
    ensures Slots(s') && Owners(s'.m, s'.h.owner)
  {
    forall k | 0 <= k < SLOT_COUNT
      ensures SlotOk(s', k)
    {
      assert SlotOk(s, k);
    }
  }

  lemma OwnStepRest(s: State, s': State, t: Id)
    requires Shape(s.m) && Scans(s.m) && Touches(s) && OwnStep(s, s', t)
    requires |s'.m.slotLocks| == SLOT_COUNT
    ensures Shape(s'.m) && Scans(s'.m) && Touches(s')
  {
  }

  lemma OwnStepKeepsInv(s: State, s': State, t: Id)
    requires Inv(s) && OwnStep(s, s', t) && LockMove(s.m, s'.m, t)
    requires Fits(s'.m.table.slots[s.m.acts[t].k], s'.m.acts[t], s'.h.calls[t].hits)
    requires HitsOk(s'.h.calls[t]) && Active(s'.h.calls[t], s'.m.acts[t])
    ensures Inv(s')
  {
    assert Locks(s'.m) by { LocksKept(s.m, s'.m, t); }
    assert Records(s') by { OwnStepRecords(s, s', t); }
    assert Slots(s') && Owners(s'.m, s'.h.owner) by { OwnStepSlots(s, s', t); }
    OwnStepRest(s, s', t);
  }

  /** A step of an activation that owns no slot: the table stays as it is, and
      activation t may enter, move or leave. */
  ghost predicate PlainStep(s: State, s': State, t: Id) {
    && (t in s.m.acts ==> !s.m.acts[t].OwnsSlot())
    && (t in s'.m.acts ==> !s'.m.acts[t].OwnsSlot())
    && OthersSame(s.m, s'.m, t)
    && s.m.next <= s'.m.next && t < s'.m.next
    && s'.m.table == s.m.table && s'.h.owner == s.h.owner
    && (forall u :: u != t ==> (u in s.h.calls <==> u in s'.h.calls))
    && (forall u :: u != t && u in s.h.calls ==> s'.h.calls[u] == s.h.calls[u])
    && (forall u :: u != t ==> (u in s.h.touches <==> u in s'.h.touches))
    && (forall u :: u != t && u in s.h.touches ==> s'.h.touches[u] == s.h.touches[u])
  }

  /** Everything the invariant says about t alone. */
  ghost predicate PlainOk(s: State, t: Id) {
    && WellFormed(s.m.table)
    && (t in s.m.acts ==> ScanOk(s.m.table, s.m.acts[t]) && (t in s.h.calls <==> !s.m.acts[t].IsInd()))
    && (t in s.m.acts && s.m.acts[t].IsInd() ==> t in s.h.touches && TouchesAt(s.h.touches[t], s.m.acts[t]))
    && (t in s.h.touches ==> t < s.m.next && TouchesOk(s.h.touches[t]))
    && (t in s.h.calls ==> RecordOk(s, t))
  }

  lemma PlainStepRecords(s: State, s': State, t: Id)
    requires Records(s) && PlainStep(s, s', t) && PlainOk(s', t)
    ensures Records(s')
  {
    forall u | u in s'.h.calls
      ensures RecordOk(s', u)
    {
      assert u == t || RecordOk(s, u);
    }
  }

  lemma PlainStepSlots(s: State, s': State, t: Id)
    requires Slots(s) && Owners(s.m, s.h.owner) && PlainStep(s, s', t)
    ensures Slots(s') && Owners(s'.m, s'.h.owner)
  {
    forall k | 0 <= k < SLOT_COUNT
      ensures SlotOk(s', k)
    {
      assert SlotOk(s, k);
    }
  }

  lemma PlainStepRest(s: State, s': State, t: Id)
    requires Shape(s.m) && Scans(s.m) && Touches(s) && PlainStep(s, s', t) && PlainOk(s', t)
    requires |s'.m.slotLocks| == SLOT_COUNT
    ensures Shape(s'.m) && Scans(s'.m) && Touches(s')
  {
  }

  lemma PlainStepKeepsInv(s: State, s': State, t: Id)
    requires Inv(s) && PlainStep(s, s', t) && LockMove(s.m, s'.m, t) && PlainOk(s', t)
    ensures Inv(s')
  {
    assert Locks(s'.m) by { LocksKept(s.m, s'.m, t); }
    assert Records(s') by { PlainStepRecords(s, s', t); }
    assert Slots(s') && Owners(s'.m, s'.h.owner) by { PlainStepSlots(s, s', t); }
    PlainStepRest(s, s', t);
  }

  // -------------------------------------------------------------- preservation

  lemma InitialInv()
    ensures Inv(InitialState())
  {
  }

  lemma EnterKeepsInv(s: State, l: Label)
    requires Inv(s) && Enabled(s.m, l) && (l.EnterCall? || l.EnterInd?)
    ensures Inv(Next(s, l))
  {
    PlainStepKeepsInv(s, Next(s, l), s.m.next);
  }

  /** Steps of a call that owns no slot, except the one that allocates. */
  lemma AllocWantKeepsInv(s: State, t: Id)
    requires Inv(s) && Enabled(s.m, Run(t)) && s.m.acts[t].AllocWant?
    ensures Inv(Next(s, Run(t)))
  {
    var s' := Next(s, Run(t));
    assert s'.m == LockGlobal(s.m, t, AllocIn(s.m.acts[t].c)) && s'.h == s.h;
    assert RecordOk(s, t);
    PlainStepKeepsInv(s, s', t);
  }

  lemma ReturningKeepsInv(s: State, t: Id)
    requires Inv(s) && Enabled(s.m, Run(t)) && s.m.acts[t].Returning?
    ensures Inv(Next(s, Run(t)))
  {
    var s' := Next(s, Run(t));
    assert RecordOk(s, t);
    assert s'.h.calls[t] == s.h.calls[t].(ret := Some(s.m.acts[t].st));
    PlainStepKeepsInv(s, s', t);
  }

  // calls inside their slot

  /** What the invariant says about a call that owns a slot. */
  ghost predicate OwnReady(s: State, t: Id) {
    && Shape(s.m) && |s.h.owner| == SLOT_COUNT
    && t in s.m.acts && s.m.acts[t].OwnsSlot() && s.m.acts[t].k < SLOT_COUNT && t in s.h.calls
    && s.m.table.used[s.m.acts[t].k]
    && HitsOk(s.h.calls[t]) && Active(s.h.calls[t], s.m.acts[t])
    && Fits(s.m.table.slots[s.m.acts[t].k], s.m.acts[t], s.h.calls[t].hits)
  }

  ghost predicate OwnDone(s: State, s': State, t: Id) {
    && OwnStep(s, s', t) && LockMove(s.m, s'.m, t)
    && Fits(s'.m.table.slots[s.m.acts[t].k], s'.m.acts[t], s'.h.calls[t].hits)
    && HitsOk(s'.h.calls[t]) && Active(s'.h.calls[t], s'.m.acts[t])
  }

  lemma OwnFacts(s: State, t: Id)
    requires Inv(s) && t in s.m.acts && s.m.acts[t].OwnsSlot()
    ensures OwnReady(s, t) && s.h.owner[s.m.acts[t].k] == Some(t)
  {
    assert RecordOk(s, t);
    assert SlotOk(s, s.m.acts[t].k);
  }

  lemma SelectWantStep(s: State, t: Id)
    requires OwnReady(s, t) && Enabled(s.m, Run(t)) && s.m.acts[t].SelectWant?
    ensures OwnDone(s, Next(s, Run(t)), t)
  {
  }

  lemma SelectInStep(s: State, t: Id)
    requires OwnReady(s, t) && Enabled(s.m, Run(t)) && s.m.acts[t].SelectIn?
    ensures OwnDone(s, Next(s, Run(t)), t)
  {
  }

  lemma WaitCheckStep(s: State, t: Id)
    requires OwnReady(s, t) && Enabled(s.m, Run(t)) && s.m.acts[t].WaitCheck?
    ensures OwnDone(s, Next(s, Run(t)), t)
  {
  }

  lemma WaitWantStep(s: State, t: Id)
    requires OwnReady(s, t) && Enabled(s.m, Run(t)) && s.m.acts[t].WaitWant?
    ensures OwnDone(s, Next(s, Run(t)), t)
  {
  }

  lemma WaitInStep(s: State, t: Id)
    requires OwnReady(s, t) && Enabled(s.m, Run(t)) && s.m.acts[t].WaitIn?
    ensures OwnDone(s, Next(s, Run(t)), t)
  {
    WaitInMoves(s, t);
    WaitInRecorded(s, t);
  }

  lemma WaitInMoves(s: State, t: Id)
    requires OwnReady(s, t) && Enabled(s.m, Run(t)) && s.m.acts[t].WaitIn?
    ensures OwnStep(s, Next(s, Run(t)), t) && LockMove(s.m, Next(s, Run(t)).m, t)
  {
  }

  lemma WaitInRecorded(s: State, t: Id)
    requires OwnReady(s, t) && Enabled(s.m, Run(t)) && s.m.acts[t].WaitIn?
    requires OwnStep(s, Next(s, Run(t)), t)
    ensures var s' := Next(s, Run(t));
            Fits(s'.m.table.slots[s.m.acts[t].k], s'.m.acts[t], s'.h.calls[t].hits)
            && HitsOk(s'.h.calls[t]) && Active(s'.h.calls[t], s'.m.acts[t])
  {
  }

  lemma BlockedStep(s: State, t: Id)
    requires OwnReady(s, t) && Enabled(s.m, Run(t)) && s.m.acts[t].Blocked?
    ensures OwnDone(s, Next(s, Run(t)), t)
  {
  }

  lemma WakeWantStep(s: State, t: Id)
    requires OwnReady(s, t) && Enabled(s.m, Run(t)) && s.m.acts[t].WakeWant?
    ensures OwnDone(s, Next(s, Run(t)), t)
  {
  }

  lemma WakeInStep(s: State, t: Id)
    requires OwnReady(s, t) && Enabled(s.m, Run(t)) && s.m.acts[t].WakeIn?
    ensures OwnDone(s, Next(s, Run(t)), t)
  {
  }

  lemma FreeWantStep(s: State, t: Id)
    requires OwnReady(s, t) && Enabled(s.m, Run(t)) && s.m.acts[t].FreeWant?
    ensures OwnDone(s, Next(s, Run(t)), t)
  {
  }

  lemma SendResultStep(s: State, l: Label)
    requires l.SendResult? && OwnReady(s, l.t) && Enabled(s.m, l)
    ensures OwnDone(s, Next(s, l), l.t)
  {
  }

  lemma TimeOutStep(s: State, l: Label)
    requires l.TimeOut? && OwnReady(s, l.t) && Enabled(s.m, l)
    ensures OwnDone(s, Next(s, l), l.t)
  {
  }

  lemma SpuriousWakeStep(s: State, l: Label)
    requires l.SpuriousWake? && OwnReady(s, l.t) && Enabled(s.m, l)
    ensures OwnDone(s, Next(s, l), l.t)
  {
  }

  /** The steps of a call that its environment decides. */
  lemma DecidedKeepsInv(s: State, l: Label)
    requires Inv(s) && Enabled(s.m, l) && (l.SendResult? || l.TimeOut? || l.SpuriousWake?)
    ensures Inv(Next(s, l))
  {
    OwnFacts(s, l.t);
    match l {
      case SendResult(_, _) => SendResultStep(s, l);
      case TimeOut(_) => TimeOutStep(s, l);
      case SpuriousWake(_) => SpuriousWakeStep(s, l);
    }
    OwnStepKeepsInv(s, Next(s, l), l.t);
  }

  lemma OwnerKeepsInv(s: State, t: Id)
    requires Inv(s) && Enabled(s.m, Run(t)) && s.m.acts[t].OwnsSlot() && !s.m.acts[t].FreeIn?
    ensures Inv(Next(s, Run(t)))
  {
    OwnFacts(s, t);
    match s.m.acts[t] {
      case SelectWant(_, _) => SelectWantStep(s, t);
      case SelectIn(_, _) => SelectInStep(s, t);
      case WaitCheck(_, _) => WaitCheckStep(s, t);
      case WaitWant(_, _) => WaitWantStep(s, t);
      case WaitIn(_, _) => WaitInStep(s, t);
      case Blocked(_, _, _) => BlockedStep(s, t);
      case WakeWant(_, _, _) => WakeWantStep(s, t);
      case WakeIn(_, _, _) => WakeInStep(s, t);
      case FreeWant(_, _, _) => FreeWantStep(s, t);
    }
    OwnStepKeepsInv(s, Next(s, Run(t)), t);
  }

  // allocation and release

  lemma AllocFullStep(s: State, t: Id)
    requires CanStep(s, Run(t)) && s.m.acts[t].AllocIn? && FirstFree(s.m.table.used) == SLOT_COUNT
    requires s.m.globalLock == Some(t) && t in s.h.calls && RecordOk(s, t)
    requires t in s.h.touches ==> TouchesOk(s.h.touches[t])
    ensures PlainStep(s, Next(s, Run(t)), t) && LockMove(s.m, Next(s, Run(t)).m, t)
    ensures PlainOk(Next(s, Run(t)), t)
  {
  }

  lemma AllocFullKeepsInv(s: State, t: Id)
    requires Inv(s) && Enabled(s.m, Run(t)) && s.m.acts[t].AllocIn?
    requires FirstFree(s.m.table.used) == SLOT_COUNT
    ensures Inv(Next(s, Run(t)))
  {
    assert RecordOk(s, t);
    AllocFullStep(s, t);
    PlainStepKeepsInv(s, Next(s, Run(t)), t);
  }

  /** While t holds the global mutex no other activation is in a section under it. */
  lemma GlobalLockAlone(s: State, t: Id)
    requires Inv(s) && t in s.m.acts && s.m.acts[t].HoldsGlobal()
    ensures forall u :: u in s.m.acts && u != t ==> !s.m.acts[u].HoldsGlobal()
  {
  }

  /** The table after an allocation or a release: only slot k changes hands. */
  ghost predicate HandOver(s: State, s': State, t: Id, k: nat) {
    && k < SLOT_COUNT && t in s.m.acts && t in s'.m.acts && t in s.h.calls
    && OthersSame(s.m, s'.m, t) && s'.m.next == s.m.next
    && WellFormed(s.m.table) && WellFormed(s'.m.table) && |s.h.owner| == |s'.h.owner| == SLOT_COUNT
    && (forall j :: 0 <= j < SLOT_COUNT && j != k ==>
          s'.m.table.used[j] == s.m.table.used[j] && s'.m.table.slots[j] == s.m.table.slots[j]
          && s'.h.owner[j] == s.h.owner[j])
    && (s'.m.table.inUse <==> UsedBelow(s'.m.table.used, SLOT_COUNT))
    && s'.h.touches == s.h.touches
    && (forall u :: u in s.h.calls <==> u in s'.h.calls)
    && (forall u :: u in s.h.calls && u != t ==> s'.h.calls[u] == s.h.calls[u])
    && s.m.acts[t].HoldsGlobal() && !s.m.acts[t].IsInd() && !s'.m.acts[t].IsInd()
    && (s'.m.acts[t].OwnsSlot() ==> s'.m.acts[t].k == k)
  }

  lemma HandOverRest(s: State, s': State, t: Id, k: nat)
    requires Inv(s) && HandOver(s, s', t, k)
    requires |s'.m.slotLocks| == SLOT_COUNT
    ensures Shape(s'.m) && Scans(s'.m) && Touches(s')
  {
    GlobalLockAlone(s, t);
  }

  lemma HandOverRecords(s: State, s': State, t: Id, k: nat)
    requires Records(s) && HandOver(s, s', t, k)
    requires HitsOk(s'.h.calls[t]) && Active(s'.h.calls[t], s'.m.acts[t])
    ensures Records(s')
  {
    forall u | u in s'.h.calls
      ensures RecordOk(s', u)
    {
      assert u == t || RecordOk(s, u);
    }
  }

  lemma HandOverSlots(s: State, s': State, t: Id, k: nat)
    requires Slots(s) && Owners(s.m, s.h.owner) && HandOver(s, s', t, k)
    requires SlotOk(s', k)
    requires s'.m.table.used[k] <==> s'.h.owner[k].Some?
    requires s'.h.owner[k] == if s'.m.acts[t].OwnsSlot() then Some(t) else None
    requires s.h.owner[k] == if s.m.acts[t].OwnsSlot() then Some(t) else None
    ensures Slots(s') && Owners(s'.m, s'.h.owner)
  {
    forall j | 0 <= j < SLOT_COUNT
      ensures SlotOk(s', j)
    {
      assert j == k || SlotOk(s, j);
    }
  }

  lemma HandOverKeepsInv(s: State, s': State, t: Id, k: nat)
    requires Inv(s) && HandOver(s, s', t, k) && LockMove(s.m, s'.m, t)
    requires HitsOk(s'.h.calls[t]) && Active(s'.h.calls[t], s'.m.acts[t])
    requires SlotOk(s', k)
    requires s'.m.table.used[k] <==> s'.h.owner[k].Some?
    requires s'.h.owner[k] == if s'.m.acts[t].OwnsSlot() then Some(t) else None
    requires s.h.owner[k] == if s.m.acts[t].OwnsSlot() then Some(t) else None
    ensures Inv(s')
  {
    assert Locks(s'.m) by { LocksKept(s.m, s'.m, t); }
    assert Records(s') by { HandOverRecords(s, s', t, k); }
    assert Slots(s') && Owners(s'.m, s'.h.owner) by { HandOverSlots(s, s', t, k); }
    HandOverRest(s, s', t, k);
  }

  lemma AllocHandOver(s: State, t: Id, k: nat)
    requires CanStep(s, Run(t)) && s.m.acts[t].AllocIn? && t in s.h.calls
    requires k == FirstFree(s.m.table.used) < SLOT_COUNT
    ensures HandOver(s, Next(s, Run(t)), t, k)
  {
    assert Next(s, Run(t)).m.table.used[k];
  }

  lemma AllocLocks(s: State, t: Id)
    requires CanStep(s, Run(t)) && s.m.acts[t].AllocIn? && FirstFree(s.m.table.used) < SLOT_COUNT
    ensures LockMove(s.m, Next(s, Run(t)).m, t)
  {
  }

  lemma AllocRecord(s: State, t: Id)
    requires CanStep(s, Run(t)) && s.m.acts[t].AllocIn? && t in s.h.calls && RecordOk(s, t)
    requires FirstFree(s.m.table.used) < SLOT_COUNT && t < s.m.next
    requires s.m.table.slots[FirstFree(s.m.table.used)] == RESET_SLOT
    ensures var s' := Next(s, Run(t));
            HitsOk(s'.h.calls[t]) && Active(s'.h.calls[t], s'.m.acts[t]) && SlotOk(s', FirstFree(s.m.table.used))
  {
  }

  lemma AllocInKeepsInv(s: State, t: Id)
    requires Inv(s) && Enabled(s.m, Run(t)) && s.m.acts[t].AllocIn?
    requires FirstFree(s.m.table.used) < SLOT_COUNT
    ensures Inv(Next(s, Run(t)))
  {
    var k := FirstFree(s.m.table.used);
    assert RecordOk(s, t) && SlotOk(s, k);
    AllocHandOver(s, t, k);
    AllocLocks(s, t);
    AllocRecord(s, t);
    HandOverKeepsInv(s, Next(s, Run(t)), t, k);
  }

  lemma FreeHandOver(s: State, t: Id, k: nat)
    requires OwnReady(s, t) && Enabled(s.m, Run(t)) && s.m.acts[t].FreeIn? && s.m.acts[t].k == k
    requires s.m.table.inUse
    ensures HandOver(s, Next(s, Run(t)), t, k)
  {
  }

  lemma FreeLocks(s: State, t: Id)
    requires OwnReady(s, t) && Enabled(s.m, Run(t)) && s.m.acts[t].FreeIn?
    ensures LockMove(s.m, Next(s, Run(t)).m, t)
  {
  }

  lemma FreeRecord(s: State, t: Id, k: nat)
    requires OwnReady(s, t) && Enabled(s.m, Run(t)) && s.m.acts[t].FreeIn? && s.m.acts[t].k == k
    ensures var s' := Next(s, Run(t));
            HitsOk(s'.h.calls[t]) && Active(s'.h.calls[t], s'.m.acts[t]) && SlotOk(s', k)
  {
  }

  lemma FreeInKeepsInv(s: State, t: Id)
    requires Inv(s) && Enabled(s.m, Run(t)) && s.m.acts[t].FreeIn?
    ensures Inv(Next(s, Run(t)))
  {
    OwnFacts(s, t);
    var k := s.m.acts[t].k;
    assert SlotOk(s, k) && UsedBelow(s.m.table.used, SLOT_COUNT);
    FreeHandOver(s, t, k);
    FreeLocks(s, t);
    FreeRecord(s, t, k);
    HandOverKeepsInv(s, Next(s, Run(t)), t, k);
  }

  // indications

  ghost predicate IndReady(s: State, t: Id) {
    && Shape(s.m) && |s.h.owner| == SLOT_COUNT
    && t in s.m.acts && s.m.acts[t].IsInd() && t !in s.h.calls && t < s.m.next
    && (s.m.acts[t].HoldsGlobal() ==> s.m.globalLock == Some(t))
    && t in s.h.touches && TouchesAt(s.h.touches[t], s.m.acts[t])
    && ScanOk(s.m.table, s.m.acts[t])
    && (s.m.table.inUse <==> UsedBelow(s.m.table.used, SLOT_COUNT))
  }

  ghost predicate IndDone(s: State, s': State, t: Id) {
    PlainStep(s, s', t) && LockMove(s.m, s'.m, t) && PlainOk(s', t)
  }

  lemma IndWantStep(s: State, t: Id)
    requires IndReady(s, t) && Enabled(s.m, Run(t)) && s.m.acts[t].IndWant?
    ensures IndDone(s, Next(s, Run(t)), t)
  {
  }

  lemma IndCheckStep(s: State, t: Id)
    requires IndReady(s, t) && Enabled(s.m, Run(t)) && s.m.acts[t].IndCheck?
    ensures IndDone(s, Next(s, Run(t)), t)
  {
  }

  lemma IndLoopMoves(s: State, t: Id)
    requires IndReady(s, t) && Enabled(s.m, Run(t)) && s.m.acts[t].IndLoop?
    ensures PlainStep(s, Next(s, Run(t)), t) && LockMove(s.m, Next(s, Run(t)).m, t)
  {
  }

  lemma IndLoopScans(s: State, t: Id)
    requires IndReady(s, t) && Enabled(s.m, Run(t)) && s.m.acts[t].IndLoop?
    ensures PlainOk(Next(s, Run(t)), t)
  {
  }

  lemma IndLoopStep(s: State, t: Id)
    requires IndReady(s, t) && Enabled(s.m, Run(t)) && s.m.acts[t].IndLoop?
    ensures IndDone(s, Next(s, Run(t)), t)
  {
    IndLoopMoves(s, t);
    IndLoopScans(s, t);
  }

  lemma IndSlotWantStep(s: State, t: Id)
    requires IndReady(s, t) && Enabled(s.m, Run(t)) && s.m.acts[t].IndSlotWant?
    ensures IndDone(s, Next(s, Run(t)), t)
  {
  }

  lemma IndEndStep(s: State, t: Id)
    requires IndReady(s, t) && Enabled(s.m, Run(t)) && s.m.acts[t].IndEnd?
    ensures IndDone(s, Next(s, Run(t)), t)
  {
  }

  lemma NoMatchStep(s: State, t: Id)
    requires IndReady(s, t) && Enabled(s.m, Run(t)) && s.m.acts[t].IndSlotIn?
    requires var i := s.m.acts[t].i; !Matches(s.m.table.used[i], s.m.table.slots[i], s.m.acts[t].ind)
    ensures IndDone(s, Next(s, Run(t)), t)
  {
  }

  lemma IndFacts(s: State, t: Id)
    requires Inv(s) && t in s.m.acts && s.m.acts[t].IsInd()
    ensures IndReady(s, t)
  {
  }

  lemma IndKeepsInv(s: State, t: Id)
    requires Inv(s) && Enabled(s.m, Run(t)) && s.m.acts[t].IsInd() && !s.m.acts[t].IndSlotIn?
    ensures Inv(Next(s, Run(t)))
  {
    IndFacts(s, t);
    match s.m.acts[t] {
      case IndWant(_) => IndWantStep(s, t);
      case IndCheck(_) => IndCheckStep(s, t);
      case IndLoop(_, _, _, _) => IndLoopStep(s, t);
      case IndSlotWant(_, _, _) => IndSlotWantStep(s, t);
      case IndEnd(_, _) => IndEndStep(s, t);
    }
    PlainStepKeepsInv(s, Next(s, Run(t)), t);
  }

  /** The activation that owns a slot which an indication matches: it is another one, and
      it is not in a critical section. */
  ghost predicate HitReady(s: State, t: Id, u: Id) {
    && IndReady(s, t) && s.m.acts[t].IndSlotIn? && OwnReady(s, u) && u != t
    && s.m.acts[u].k == s.m.acts[t].i && s.h.owner[s.m.acts[t].i] == Some(u)
    && !s.m.acts[u].WaitIn? && !s.m.acts[u].WakeIn? && !s.m.acts[u].SelectIn? && !s.m.acts[u].FreeIn?
    && (forall v :: v in s.m.acts && s.m.acts[v].Blocked? && s.m.acts[v].k == s.m.acts[t].i ==> v == u)
    && Matches(s.m.table.used[s.m.acts[t].i], s.m.table.slots[s.m.acts[t].i], s.m.acts[t].ind)
  }

  lemma HitFacts(s: State, t: Id)
    requires Inv(s) && t in s.m.acts && s.m.acts[t].IndSlotIn?
    requires Matches(s.m.table.used[s.m.acts[t].i], s.m.table.slots[s.m.acts[t].i], s.m.acts[t].ind)
    ensures s.h.owner[s.m.acts[t].i].Some? && HitReady(s, t, s.h.owner[s.m.acts[t].i].value)
  {
    var i := s.m.acts[t].i;
    var u := s.h.owner[i].value;
    IndFacts(s, t);
    OwnFacts(s, u);
    assert SlotLockOk(s.m, i);
  }

  /** The effect of a match on the slot, its owner and the record of the owner. */
  ghost function HitState(s: State, t: Id): State
    requires Shape(s.m) && |s.h.owner| == SLOT_COUNT && t in s.m.acts && s.m.acts[t].IndSlotIn?
  {
    var i := s.m.acts[t].i;
    var sl := s.m.table.slots[i];
    State(
      s.m.(acts := if sl.waiting then Signal(s.m.acts, i) else s.m.acts,
           table := SetSlot(s.m.table, i, Touched(sl, s.m.acts[t].ind))),
      s.h.(calls := ObserveScan(s.h, s.m, t).calls))
  }

  lemma HitMoves(s: State, t: Id, u: Id)
    requires HitReady(s, t, u)
    ensures OwnStep(s, HitState(s, t), u) && LockMove(s.m, HitState(s, t).m, u)
  {
  }

  lemma HitFits(s: State, t: Id, u: Id)
    requires HitReady(s, t, u) && OwnStep(s, HitState(s, t), u)
    ensures var s' := HitState(s, t);
            Fits(s'.m.table.slots[s.m.acts[u].k], s'.m.acts[u], s'.h.calls[u].hits)
  {
  }

  /** The record of u after a match of its slot. */
  lemma HitRecord(s: State, t: Id, u: Id)
    requires HitReady(s, t, u)
    ensures var r := s.h.calls[u]; var i := s.m.acts[t].i;
            HitState(s, t).h.calls[u] ==
            r.(hits := r.hits +
                       [Hit(s.m.acts[t].ind, t, PhaseOf(s.m.acts[u]), Copies(s.m.table.slots[i], s.m.acts[t].ind))])
  {
  }

  lemma HitPlace(s: State, t: Id, u: Id)
    requires HitReady(s, t, u)
    ensures var pc := s.m.acts[u];
            HitState(s, t).m.acts[u] == if pc.Blocked? then pc.(signalled := true) else pc
  {
  }

  lemma HitRecorded(s: State, t: Id, u: Id)
    requires HitReady(s, t, u)
    ensures var s' := HitState(s, t);
            u in s'.h.calls && u in s'.m.acts
            && HitsOk(s'.h.calls[u]) && Active(s'.h.calls[u], s'.m.acts[u])
  {
    HitRecord(s, t, u);
    HitPlace(s, t, u);
    HitGrows(s.h.calls[u], s.m.acts[u], s.m.table.slots[s.m.acts[t].i], s.m.acts[t].ind, t);
  }

  /** One more match keeps a call's record in order. */
  lemma HitGrows(r: CallRecord, pc: Pc, s: Slot, ind: Ind, t: Id)
    requires HitsOk(r) && Active(r, pc) && Fits(s, pc, r.hits) && Matches(true, s, ind)
    requires ind.handle != INVALID_HANDLE
    requires !pc.WaitIn? && !pc.WakeIn? && !pc.SelectIn? && !pc.FreeIn?
    ensures var r' := r.(hits := r.hits + [Hit(ind, t, PhaseOf(pc), Copies(s, ind))]);
            HitsOk(r') && Active(r', if pc.Blocked? then pc.(signalled := true) else pc)
  {
  }

  lemma HitOwnStep(s: State, t: Id, u: Id)
    requires HitReady(s, t, u)
    ensures OwnDone(s, HitState(s, t), u)
  {
    HitMoves(s, t, u);
    HitFits(s, t, u);
    HitRecorded(s, t, u);
  }

  lemma HitScans(s: State, t: Id, u: Id)
    requires HitReady(s, t, u) && IndReady(HitState(s, t), t) && Enabled(s.m, Run(t))
    ensures PlainStep(HitState(s, t), Next(s, Run(t)), t)
  {
  }

  lemma HitLocks(s: State, t: Id, u: Id)
    requires HitReady(s, t, u) && IndReady(HitState(s, t), t) && Enabled(s.m, Run(t))
    ensures LockMove(HitState(s, t).m, Next(s, Run(t)).m, t)
  {
  }

  lemma HitTouches(s: State, t: Id, u: Id)
    requires HitReady(s, t, u) && IndReady(HitState(s, t), t) && Enabled(s.m, Run(t))
    ensures PlainOk(Next(s, Run(t)), t)
  {
  }

  lemma HitPlainStep(s: State, t: Id, u: Id)
    requires HitReady(s, t, u) && IndReady(HitState(s, t), t) && Enabled(s.m, Run(t))
    ensures IndDone(HitState(s, t), Next(s, Run(t)), t)
  {
    HitScans(s, t, u);
    HitLocks(s, t, u);
    HitTouches(s, t, u);
  }

  lemma ScanKeepsInv(s: State, t: Id)
    requires Inv(s) && Enabled(s.m, Run(t)) && s.m.acts[t].IndSlotIn?
    ensures Inv(Next(s, Run(t)))
  {
    var i := s.m.acts[t].i;
    if Matches(s.m.table.used[i], s.m.table.slots[i], s.m.acts[t].ind) {
      HitFacts(s, t);
      var u := s.h.owner[i].value;
      HitOwnStep(s, t, u);
      OwnStepKeepsInv(s, HitState(s, t), u);
      IndFacts(HitState(s, t), t);
      HitPlainStep(s, t, u);
      PlainStepKeepsInv(HitState(s, t), Next(s, Run(t)), t);
    } else {
      IndFacts(s, t);
      NoMatchStep(s, t);
      PlainStepKeepsInv(s, Next(s, Run(t)), t);
    }
  }

  // -------------------------------------------------------------- all runs

  lemma StepKeepsInv(s: State, l: Label)
    requires Inv(s) && CanStep(s, l)
    ensures Inv(Next(s, l))
  {
    match l
    case EnterCall(_) => EnterKeepsInv(s, l);
    case EnterInd(_) => EnterKeepsInv(s, l);
    case SendResult(_, _) => DecidedKeepsInv(s, l);
    case TimeOut(_) => DecidedKeepsInv(s, l);
    case SpuriousWake(_) => DecidedKeepsInv(s, l);
    case Run(t) =>
      var pc := s.m.acts[t];
      if pc.AllocWant? { AllocWantKeepsInv(s, t); }
      else if pc.Returning? { ReturningKeepsInv(s, t); }
      else if pc.AllocIn? {
        if FirstFree(s.m.table.used) < SLOT_COUNT { AllocInKeepsInv(s, t); } else { AllocFullKeepsInv(s, t); }
      }
      else if pc.FreeIn? { FreeInKeepsInv(s, t); }
      else if pc.IndSlotIn? { ScanKeepsInv(s, t); }
      else if pc.IsInd() { IndKeepsInv(s, t); }
      else { OwnerKeepsInv(s, t); }
  }

  /** The invariant holds after every possible interleaving. */
  lemma {:induction false} AlwaysInv(ls: seq<Label>)
    requires Possible(ls)
    ensures Inv(After(ls))
    decreases |ls|
  {
    if ls == [] {
      InitialInv();
    } else {
      AlwaysInv(ls[..|ls| - 1]);
      StepKeepsInv(After(ls[..|ls| - 1]), ls[|ls| - 1]);
    }
  }
}
