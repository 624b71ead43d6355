/** What the synchronous request protocol guarantees in every interleaving of any
    number of callers and indications. Every theorem speaks of the state after an
    arbitrary possible run. */
module SyncTheorems {
  import opened Options
  import opened SyncTable
  import opened SyncProtocol
  import opened SyncInvariant

  // ----------------------------------------------------- where payloads go

  /** The slot of pc is selected and not yet freed. */
  predicate Selected(pc: Pc) {
    pc.OwnsSlot() && !pc.SelectWant? && !pc.SelectIn?
  }

  /** A payload pointer is stored only while its own call is between select and free. */
  lemma BufferHasLiveOwner(ls: seq<Label>, k: nat) returns (u: Id)
    requires Possible(ls) && k < SLOT_COUNT
    requires After(ls).m.table.slots[k].buffer != NO_BUFFER
    ensures var s := After(ls);
            && u in s.m.acts && Selected(s.m.acts[u]) && s.m.acts[u].k == k
            && s.m.acts[u].c.buffer == s.m.table.slots[k].buffer
            && u in s.h.calls && s.h.calls[u].ret.None?
  {
    AlwaysInv(ls);
    var s := After(ls);
    assert SlotOk(s, k);
    u := s.h.owner[k].value;
    OwnFacts(s, u);
  }

  /** When an indication copies its payload, the target is the buffer of a call that has
      not returned and that asked for this very indication. */
  lemma CopyGoesToLiveCall(ls: seq<Label>, t: Id) returns (u: Id)
    requires Possible(ls) && t in After(ls).m.acts && After(ls).m.acts[t].IndSlotIn?
    requires var s := After(ls); var i := s.m.acts[t].i;
             Awaits(s.m.table, i, s.m.acts[t].ind)
    ensures var s := After(ls); var pc := s.m.acts[t];
            && u in s.m.acts && Selected(s.m.acts[u]) && s.m.acts[u].k == pc.i
            && s.m.acts[u].c.buffer == s.m.table.slots[pc.i].buffer
            && s.m.acts[u].c.handle == pc.ind.handle && s.m.acts[u].c.indId == pc.ind.id
            && u in s.h.calls && s.h.calls[u].ret.None?
  {
    AlwaysInv(ls);
    var s := After(ls);
    HitFacts(s, t);
    u := s.h.owner[s.m.acts[t].i].value;
  }

  /** One indication gives its payload to at most one slot, the last one it matches. */
  lemma PayloadGoesToOneSlot(ls: seq<Label>, t: Id, i: nat, j: nat)
    requires Possible(ls) && t in After(ls).h.touches
    requires i < j < |After(ls).h.touches[t]|
    ensures After(ls).h.touches[t][i].k < After(ls).h.touches[t][j].k
    ensures !After(ls).h.touches[t][i].copied
  {
    AlwaysInv(ls);
  }

  // ---------------------------------------------------- what results mean

  /** What the invariant says about one call. */
  lemma RecordFacts(ls: seq<Label>, t: Id)
    requires Possible(ls) && t in After(ls).h.calls
    ensures var r := After(ls).h.calls[t];
            HitsOk(r) && if t in After(ls).m.acts then Active(r, After(ls).m.acts[t]) else Gone(r)
  {
    AlwaysInv(ls);
    assert RecordOk(After(ls), t);
  }

  lemma ActiveHasNoResult(r: CallRecord, pc: Pc)
    requires Active(r, pc)
    ensures r.ret.None?
  {
  }

  lemma ReturnedIsGone(ls: seq<Label>, t: Id)
    requires Possible(ls) && t in After(ls).h.calls && After(ls).h.calls[t].ret.Some?
    ensures Gone(After(ls).h.calls[t]) && HitsOk(After(ls).h.calls[t])
  {
    RecordFacts(ls, t);
    if t in After(ls).m.acts {
      ActiveHasNoResult(After(ls).h.calls[t], After(ls).m.acts[t]);
    }
  }

  /** The meaning of every result. A call without a slot succeeds at once. A call that
      never slept reports success only after an indication that came before its wait, and
      otherwise the failure of its send. A call that slept reports a timeout exactly when
      its wait expired, and otherwise success, with an indication as the cause unless the
      wait returned without a signal. An internal failure is never reported. */
  predicate ExactResult(r: CallRecord) {
    if r.slot.None? then r.ret == Some(Success) && r.hits == []
    else if !r.blocked then
      && r.ret.Some? && (r.ret.value.Success? || r.ret.value.SendFailed?)
      && (r.ret.value.Success? ==> r.hits != [] && r.hits[0].phase == Early)
    else
      && r.ret == Some(if r.timedOut then FailureTimeout else Success)
      && (!r.timedOut ==> r.spurious || (r.hits != [] && r.hits[0].phase != Early && r.hits[0].phase != Ending))
  }

  lemma ResultsAreExact(ls: seq<Label>, t: Id)
    requires Possible(ls) && t in After(ls).h.calls && After(ls).h.calls[t].ret.Some?
    ensures ExactResult(After(ls).h.calls[t])
  {
    ReturnedIsGone(ls, t);
    var r := After(ls).h.calls[t];
    if r.hits != [] {
      assert HitOk(r.c, r.blocked, r.hits[0], 0);
    }
  }

  lemma StepWakeups(s: State, l: Label, t: Id)
    requires CanStep(s, l) && t in Next(s, l).h.calls
    ensures Next(s, l).h.calls[t].spurious ==> l == SpuriousWake(t) || (t in s.h.calls && s.h.calls[t].spurious)
    ensures Next(s, l).h.calls[t].timedOut ==> l == TimeOut(t) || (t in s.h.calls && s.h.calls[t].timedOut)
  {
  }

  /** A condition wait returns without a signal only where the run says so, and a wait
      expires only where the run says so. */
  lemma {:induction false} WakeupsAreInTheRun(ls: seq<Label>, t: Id)
    requires Possible(ls) && t in After(ls).h.calls
    ensures After(ls).h.calls[t].spurious ==> SpuriousWake(t) in ls
    ensures After(ls).h.calls[t].timedOut ==> TimeOut(t) in ls
    decreases |ls|
  {
    if ls != [] {
      var l, before := ls[|ls| - 1], ls[..|ls| - 1];
      StepWakeups(After(before), l, t);
      if t in After(before).h.calls {
        WakeupsAreInTheRun(before, t);
      }
    }
  }

  /** Without spurious wakeups a call that got a slot succeeds only on an indication with
      its own handle and id, met after its select and before its result was settled. */
  lemma SuccessNeedsIndication(ls: seq<Label>, t: Id)
    requires Possible(ls) && SpuriousWake(t) !in ls
    requires t in After(ls).h.calls && After(ls).h.calls[t].ret == Some(Success)
    requires After(ls).h.calls[t].slot.Some?
    ensures var r := After(ls).h.calls[t];
            && r.selected && r.hits != [] && r.hits[0].phase != Ending
            && r.hits[0].ind.handle == r.c.handle && r.hits[0].ind.id == r.c.indId
            && (r.hits[0].copied <==> r.c.buffer != NO_BUFFER && r.hits[0].ind.hasPayload)
  {
    ReturnedIsGone(ls, t);
    WakeupsAreInTheRun(ls, t);
    var s := After(ls);
    assert HitOk(s.h.calls[t].c, s.h.calls[t].blocked, s.h.calls[t].hits[0], 0);
  }

  /** An indication that comes between the select and the wait is never missed: the call
      does not block, and its wait reports success. */
  lemma EarlyIndicationNeverBlocks(ls: seq<Label>, t: Id)
    requires Possible(ls) && t in After(ls).h.calls
    requires exists i :: 0 <= i < |After(ls).h.calls[t].hits| && After(ls).h.calls[t].hits[i].phase == Early
    ensures !After(ls).h.calls[t].blocked
    ensures var r := After(ls).h.calls[t]; r.ret.Some? ==> r.ret == Some(Success) || r.ret.value.SendFailed?
  {
    RecordFacts(ls, t);
    var r := After(ls).h.calls[t];
    var i :| 0 <= i < |r.hits| && r.hits[i].phase == Early;
    assert HitOk(r.c, r.blocked, r.hits[i], i);
  }

  /** No lost wakeup: a call that still sleeps unsignalled has met no indication. */
  lemma SleepersHaveMetNothing(ls: seq<Label>, t: Id)
    requires Possible(ls) && t in After(ls).m.acts && After(ls).m.acts[t].Blocked?
    ensures t in After(ls).h.calls
    ensures !After(ls).m.acts[t].signalled <==> After(ls).h.calls[t].hits == []
  {
    AlwaysInv(ls);
    RecordFacts(ls, t);
  }

  // ------------------------------------------------------ slots are conserved

  /** Slots in use and calls between alloc and free correspond one to one. */
  lemma SlotsMatchCalls(ls: seq<Label>, k: nat)
    requires Possible(ls) && k < SLOT_COUNT
    ensures var m := After(ls).m;
            m.table.used[k] <==> exists t :: t in m.acts && m.acts[t].OwnsSlot() && m.acts[t].k == k
    ensures var m := After(ls).m;
            forall t, u | t in m.acts && u in m.acts && m.acts[t].OwnsSlot() && m.acts[u].OwnsSlot() ::
              m.acts[t].k == m.acts[u].k ==> t == u
  {
    AlwaysInv(ls);
    var s := After(ls);
    if s.m.table.used[k] {
      assert s.h.owner[k].value in s.m.acts;
    }
  }

  ghost function SlotOwners(m: Machine): set<Id> {
    set t | t in m.acts && m.acts[t].OwnsSlot()
  }

  /** Never more than eight calls hold a slot. */
  lemma AtMostEightOwners(ls: seq<Label>)
    requires Possible(ls)
    ensures |SlotOwners(After(ls).m)| <= SLOT_COUNT
  {
    AlwaysInv(ls);
    var s := After(ls);
    OwnersWithin(SlotOwners(s.m), s.h.owner);
  }

  lemma {:induction false} OwnersWithin(ts: set<Id>, owner: seq<Option<Id>>)
    requires forall t :: t in ts ==> Some(t) in owner
    ensures |ts| <= |owner|
    decreases |owner|
  {
    if owner != [] {
      var rest := owner[..|owner| - 1];
      var last := owner[|owner| - 1];
      assert owner == rest + [last];
      if last.Some? && last.value in ts {
        assert |ts - {last.value}| == |ts| - 1;
        OwnersWithin(ts - {last.value}, rest);
      } else {
        OwnersWithin(ts, rest);
      }
    } else {
      assert ts == {};
    }
  }

  /** Every call that got a slot frees it exactly once on every path; before it has left
      its slot it has freed nothing. */
  lemma FreedExactlyOnce(ls: seq<Label>, t: Id)
    requires Possible(ls) && t in After(ls).h.calls
    ensures var s := After(ls); var r := s.h.calls[t];
            && (r.ret.Some? ==> r.frees == if r.slot.Some? then 1 else 0)
            && (t in s.m.acts && s.m.acts[t].OwnsSlot() ==> r.frees == 0 && r.slot == Some(s.m.acts[t].k))
            && (r.ret.Some? <==> t !in s.m.acts)
  {
    RecordFacts(ls, t);
  }

  /** The branches for an invalid slot and for a busy slot cannot be taken. */
  lemma InternalFailuresUnreachable(ls: seq<Label>, t: Id)
    requires Possible(ls) && t in After(ls).m.acts
    ensures After(ls).m.acts[t].WaitCheck? ==> After(ls).m.table.used[After(ls).m.acts[t].k]
    ensures After(ls).m.acts[t].WaitIn? ==> !After(ls).m.table.slots[After(ls).m.acts[t].k].waiting
  {
    AlwaysInv(ls);
    if After(ls).m.acts[t].OwnsSlot() {
      OwnFacts(After(ls), t);
      WaitsFreely(After(ls), t);
    }
  }

  lemma WaitsFreely(s: State, t: Id)
    requires OwnReady(s, t)
    ensures s.m.acts[t].WaitCheck? ==> s.m.table.used[s.m.acts[t].k]
    ensures s.m.acts[t].WaitIn? ==> !s.m.table.slots[s.m.acts[t].k].waiting
  {
  }

  /** The array-wide flag says exactly whether some slot is in use, so the early return of
      loc_sync_process_ind is taken only when no call holds a slot. */
  lemma InUseIsExact(ls: seq<Label>)
    requires Possible(ls)
    ensures var m := After(ls).m;
            m.table.inUse <==> exists t :: t in m.acts && m.acts[t].OwnsSlot()
  {
    AlwaysInv(ls);
    var s := After(ls);
    if s.m.table.inUse {
      var k :| 0 <= k < SLOT_COUNT && s.m.table.used[k];
      assert s.h.owner[k].value in s.m.acts;
    }
    if t :| t in s.m.acts && s.m.acts[t].OwnsSlot() {
      assert s.m.table.used[s.m.acts[t].k];
    }
  }

  /** A slot that is free, or allocated but not selected, holds reset fields and matches no
      indication of a valid client. */
  lemma UnselectedSlotsAreReset(ls: seq<Label>, k: nat, ind: Ind)
    requires Possible(ls) && k < SLOT_COUNT && ind.handle != INVALID_HANDLE
    requires !exists t :: t in After(ls).m.acts && Selected(After(ls).m.acts[t]) && After(ls).m.acts[t].k == k
    ensures After(ls).m.table.slots[k] == RESET_SLOT
    ensures !Awaits(After(ls).m.table, k, ind)
  {
    AlwaysInv(ls);
    var s := After(ls);
    assert SlotOk(s, k);
    if s.h.owner[k].Some? {
      OwnFacts(s, s.h.owner[k].value);
    }
  }

  // ------------------------------------------------------ progress

  /** No activation asks for the global mutex while it holds any mutex, and none asks for
      a slot lock while it holds a slot lock. */
  lemma LockOrder(ls: seq<Label>, t: Id, j: nat)
    requires Possible(ls) && t in After(ls).m.acts && j < SLOT_COUNT
    ensures After(ls).m.acts[t].WantsGlobal() ==>
              After(ls).m.globalLock != Some(t) && After(ls).m.slotLocks[j] != Some(t)
    ensures (exists i :: After(ls).m.acts[t].WantsLock(i)) ==> After(ls).m.slotLocks[j] != Some(t)
  {
    AlwaysInv(ls);
    LockOrderAt(After(ls).m, t, j);
  }

  lemma LockOrderAt(m: Machine, t: Id, j: nat)
    requires Locks(m) && t in m.acts && j < SLOT_COUNT
    ensures m.acts[t].WantsGlobal() ==> m.globalLock != Some(t) && m.slotLocks[j] != Some(t)
    ensures (exists i :: m.acts[t].WantsLock(i)) ==> m.slotLocks[j] != Some(t)
  {
    assert SlotLockOk(m, j);
  }

  /** Steps of activations that are already inside the module. */
  predicate Internal(l: Label) {
    l.Run? || l.SendResult? || l.TimeOut?
  }

  /** The owner of a slot lock can always go on. */
  lemma LockOwnerRuns(m: Machine, k: nat)
    requires Shape(m) && k < SLOT_COUNT && SlotLockOk(m, k) && m.slotLocks[k].Some?
    ensures Enabled(m, Run(m.slotLocks[k].value))
  {
  }

  /** A waiter for a slot lock can go on, or the owner of the lock can. */
  lemma SlotWaiterOrOwnerRuns(m: Machine, t: Id, k: nat) returns (l: Label)
    requires Shape(m) && k < SLOT_COUNT && SlotLockOk(m, k) && t in m.acts && m.acts[t].WantsLock(k)
    ensures Internal(l) && Enabled(m, l)
  {
    l := Run(t);
    if m.slotLocks[k].Some? {
      LockOwnerRuns(m, k);
      l := Run(m.slotLocks[k].value);
    }
  }

  /** An activation that does not want the global mutex can go on, or the owner of the
      slot lock that it wants can. */
  lemma InnerRuns(m: Machine, t: Id) returns (l: Label)
    requires Shape(m) && Locks(m) && t in m.acts && !m.acts[t].WantsGlobal()
    ensures Internal(l) && Enabled(m, l)
  {
    var pc := m.acts[t];
    match pc
    case Sending(_, _) => l := SendResult(t, Success);
    case Blocked(_, _, _) => l := TimeOut(t);
    case SelectWant(_, k) => l := SlotWaiterOrOwnerRuns(m, t, k);
    case WaitWant(_, k) => l := SlotWaiterOrOwnerRuns(m, t, k);
    case WakeWant(_, k, _) => l := SlotWaiterOrOwnerRuns(m, t, k);
    case IndSlotWant(_, i, _) => l := SlotWaiterOrOwnerRuns(m, t, i);
    case _ => l := Run(t);
  }

  lemma SomeoneRuns(m: Machine, t: Id) returns (l: Label)
    requires Shape(m) && Locks(m) && t in m.acts
    ensures Internal(l) && Enabled(m, l)
  {
    if !m.acts[t].WantsGlobal() {
      l := InnerRuns(m, t);
    } else if m.globalLock.None? {
      l := Run(t);
    } else {
      l := InnerRuns(m, m.globalLock.value);
    }
  }

  /** No deadlock: while any activation is inside, some activation can step. */
  lemma NoDeadlock(ls: seq<Label>)
    requires Possible(ls) && After(ls).m.acts != map[]
    ensures exists l :: Internal(l) && CanStep(After(ls), l)
  {
    AlwaysInv(ls);
    var t :| t in After(ls).m.acts;
    var l := SomeoneRuns(After(ls).m, t);
    assert CanStep(After(ls), l);
  }
}
