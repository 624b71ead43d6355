/** Which synchronous requests get one of the eight slots, and what a success means for
    the others. */
module SyncCapacity {
  import opened Options
  import opened SyncTable
  import opened SyncProtocol
  import opened SyncInvariant
  import opened SyncTheorems

  ghost predicate Full(t: Table) {
    forall k :: 0 <= k < |t.used| ==> t.used[k]
  }

  ghost predicate Looking(s: State, t: Id) {
    t in s.m.acts && s.m.acts[t].AllocIn?
  }

  /** Step n of the run is the one at which call t, holding the global mutex, looks for a
      free slot; full says whether all eight are in use then. */
  ghost predicate LooksAt(ls: seq<Label>, n: nat, t: Id, full: bool) {
    n < |ls| && ls[n] == Run(t) && Possible(ls[..n]) && Looking(After(ls[..n]), t)
    && Full(After(ls[..n]).m.table) == full
  }

  /** Call t looked for a slot when all eight were in use, or when some slot was free. */
  ghost predicate Found(ls: seq<Label>, t: Id, full: bool) {
    exists n: nat :: LooksAt(ls, n, t, full)
  }

  ghost predicate FoundFull(ls: seq<Label>, t: Id) {
    Found(ls, t, true)
  }

  ghost predicate FoundFree(ls: seq<Label>, t: Id) {
    Found(ls, t, false)
  }

  ghost predicate GotSlot(s: State, t: Id) {
    t in s.h.calls && s.h.calls[t].slot.Some?
  }

  /** The call is past its search, and has no slot. */
  ghost predicate GotNone(s: State, t: Id) {
    t in s.h.calls && s.h.calls[t].slot.None?
    && !(t in s.m.acts && (s.m.acts[t].AllocWant? || s.m.acts[t].AllocIn?))
  }

  lemma LookStep(s: State, t: Id)
    requires Inv(s) && CanStep(s, Run(t)) && Looking(s, t)
    ensures GotSlot(Next(s, Run(t)), t) <==> !Full(s.m.table)
    ensures GotNone(Next(s, Run(t)), t) <==> Full(s.m.table)
    ensures !GotSlot(s, t) && !GotNone(s, t)
  {
    assert RecordOk(s, t);
    if Full(s.m.table) {
      FirstFreeIs(s.m.table.used, SLOT_COUNT);
    }
  }

  lemma EnterStep(s: State, l: Label, t: Id)
    requires Inv(s) && CanStep(s, l) && (l.EnterCall? || l.EnterInd?)
    ensures GotSlot(Next(s, l), t) <==> GotSlot(s, t)
    ensures GotNone(Next(s, l), t) <==> GotNone(s, t)
  {
    forall u | u in s.h.calls
      ensures u < s.m.next
    {
      assert RecordOk(s, u);
    }
  }

  lemma DecidedStep(s: State, l: Label, t: Id)
    requires Inv(s) && CanStep(s, l) && (l.SendResult? || l.TimeOut? || l.SpuriousWake?)
    ensures GotSlot(Next(s, l), t) <==> GotSlot(s, t)
    ensures GotNone(Next(s, l), t) <==> GotNone(s, t)
  {
  }

  lemma ScanStepSlots(s: State, u: Id, t: Id)
    requires CanStep(s, Run(u)) && s.m.acts[u].IndSlotIn?
    ensures t in Next(s, Run(u)).h.calls <==> t in s.h.calls
    ensures t in s.h.calls ==> Next(s, Run(u)).h.calls[t].slot == s.h.calls[t].slot
    ensures t != u ==> (t in Next(s, Run(u)).m.acts <==> t in s.m.acts)
    ensures t != u && t in s.m.acts && (s.m.acts[t].AllocWant? || s.m.acts[t].AllocIn?) ==>
              Next(s, Run(u)).m.acts[t] == s.m.acts[t]
    ensures t != u && t in s.m.acts && !(s.m.acts[t].AllocWant? || s.m.acts[t].AllocIn?) ==>
              !(Next(s, Run(u)).m.acts[t].AllocWant? || Next(s, Run(u)).m.acts[t].AllocIn?)
  {
  }

  lemma ForeignRunStep(s: State, u: Id, t: Id)
    requires CanStep(s, Run(u)) && !s.m.acts[u].IndSlotIn? && t != u
    ensures GotSlot(Next(s, Run(u)), t) <==> GotSlot(s, t)
    ensures GotNone(Next(s, Run(u)), t) <==> GotNone(s, t)
  {
  }

  lemma OwnRunStep(s: State, t: Id)
    requires CanStep(s, Run(t)) && !s.m.acts[t].IndSlotIn? && !Looking(s, t)
    ensures GotSlot(Next(s, Run(t)), t) <==> GotSlot(s, t)
    ensures GotNone(Next(s, Run(t)), t) <==> GotNone(s, t)
  {
  }

  /** Only its own search decides whether a call gets a slot. */
  lemma StepSlots(s: State, l: Label, t: Id)
    requires Inv(s) && CanStep(s, l)
    ensures GotSlot(Next(s, l), t) <==> GotSlot(s, t) || (l == Run(t) && Looking(s, t) && !Full(s.m.table))
    ensures GotNone(Next(s, l), t) <==> GotNone(s, t) || (l == Run(t) && Looking(s, t) && Full(s.m.table))
  {
    match l
    case EnterCall(_) => EnterStep(s, l, t);
    case EnterInd(_) => EnterStep(s, l, t);
    case Run(u) =>
      if s.m.acts[u].IndSlotIn? {
        ScanStepSlots(s, u, t);
        assert u !in s.h.calls;
      } else if t == u && Looking(s, t) {
        LookStep(s, t);
      } else if t == u {
        OwnRunStep(s, t);
      } else {
        ForeignRunStep(s, u, t);
      }
    case _ => DecidedStep(s, l, t);
  }

  lemma LooksBefore(ls: seq<Label>, m: nat, n: nat, t: Id, full: bool)
    requires n < m <= |ls|
    ensures LooksAt(ls, n, t, full) <==> LooksAt(ls[..m], n, t, full)
  {
    assert ls[..m][..n] == ls[..n];
  }

  lemma FoundExtends(ls: seq<Label>, m: nat, t: Id, full: bool)
    requires |ls| == m + 1
    ensures Found(ls, t, full) <==> Found(ls[..m], t, full) || LooksAt(ls, m, t, full)
  {
    forall n: nat | n < m
      ensures LooksAt(ls, n, t, full) <==> LooksAt(ls[..m], n, t, full)
    {
      LooksBefore(ls, m, n, t, full);
    }
  }

  /** In every run, a call has a slot exactly when some slot was free at the moment of its
      search, and goes without one exactly when all eight were in use. */
  lemma {:induction false} SlotIffFree(ls: seq<Label>, t: Id)
    requires Possible(ls)
    ensures GotSlot(After(ls), t) <==> FoundFree(ls, t)
    ensures GotNone(After(ls), t) <==> FoundFull(ls, t)
    decreases |ls|
  {
    if ls != [] {
      var m := |ls| - 1;
      SlotIffFree(ls[..m], t);
      AlwaysInv(ls[..m]);
      StepSlots(After(ls[..m]), ls[m], t);
      FoundExtends(ls, m, t, true);
      FoundExtends(ls, m, t, false);
    }
  }

  /** Without spurious wakeups, a success has an indication behind it exactly when some slot
      was free while the call held the global mutex; otherwise all eight were in use. */
  lemma SuccessIsGenuineExactly(ls: seq<Label>, t: Id)
    requires Possible(ls) && SpuriousWake(t) !in ls
    requires t in After(ls).h.calls && After(ls).h.calls[t].ret == Some(Success)
    ensures After(ls).h.calls[t].hits != [] <==> FoundFree(ls, t)
    ensures FoundFull(ls, t) <==> !FoundFree(ls, t)
  {
    SlotIffFree(ls, t);
    ResultsAreExact(ls, t);
    FreedExactlyOnce(ls, t);
    if After(ls).h.calls[t].slot.Some? {
      SuccessNeedsIndication(ls, t);
    }
  }

  // --------------------------------------------------- a run with a full table

  /** A further call enters and takes the global mutex. */
  lemma EnterAndLook(ls: seq<Label>, c: Call) returns (r: seq<Label>, t: Id)
    requires Possible(ls) && After(ls).m.globalLock.None?
    ensures r == ls + [EnterCall(c), Run(t)] && Possible(r)
    ensures var s := After(r);
            && s.m.table == After(ls).m.table
            && t in s.m.acts && s.m.acts[t] == AllocIn(c)
            && t in s.h.calls && s.h.calls[t] == CallRecord(c, None, false, [], false, false, false, 0, None)
  {
    t := After(ls).m.next;
    Extend(ls, EnterCall(c));
    r := ls + [EnterCall(c)];
    Extend(r, Run(t));
    r := r + [Run(t)];
  }

  lemma LeaveFull(s: State, t: Id)
    requires CanStep(s, Run(t)) && s.m.acts[t].AllocIn? && t in s.h.calls && FirstFree(s.m.table.used) == SLOT_COUNT
    ensures var s' := Next(s, Run(t)); CanStep(s', Run(t)) && s'.m.acts[t] == Returning(s.m.acts[t].c, Success)
    ensures Next(s, Run(t)).h.calls == s.h.calls
  {
  }

  lemma ReturnStep(s: State, t: Id)
    requires CanStep(s, Run(t)) && s.m.acts[t].Returning? && t in s.h.calls
    ensures Next(s, Run(t)).h.calls == s.h.calls[t := s.h.calls[t].(ret := Some(s.m.acts[t].st))]
  {
  }

  /** With all eight slots taken, a request reports success at once although nothing was
      sent and no indication was awaited. */
  lemma FullTableReportsSuccess(ls: seq<Label>, c: Call) returns (all: seq<Label>, t: Id)
    requires Possible(ls) && After(ls).m.globalLock.None? && Full(After(ls).m.table)
    ensures all == ls + [EnterCall(c), Run(t), Run(t), Run(t)]
    ensures Possible(all) && t in After(all).h.calls
    ensures After(all).h.calls[t] == CallRecord(c, None, false, [], false, false, false, 0, Some(Success))
  {
    all, t := EnterAndLook(ls, c);
    FirstFreeIs(After(all).m.table.used, SLOT_COUNT);
    LeaveFull(After(all), t);
    Extend(all, Run(t));
    all := all + [Run(t)];
    ReturnStep(After(all), t);
    Extend(all, Run(t));
    all := all + [Run(t)];
  }

  lemma TakeSlot(s: State, t: Id, k: nat)
    requires CanStep(s, Run(t)) && s.m.acts[t].AllocIn? && FirstFree(s.m.table.used) == k < SLOT_COUNT
    ensures Next(s, Run(t)).m.table.used == s.m.table.used[k := true] && Next(s, Run(t)).m.globalLock.None?
  {
  }

  /** n calls take the first n slots and leave the global mutex. */
  lemma {:induction false} FillSlots(n: nat, c: Call) returns (ls: seq<Label>)
    requires n <= SLOT_COUNT
    ensures Possible(ls) && After(ls).m.globalLock.None?
    ensures forall k :: 0 <= k < SLOT_COUNT ==> (After(ls).m.table.used[k] <==> k < n)
    ensures forall i :: 0 <= i < |ls| ==> ls[i] == EnterCall(c) || ls[i].Run?
  {
    if n == 0 {
      ls := [];
      assert After(ls) == InitialState();
    } else {
      var before := FillSlots(n - 1, c);
      var t;
      ls, t := EnterAndLook(before, c);
      FirstFreeIs(After(ls).m.table.used, n - 1);
      TakeSlot(After(ls), t, n - 1);
      Extend(ls, Run(t));
      ls := ls + [Run(t)];
    }
  }

  /** Such a run: nine equal calls and no indication, and the ninth reports success. */
  lemma FullTableRun(c: Call) returns (ls: seq<Label>, t: Id)
    ensures Possible(ls) && t in After(ls).h.calls
    ensures After(ls).h.calls[t].ret == Some(Success) && After(ls).h.calls[t].hits == []
    ensures forall i :: 0 <= i < |ls| ==> ls[i] == EnterCall(c) || ls[i].Run?
  {
    var full := FillSlots(SLOT_COUNT, c);
    ls, t := FullTableReportsSuccess(full, c);
  }
}
