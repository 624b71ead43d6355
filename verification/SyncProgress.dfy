/** Progress of the synchronous request protocol, and runs that show where its results
    promise less than a caller might expect. */
module SyncProgress {
  import opened Options
  import opened SyncTable
  import opened SyncProtocol
  import opened SyncInvariant
  import opened SyncTheorems

  // --------------------------------------------------------- every call ends

  /** An upper bound for the steps that an activation still takes. */
  function Rank(pc: Pc): nat {
    match pc
    case AllocWant(_) => 14
    case AllocIn(_) => 13
    case SelectWant(_, _) => 12
    case SelectIn(_, _) => 11
    case Sending(_, _) => 10
    case WaitCheck(_, _) => 9
    case WaitWant(_, _) => 8
    case WaitIn(_, _) => 7
    case Blocked(_, _, _) => 6
    case WakeWant(_, _, _) => 5
    case WakeIn(_, _, _) => 4
    case FreeWant(_, _, _) => 3
    case FreeIn(_, _, _) => 2
    case Returning(_, _) => 1
    case IndWant(_) => MAX_RANK
    case IndCheck(_) => 28
    case IndLoop(_, i, _, _) => 3 * Left(i) + 2
    case IndSlotWant(_, i, _) => 3 * Left(i) + 1
    case IndSlotIn(_, i, _) => 3 * Left(i)
    case IndEnd(_, _) => 1
  }

  const MAX_RANK: nat := 29

  function Left(i: nat): nat {
    if i <= SLOT_COUNT then SLOT_COUNT - i else 0
  }

  function RankAt(acts: map<Id, Pc>, t: Id): nat {
    if t in acts then Rank(acts[t]) else 0
  }

  /** The ranks of the activations below n added up. */
  function Total(acts: map<Id, Pc>, n: nat): nat {
    if n == 0 then 0 else Total(acts, n - 1) + RankAt(acts, n - 1)
  }

  lemma {:induction false} TotalChange(a: map<Id, Pc>, b: map<Id, Pc>, t: Id, n: nat)
    requires forall u: Id :: u != t ==> RankAt(a, u) == RankAt(b, u)
    ensures Total(b, n) == Total(a, n) + if t < n then RankAt(b, t) - RankAt(a, t) else 0
  {
    if n > 0 {
      TotalChange(a, b, t, n - 1);
    }
  }

  predicate Entry(l: Label) {
    l.EnterCall? || l.EnterInd?
  }

  ghost predicate LowersRank(m: Machine, m': Machine, t: Id) {
    && RankAt(m'.acts, t) < RankAt(m.acts, t)
    && (forall u: Id :: u != t ==> RankAt(m'.acts, u) == RankAt(m.acts, u))
    && m'.next == m.next
  }

  lemma CallStepLowersRank(m: Machine, t: Id)
    requires Shape(m) && Enabled(m, Run(t)) && !m.acts[t].IsInd()
    ensures LowersRank(m, Apply(m, Run(t)), t)
  {
  }

  lemma ScanLowersRank(m: Machine, t: Id)
    requires Shape(m) && Enabled(m, Run(t)) && m.acts[t].IndSlotIn?
    ensures LowersRank(m, Apply(m, Run(t)), t)
  {
  }

  lemma IndStepLowersRank(m: Machine, t: Id)
    requires Shape(m) && Enabled(m, Run(t)) && m.acts[t].IsInd() && !m.acts[t].IndSlotIn?
    ensures LowersRank(m, Apply(m, Run(t)), t)
  {
  }

  /** A step of t lowers the rank of t and changes no other rank. */
  lemma StepLowersRank(m: Machine, l: Label, t: Id)
    requires Shape(m) && Enabled(m, l) && !Entry(l) && t == l.t
    ensures LowersRank(m, Apply(m, l), t)
  {
    if l.Run? {
      if !m.acts[t].IsInd() { CallStepLowersRank(m, t); }
      else if m.acts[t].IndSlotIn? { ScanLowersRank(m, t); }
      else { IndStepLowersRank(m, t); }
    }
  }

  lemma EntryAddsRank(m: Machine, l: Label)
    requires Shape(m) && Enabled(m, l) && Entry(l)
    ensures RankAt(Apply(m, l).acts, m.next) <= MAX_RANK && RankAt(m.acts, m.next) == 0
    ensures forall u: Id :: u != m.next ==> RankAt(Apply(m, l).acts, u) == RankAt(m.acts, u)
    ensures Apply(m, l).next == m.next + 1
  {
  }

  function Entries(ls: seq<Label>): nat {
    if ls == [] then 0 else Entries(ls[..|ls| - 1]) + if Entry(ls[|ls| - 1]) then 1 else 0
  }

  /** A step is paid for by the ranks, and an entry brings its own. */
  lemma StepIsPaid(m: Machine, l: Label)
    requires Shape(m) && Enabled(m, l)
    ensures Total(Apply(m, l).acts, Apply(m, l).next) + 1 <=
            Total(m.acts, m.next) + if Entry(l) then MAX_RANK + 1 else 0
  {
    if Entry(l) {
      EntryAddsRank(m, l);
      TotalChange(m.acts, Apply(m, l).acts, m.next, m.next + 1);
    } else {
      StepLowersRank(m, l, l.t);
      TotalChange(m.acts, Apply(m, l).acts, l.t, m.next);
    }
  }

  /** Bounded work: a run has at most 30 steps for each call or indication that entered,
      and what is still open is paid for by that bound. */
  lemma {:induction false} WorkIsBounded(ls: seq<Label>)
    requires Possible(ls)
    ensures |ls| + Total(After(ls).m.acts, After(ls).m.next) <= (MAX_RANK + 1) * Entries(ls)
    decreases |ls|
  {
    if ls != [] {
      WorkIsBounded(ls[..|ls| - 1]);
      StepIsPaid(After(ls[..|ls| - 1]).m, ls[|ls| - 1]);
    }
  }

  ghost predicate LocksFree(m: Machine) {
    m.globalLock.None? && forall k :: 0 <= k < |m.slotLocks| ==> m.slotLocks[k].None?
  }

  lemma NobodyInside(s: State)
    requires Locks(s.m) && Owners(s.m, s.h.owner) && Slots(s) && Scans(s.m) && s.m.acts == map[]
    ensures s.m.table == InitialTable() && LocksFree(s.m)
  {
    forall k | 0 <= k < SLOT_COUNT
      ensures s.m.slotLocks[k].None? && !s.m.table.used[k] && s.m.table.slots[k] == RESET_SLOT
    {
      assert SlotLockOk(s.m, k) && SlotOk(s, k);
    }
    assert s.m.table.used == InitialTable().used;
    assert s.m.table.slots == InitialTable().slots;
  }

  /** When nobody is inside, every slot is reset, no mutex is held, and every call that
      came has its result. */
  lemma QuietMeansReset(ls: seq<Label>)
    requires Possible(ls) && After(ls).m.acts == map[]
    ensures var s := After(ls);
            && s.m.table == InitialTable() && LocksFree(s.m)
            && forall t :: t in s.h.calls ==> s.h.calls[t].ret.Some?
  {
    AlwaysInv(ls);
    NobodyInside(After(ls));
    forall t | t in After(ls).h.calls
      ensures After(ls).h.calls[t].ret.Some?
    {
      RecordFacts(ls, t);
    }
  }

  /** The steps that the activations inside may still take. */
  ghost function OpenWork(ls: seq<Label>): nat
    requires Possible(ls)
  {
    Total(After(ls).m.acts, After(ls).m.next)
  }

  ghost predicate Drained(ls: seq<Label>) {
    Possible(ls) && After(ls).m.acts == map[] && After(ls).m.table == InitialTable()
  }

  lemma SomeoneLeaves(ls: seq<Label>) returns (l: Label)
    requires Possible(ls) && After(ls).m.acts != map[]
    ensures Internal(l) && Possible(ls + [l])
    ensures OpenWork(ls + [l]) < OpenWork(ls)
  {
    NoDeadlock(ls);
    l :| Internal(l) && CanStep(After(ls), l);
    var m := After(ls).m;
    Extend(ls, l);
    StepLowersRank(m, l, l.t);
    TotalChange(m.acts, Apply(m, l).acts, l.t, m.next);
  }

  /** From every reachable state the activations inside can all leave, by their own steps,
      and the table then is the initial one again. */
  lemma {:induction false} EveryoneCanLeave(ls: seq<Label>) returns (all: seq<Label>)
    requires Possible(ls)
    ensures Drained(all) && ls <= all
    ensures forall i :: |ls| <= i < |all| ==> Internal(all[i])
    decreases OpenWork(ls)
  {
    all := ls;
    if After(ls).m.acts == map[] {
      QuietMeansReset(ls);
    } else {
      var l := SomeoneLeaves(ls);
      all := EveryoneCanLeave(ls + [l]);
      assert all[|ls|] == l;
    }
  }

  // -------------------------------------------------- what callers cannot rely on

  /** Call 0 is the only activation so far, and it is at pc. */
  ghost predicate Solo(ls: seq<Label>, pc: Pc, hits: seq<Hit>) {
    && Possible(ls) && !pc.IsInd()
    && After(ls).m.acts == map[0 := pc] && After(ls).m.next == 1
    && 0 in After(ls).h.calls && After(ls).h.calls[0].hits == hits
  }

  /** What a call that is alone finds: the mutexes it does not hold are free, and the
      slots it does not own are free. */
  lemma SoloFacts(ls: seq<Label>, pc: Pc, hits: seq<Hit>)
    requires Solo(ls, pc, hits)
    ensures Shape(After(ls).m) && |After(ls).h.owner| == SLOT_COUNT
    ensures !pc.HoldsGlobal() ==> After(ls).m.globalLock.None?
    ensures forall k :: 0 <= k < SLOT_COUNT && !pc.HoldsLock(k) ==> After(ls).m.slotLocks[k].None?
    ensures forall k :: 0 <= k < SLOT_COUNT && !(pc.OwnsSlot() && pc.k == k) ==> !After(ls).m.table.used[k]
    ensures pc.OwnsSlot() ==> pc.k < SLOT_COUNT && After(ls).m.table.used[pc.k]
                              && Fits(After(ls).m.table.slots[pc.k], pc, hits)
  {
    AlwaysInv(ls);
    var s := After(ls);
    forall k | 0 <= k < SLOT_COUNT && !pc.HoldsLock(k)
      ensures s.m.slotLocks[k].None?
    {
      assert SlotLockOk(s.m, k);
    }
    if pc.OwnsSlot() {
      OwnFacts(s, 0);
    }
  }

  lemma SoloStep(ls: seq<Label>, pc: Pc, hits: seq<Hit>, l: Label, pc': Pc)
    requires Solo(ls, pc, hits) && !Entry(l) && CanStep(After(ls), l) && l.t == 0
    requires Apply(After(ls).m, l).acts == map[0 := pc'] && !pc'.IsInd()
    ensures Solo(ls + [l], pc', hits)
  {
    Extend(ls, l);
  }

  /** Where a call that is alone and has met no indication goes next by itself. */
  function SoloNext(pc: Pc): Pc {
    match pc
    case AllocWant(c) => AllocIn(c)
    case AllocIn(c) => SelectWant(c, 0)
    case SelectWant(c, k) => SelectIn(c, k)
    case SelectIn(c, k) => Sending(c, k)
    case WaitCheck(c, k) => WaitWant(c, k)
    case WaitWant(c, k) => WaitIn(c, k)
    case WaitIn(c, k) => Blocked(c, k, false)
    case WakeWant(c, k, timedOut) => WakeIn(c, k, timedOut)
    case WakeIn(c, k, timedOut) => FreeWant(c, k, if timedOut then FailureTimeout else Success)
    case FreeWant(c, k, st) => FreeIn(c, k, st)
    case FreeIn(c, k, st) => Returning(c, st)
    case _ => pc
  }

  lemma SoloRuns(m: Machine, pc: Pc)
    requires Shape(m) && m.acts == map[0 := pc] && SoloNext(pc) != pc && !pc.IsInd()
    requires !pc.HoldsGlobal() ==> m.globalLock.None?
    requires forall k :: 0 <= k < SLOT_COUNT && !pc.HoldsLock(k) ==> m.slotLocks[k].None?
    requires pc.AllocIn? ==> FirstFree(m.table.used) == 0
    requires pc.OwnsSlot() ==> pc.k < SLOT_COUNT && m.table.used[pc.k] && Fits(m.table.slots[pc.k], pc, [])
    ensures Enabled(m, Run(0)) && Apply(m, Run(0)).acts == map[0 := SoloNext(pc)]
  {
  }

  lemma SoloGo(ls: seq<Label>, pc: Pc)
    requires Solo(ls, pc, []) && SoloNext(pc) != pc
    ensures Solo(ls + [Run(0)], SoloNext(pc), [])
  {
    SoloFacts(ls, pc, []);
    var m := After(ls).m;
    if pc.AllocIn? {
      FirstFreeIs(m.table.used, 0);
    }
    SoloRuns(m, pc);
    SoloStep(ls, pc, [], Run(0), SoloNext(pc));
  }

  /** Its request is sent, or its wait returns without a signal. */
  lemma SoloSent(ls: seq<Label>, c: Call)
    requires Solo(ls, Sending(c, 0), [])
    ensures Solo(ls + [SendResult(0, Success)], WaitCheck(c, 0), [])
  {
    SoloFacts(ls, Sending(c, 0), []);
    SoloStep(ls, Sending(c, 0), [], SendResult(0, Success), WaitCheck(c, 0));
  }

  lemma SoloWoken(ls: seq<Label>, c: Call)
    requires Solo(ls, Blocked(c, 0, false), [])
    ensures Solo(ls + [SpuriousWake(0)], WakeWant(c, 0, false), [])
  {
    SoloFacts(ls, Blocked(c, 0, false), []);
    SoloStep(ls, Blocked(c, 0, false), [], SpuriousWake(0), WakeWant(c, 0, false));
  }

  /** Some run brings call 0, alone and without any indication, to pc. */
  ghost predicate Reaches(pc: Pc, spurious: bool) {
    exists ls :: Solo(ls, pc, []) && (spurious ==> SpuriousWake(0) in ls)
  }

  lemma Go(pc: Pc, spurious: bool)
    requires Reaches(pc, spurious) && SoloNext(pc) != pc
    ensures Reaches(SoloNext(pc), spurious)
  {
    var ls :| Solo(ls, pc, []) && (spurious ==> SpuriousWake(0) in ls);
    SoloGo(ls, pc);
  }

  lemma ReachSelect(c: Call)
    ensures Reaches(SelectWant(c, 0), false)
  {
    InitialInv();
    assert Possible([]) && After([]) == InitialState();
    Extend([], EnterCall(c));
    assert Solo([] + [EnterCall(c)], AllocWant(c), []);
    Go(AllocWant(c), false);
    Go(AllocIn(c), false);
  }

  lemma ReachWait(c: Call)
    requires Reaches(Sending(c, 0), false)
    ensures Reaches(WaitCheck(c, 0), false)
  {
    var ls :| Solo(ls, Sending(c, 0), []);
    SoloSent(ls, c);
  }

  lemma ReachSpuriousWake(c: Call)
    requires Reaches(Blocked(c, 0, false), false)
    ensures Reaches(WakeWant(c, 0, false), true)
  {
    var ls :| Solo(ls, Blocked(c, 0, false), []);
    SoloWoken(ls, c);
  }

  lemma ReachSent(c: Call)
    ensures Reaches(WaitCheck(c, 0), false)
  {
    ReachSelect(c);
    Go(SelectWant(c, 0), false);
    Go(SelectIn(c, 0), false);
    ReachWait(c);
  }

  lemma ReachBlocked(c: Call)
    ensures Reaches(Blocked(c, 0, false), false)
  {
    ReachSent(c);
    Go(WaitCheck(c, 0), false);
    Go(WaitWant(c, 0), false);
    Go(WaitIn(c, 0), false);
  }

  lemma ReachWake(c: Call)
    ensures Reaches(WakeIn(c, 0, false), true)
  {
    ReachBlocked(c);
    ReachSpuriousWake(c);
    Go(WakeWant(c, 0, false), true);
  }

  lemma ReachReturn(c: Call)
    ensures Reaches(Returning(c, Success), true)
  {
    ReachWake(c);
    Go(WakeIn(c, 0, false), true);
    Go(FreeWant(c, 0, Success), true);
    Go(FreeIn(c, 0, Success), true);
  }

  /** A condition wait that returns without a signal makes the request report success
      although no indication ever came: the wait does not check again. */
  lemma SpuriousWakeReportsSuccess(c: Call) returns (ls: seq<Label>)
    ensures Possible(ls) && SpuriousWake(0) in ls
    ensures 0 in After(ls).h.calls && After(ls).h.calls[0].ret == Some(Success)
    ensures After(ls).h.calls[0].hits == []
  {
    ReachReturn(c);
    ls :| Solo(ls, Returning(c, Success), []) && SpuriousWake(0) in ls;
    SoloFacts(ls, Returning(c, Success), []);
    Extend(ls, Run(0));
    ls := ls + [Run(0)];
  }
}
