/** How the concurrent machine's scan of the slots relates to loc_sync_process_ind taken as
    one piece: what each of its steps does in any interleaving, and that without other steps
    in between the whole is ProcessedBy. */
module SyncScan {
  import opened Options
  import opened SyncTable
  import opened SyncProtocol
  import opened SyncInvariant
  import opened SyncTheorems

  // ---------------------------------------------------- one slot, in any run

  /** When the scan of an indication comes to a slot, in any interleaving: if the slot matches
      then, it is recorded and touched, and its call is woken from its wait, is on its way out
      of it already, or finds the mark when it comes to its wait; otherwise nothing happens. */
  lemma ScanMarksMatch(ls: seq<Label>, t: Id)
    requires Possible(ls) && t in After(ls).m.acts && After(ls).m.acts[t].IndSlotIn?
    ensures CanStep(After(ls), Run(t)) && t in After(ls).h.touches && Shape(Next(After(ls), Run(t)).m)
    ensures ScanMarks(After(ls), Next(After(ls), Run(t)), t)
  {
    AlwaysInv(ls);
    ScanMarksStep(After(ls), t);
  }

  ghost predicate ScanMarks(s: State, s': State, t: Id)
    requires Shape(s.m) && Shape(s'.m) && |s.h.owner| == SLOT_COUNT
    requires t in s.m.acts && s.m.acts[t].IndSlotIn? && t in s.h.touches
  {
    var i, ind := s.m.acts[t].i, s.m.acts[t].ind;
    if Awaits(s.m.table, i, ind) then
      && t in s'.h.touches && s'.h.touches[t] == s.h.touches[t] + [Touch(i, Takes(s.m.table, i, ind))]
      && s'.m.table == (if s.m.table.slots[i].waiting then s.m.table
                        else SetSlot(s.m.table, i, s.m.table.slots[i].(arrived := true)))
      && s.h.owner[i].Some? && Noticed(s', i, s.h.owner[i].value)
    else
      s'.m.table == s.m.table && s'.h == s.h
  }

  lemma ScanMarksStep(s: State, t: Id)
    requires Inv(s) && t in s.m.acts && s.m.acts[t].IndSlotIn?
    ensures CanStep(s, Run(t)) && t in s.h.touches && Shape(Next(s, Run(t)).m)
    ensures ScanMarks(s, Next(s, Run(t)), t)
  {
    var i := s.m.acts[t].i;
    IndFacts(s, t);
    ApplyKeepsShape(s.m, Run(t));
    TestsAgree(s.m.table, i, s.m.acts[t].ind);
    if Matches(s.m.table.used[i], s.m.table.slots[i], s.m.acts[t].ind) {
      HitFacts(s, t);
      OwnFacts(s, s.h.owner[i].value);
      TouchOne(s, t, s.h.owner[i].value);
    } else {
      SkipOne(s, t);
    }
  }

  lemma SkipOne(s: State, t: Id)
    requires IndReady(s, t) && s.m.acts[t].IndSlotIn? && Enabled(s.m, Run(t))
    requires !Matches(s.m.table.used[s.m.acts[t].i], s.m.table.slots[s.m.acts[t].i], s.m.acts[t].ind)
    ensures Next(s, Run(t)).m.table == s.m.table && Next(s, Run(t)).h == s.h
  {
  }

  /** The call u that owns slot i knows of an indication, or will find it. */
  ghost predicate Noticed(s: State, i: nat, u: Id)
    requires WellFormed(s.m.table)
  {
    && i < SLOT_COUNT && u in s.m.acts && s.m.acts[u].OwnsSlot() && s.m.acts[u].k == i
    && if s.m.acts[u].Blocked? then s.m.acts[u].signalled
       else s.m.acts[u].WakeWant? || s.m.table.slots[i].arrived
  }

  lemma TouchOne(s: State, t: Id, u: Id)
    requires HitReady(s, t, u) && Enabled(s.m, Run(t))
    ensures var s' := Next(s, Run(t)); var i, ind := s.m.acts[t].i, s.m.acts[t].ind;
            && t in s'.h.touches
            && s'.h.touches[t] == s.h.touches[t] + [Touch(i, Copies(s.m.table.slots[i], ind))]
            && s'.m.table == SetSlot(s.m.table, i, Touched(s.m.table.slots[i], ind))
            && WellFormed(s'.m.table)
            && Noticed(s', i, u)
  {
  }

  /** What an indication ind from t that meets call u adds to its record, in that phase. */
  function Meeting(t: Id, ind: Ind, c: Call, phase: Phase): Hit {
    Hit(ind, t, phase, c.buffer != 0 && ind.hasPayload)
  }

  /** An indication never passes over a call that waits for it, in any interleaving. When
      its scan is at the slot of a selected call with its handle and id: a call that sleeps
      is signalled; one that has not come to its wait finds the mark of the first such
      indication; one that was woken or timed out but has not run meets it again. The payload
      goes to the call's buffer exactly when there are both. */
  lemma AwaitedIndicationIsMet(ls: seq<Label>, t: Id, u: Id)
    requires Possible(ls) && t in After(ls).m.acts && After(ls).m.acts[t].IndSlotIn?
    requires u in After(ls).m.acts && Selected(After(ls).m.acts[u]) && After(ls).m.acts[u].k == After(ls).m.acts[t].i
    requires After(ls).m.acts[u].c.handle == After(ls).m.acts[t].ind.handle
    requires After(ls).m.acts[u].c.indId == After(ls).m.acts[t].ind.id
    ensures CanStep(After(ls), Run(t)) && u in After(ls).h.calls
    ensures var s, s' := After(ls), Next(After(ls), Run(t));
            && u in s'.m.acts && u in s'.h.calls
            && Met(s.m.acts[u], s'.m.acts[u], s'.m.table.slots[s.m.acts[t].i].arrived,
                   s.h.calls[u].hits, s'.h.calls[u].hits, t, s.m.acts[t].ind)
  {
    AlwaysInv(ls);
    var s := After(ls);
    OwnFacts(s, u);
    OutsideSlot(s, t, u);
    if Matches(true, s.m.table.slots[s.m.acts[t].i], s.m.acts[t].ind) {
      HitFacts(s, t);
      MeetOne(s, t, u);
    } else {
      IndFacts(s, t);
      PassOne(s, t, u);
    }
  }

  /** What became of a call at pc that an indication of its own handle and id came to. */
  predicate Met(pc: Pc, pc': Pc, marked: bool, hits: seq<Hit>, hits': seq<Hit>, t: Id, ind: Ind) {
    match pc
    case Blocked(c, k, signalled) =>
      pc' == Blocked(c, k, true) && hits' == hits + [Meeting(t, ind, c, if signalled then Again else Waking)]
    case WakeWant(c, _, timedOut) =>
      pc' == pc && hits' == hits + [Meeting(t, ind, c, if timedOut then Late else Again)]
    case Sending(c, _) => pc' == pc && marked && hits' == MetFirst(hits, Meeting(t, ind, c, Early))
    case WaitCheck(c, _) => pc' == pc && marked && hits' == MetFirst(hits, Meeting(t, ind, c, Early))
    case WaitWant(c, _) => pc' == pc && marked && hits' == MetFirst(hits, Meeting(t, ind, c, Early))
    case FreeWant(_, _, _) => pc' == pc
    case _ => false
  }

  /** Before its wait a call meets one indication only. */
  function MetFirst(hits: seq<Hit>, h: Hit): seq<Hit> {
    if hits == [] then [h] else hits
  }

  /** While t is at a slot, its owner is in no critical section. */
  lemma OutsideSlot(s: State, t: Id, u: Id)
    requires Inv(s) && t in s.m.acts && s.m.acts[t].IndSlotIn? && OwnReady(s, u) && s.m.acts[u].k == s.m.acts[t].i
    requires Selected(s.m.acts[u])
    ensures !s.m.acts[u].WaitIn? && !s.m.acts[u].WakeIn? && !s.m.acts[u].FreeIn?
  {
    assert SlotLockOk(s.m, s.m.acts[t].i);
  }

  lemma MeetOne(s: State, t: Id, u: Id)
    requires HitReady(s, t, u) && Enabled(s.m, Run(t)) && Selected(s.m.acts[u])
    ensures var s' := Next(s, Run(t));
            && u in s'.m.acts && u in s'.h.calls
            && Met(s.m.acts[u], s'.m.acts[u], s'.m.table.slots[s.m.acts[t].i].arrived,
                   s.h.calls[u].hits, s'.h.calls[u].hits, t, s.m.acts[t].ind)
  {
    var s', n := Next(s, Run(t)), HitState(s, t);
    HitRecord(s, t, u);
    HitPlace(s, t, u);
    assert s'.h.calls == n.h.calls && s'.m.table == n.m.table && s'.m.acts[u] == n.m.acts[u];
    MeetFacts(s.h.calls[u], s.m.acts[u], s.m.table.slots[s.m.acts[t].i], s.m.acts[t].ind, t);
  }

  lemma MeetFacts(r: CallRecord, pc: Pc, sl: Slot, ind: Ind, t: Id)
    requires Active(r, pc) && Fits(sl, pc, r.hits) && Matches(true, sl, ind) && Selected(pc)
    requires !pc.WaitIn? && !pc.WakeIn? && !pc.FreeIn?
    ensures Met(pc, if pc.Blocked? then pc.(signalled := true) else pc, Touched(sl, ind).arrived,
                r.hits, r.hits + [Hit(ind, t, PhaseOf(pc), Copies(sl, ind))], t, ind)
  {
  }

  lemma PassOne(s: State, t: Id, u: Id)
    requires IndReady(s, t) && s.m.acts[t].IndSlotIn? && Enabled(s.m, Run(t)) && OwnReady(s, u) && u != t
    requires Selected(s.m.acts[u]) && s.m.acts[u].k == s.m.acts[t].i
    requires s.m.acts[u].c.handle == s.m.acts[t].ind.handle && s.m.acts[u].c.indId == s.m.acts[t].ind.id
    requires !Matches(true, s.m.table.slots[s.m.acts[t].i], s.m.acts[t].ind)
    requires !s.m.acts[u].WaitIn? && !s.m.acts[u].WakeIn? && !s.m.acts[u].FreeIn?
    ensures var s' := Next(s, Run(t));
            && u in s'.m.acts && u in s'.h.calls
            && Met(s.m.acts[u], s'.m.acts[u], s'.m.table.slots[s.m.acts[t].i].arrived,
                   s.h.calls[u].hits, s'.h.calls[u].hits, t, s.m.acts[t].ind)
  {
  }

  // ---------------------------------------------------------- the whole scan

  /** pthread_cond_signal on the conditions of all the given slots. */
  function SignalAll(acts: map<Id, Pc>, ks: set<nat>): map<Id, Pc> {
    map t | t in acts ::
      if acts[t].Blocked? && acts[t].k in ks then acts[t].(signalled := true) else acts[t]
  }

  lemma SignalNone(acts: map<Id, Pc>)
    ensures SignalAll(acts, {}) == acts
  {
  }

  lemma SignalTwice(acts: map<Id, Pc>, a: set<nat>, b: set<nat>)
    ensures SignalAll(SignalAll(acts, a), b) == SignalAll(acts, a + b)
  {
  }

  lemma SignalOne(acts: map<Id, Pc>, k: nat)
    ensures Signal(acts, k) == SignalAll(acts, {k})
  {
  }

  lemma SignalGoto(acts: map<Id, Pc>, ks: set<nat>, t: Id, pc: Pc)
    requires !pc.Blocked?
    ensures SignalAll(acts[t := pc], ks) == SignalAll(acts, ks)[t := pc]
  {
  }

  ghost predicate NoSlotLocked(m: Machine) {
    forall k :: 0 <= k < |m.slotLocks| ==> m.slotLocks[k].None?
  }

  /** n steps of a relation lead from a to b. */
  ghost predicate Chain<T(!new)>(step: (T, T) -> bool, a: T, n: nat, b: T) {
    if n == 0 then a == b else exists c :: step(a, c) && Chain(step, c, n - 1, b)
  }

  lemma {:induction false} ChainsJoin<T(!new)>(step: (T, T) -> bool, a: T, n: nat, b: T, k: nat, c: T)
    requires Chain(step, a, n, b) && Chain(step, b, k, c)
    ensures Chain(step, a, n + k, c)
  {
    if n > 0 {
      var d :| step(a, d) && Chain(step, d, n - 1, b);
      ChainsJoin(step, d, n - 1, b, k, c);
    }
  }

  ghost predicate StepTo(m: Machine, t: Id, m': Machine) {
    Shape(m) && Enabled(m, Run(t)) && Apply(m, Run(t)) == m'
  }

  ghost function StepOf(t: Id): (Machine, Machine) -> bool {
    (m, m') => StepTo(m, t, m')
  }

  /** Steps of t and no others lead from m to m'. */
  ghost predicate Leads(m: Machine, t: Id, m': Machine) {
    exists n: nat :: Chain(StepOf(t), m, n, m')
  }

  lemma OneStep(m: Machine, t: Id, m': Machine)
    requires Shape(m) && Enabled(m, Run(t)) && Apply(m, Run(t)) == m'
    ensures Shape(m') && Leads(m, t, m')
  {
    ApplyKeepsShape(m, Run(t));
    assert StepOf(t)(m, m') && Chain(StepOf(t), m', 0, m');
    assert Chain(StepOf(t), m, 1, m');
  }

  lemma LeadsJoin(m: Machine, t: Id, m1: Machine, m2: Machine)
    requires Leads(m, t, m1) && Leads(m1, t, m2)
    ensures Leads(m, t, m2)
  {
    var n: nat :| Chain(StepOf(t), m, n, m1);
    var k: nat :| Chain(StepOf(t), m1, k, m2);
    ChainsJoin(StepOf(t), m, n, m1, k, m2);
  }

  /** r continues the run ls by steps of t alone, and comes to m. */
  ghost predicate Continues(t: Id, ls: seq<Label>, r: seq<Label>, m: Machine) {
    && ls <= r && (forall j :: |ls| <= j < |r| ==> r[j] == Run(t))
    && Possible(r) && After(r).m == m
  }

  lemma ContinueOne(t: Id, ls: seq<Label>, r: seq<Label>, m: Machine, m': Machine)
    requires Continues(t, ls, r, m) && StepTo(m, t, m')
    ensures Continues(t, ls, r + [Run(t)], m')
  {
    Extend(r, Run(t));
  }

  /** What a step carries over, a chain carries over. */
  lemma {:induction false} Follow<S(!new), T(!new)>(
      step: (T, T) -> bool, at: (S, T) -> bool, go: S -> S, s: S, a: T, n: nat, b: T) returns (r: S)
    requires at(s, a) && Chain(step, a, n, b)
    requires forall x, y, z :: at(x, y) && step(y, z) ==> at(go(x), z)
    ensures at(r, b)
    decreases n
  {
    r := s;
    if n > 0 {
      var c :| step(a, c) && Chain(step, c, n - 1, b);
      r := Follow(step, at, go, go(s), c, n - 1, b);
    }
  }

  /** Such steps continue every run that has come to their start. */
  lemma StepsAreARun(ls: seq<Label>, t: Id, m': Machine) returns (r: seq<Label>)
    requires Possible(ls) && Leads(After(ls).m, t, m')
    ensures Continues(t, ls, r, m')
  {
    var n: nat :| Chain(StepOf(t), After(ls).m, n, m');
    var at := (x, y) => Continues(t, ls, x, y);
    var go := (x: seq<Label>) => x + [Run(t)];
    forall x, y, z | at(x, y) && StepOf(t)(y, z)
      ensures at(go(x), z)
    {
      ContinueOne(t, ls, x, y, z);
    }
    r := Follow(StepOf(t), at, go, ls, After(ls).m, n, m');
  }

  /** The scan t of ind is about to look at slot i, and nobody holds a slot lock. */
  ghost predicate ScanAt(m: Machine, t: Id, ind: Ind, i: nat) {
    && Shape(m) && i <= SLOT_COUNT
    && t in m.acts && m.acts[t] == IndLoop(ind, i, UsedBelow(m.table.used, i), false) && NoSlotLocked(m)
  }

  /** m after the scan has found whole. */
  ghost predicate Scanned(m: Machine, m': Machine, t: Id, ind: Ind, whole: ScanResult)
    requires WellFormed(m.table)
  {
    && Shape(m')
    && t in m'.acts && m'.acts[t] == IndEnd(ind, UsedBelow(m.table.used, SLOT_COUNT))
    && m'.slotLocks == m.slotLocks && m'.globalLock == m.globalLock && m'.next == m.next
    && m'.table == whole.table
    && m'.acts == SignalAll(m.acts, whole.signalled)[t := m'.acts[t]]
  }

  /** The machine after a round for slot i. */
  ghost function Rounded(m: Machine, t: Id, ind: Ind, i: nat, used: bool): Machine
    requires Shape(m) && i < SLOT_COUNT
  {
    var s := m.table.slots[i];
    if Matches(m.table.used[i], s, ind)
    then m.(acts := SignalAll(m.acts, if s.waiting then {i} else {})[t := IndLoop(ind, i + 1, used, Copies(s, ind))],
            table := SetSlot(m.table, i, Touched(s, ind)))
    else Goto(m, t, IndLoop(ind, i + 1, used, false))
  }

  lemma ScanAloneStep(m: Machine, t: Id, ind: Ind, i: nat, used: bool)
    requires Shape(m) && i < SLOT_COUNT && t in m.acts && !m.acts[t].Blocked? && m.slotLocks[i].None?
    requires Shape(LockSlot(m, t, i, IndSlotIn(ind, i, used)))
    ensures ScanStep(LockSlot(m, t, i, IndSlotIn(ind, i, used)), t, ind, i, used) == Rounded(m, t, ind, i, used)
  {
    var m' := ScanStep(LockSlot(m, t, i, IndSlotIn(ind, i, used)), t, ind, i, used);
    SignalOne(m.acts[t := IndSlotIn(ind, i, used)], i);
    SignalNone(m.acts);
    SignalGoto(m.acts, {i}, t, IndSlotIn(ind, i, used));
    assert m'.slotLocks == m.slotLocks;
    assert m'.acts == Rounded(m, t, ind, i, used).acts;
  }

  lemma RoundSteps(m: Machine, t: Id, ind: Ind, i: nat, anyUsed: bool)
    requires Shape(m) && i < SLOT_COUNT && m.slotLocks[i].None?
    requires t in m.acts && m.acts[t] == IndLoop(ind, i, anyUsed, false)
    ensures var used := anyUsed || m.table.used[i];
            var m1, m2 := Goto(m, t, IndSlotWant(ind, i, used)), LockSlot(m, t, i, IndSlotIn(ind, i, used));
            && Enabled(m, Run(t)) && Apply(m, Run(t)) == m1
            && Shape(m1) && Enabled(m1, Run(t)) && Apply(m1, Run(t)) == m2
            && Shape(m2) && Enabled(m2, Run(t)) && Apply(m2, Run(t)) == ScanStep(m2, t, ind, i, used)
  {
  }

  /** One round of the loop by itself: three steps of t. */
  lemma Round(m: Machine, t: Id, ind: Ind, i: nat)
    requires ScanAt(m, t, ind, i) && i < SLOT_COUNT
    ensures var m' := Rounded(m, t, ind, i, UsedBelow(m.table.used, i + 1));
            Shape(m') && Leads(m, t, m')
  {
    var used := UsedBelow(m.table.used, i + 1);
    UsedNext(m.table.used, i);
    RoundSteps(m, t, ind, i, UsedBelow(m.table.used, i));
    ScanAloneStep(m, t, ind, i, used);
    var m1, m2 := Goto(m, t, IndSlotWant(ind, i, used)), LockSlot(m, t, i, IndSlotIn(ind, i, used));
    OneStep(m, t, m1);
    OneStep(m1, t, m2);
    OneStep(m2, t, Rounded(m, t, ind, i, used));
    LeadsJoin(m, t, m1, m2);
    LeadsJoin(m, t, m2, Rounded(m, t, ind, i, used));
  }

  lemma EndLoop(m: Machine, t: Id, ind: Ind, i: nat, anyUsed: bool, consumed: bool)
    requires Shape(m) && t in m.acts && m.acts[t] == IndLoop(ind, i, anyUsed, consumed)
    requires i == SLOT_COUNT || consumed
    requires anyUsed <==> UsedBelow(m.table.used, SLOT_COUNT)
    ensures var m' := Goto(m, t, IndEnd(ind, anyUsed));
            Leads(m, t, m') && Scanned(m, m', t, ind, ScanResult(m.table, None, {}))
  {
    SignalNone(m.acts);
    OneStep(m, t, Goto(m, t, IndEnd(ind, anyUsed)));
  }

  /** The rest of the scan when slot i consumes the payload: a round and the end. */
  lemma ConsumedRound(m: Machine, t: Id, ind: Ind, i: nat) returns (m': Machine)
    requires ScanAt(m, t, ind, i) && i < SLOT_COUNT
    requires Matches(m.table.used[i], m.table.slots[i], ind) && Copies(m.table.slots[i], ind)
    ensures Leads(m, t, m') && Scanned(m, m', t, ind, ScanFrom(m.table, ind, i))
  {
    var used := UsedBelow(m.table.used, i + 1);
    var next := Rounded(m, t, ind, i, used);
    Round(m, t, ind, i);
    UsedMore(m.table.used, i + 1, SLOT_COUNT);
    EndLoop(next, t, ind, i + 1, used, true);
    m' := Goto(next, t, IndEnd(ind, used));
    LeadsJoin(m, t, next, m');
    RoundEnds(m, m', t, ind, i, used);
  }

  /** Otherwise a round leads to the next slot, and the rest of the scan from there is the
      rest of the scan from here. */
  lemma NextRound(m: Machine, t: Id, ind: Ind, i: nat) returns (next: Machine)
    requires ScanAt(m, t, ind, i) && i < SLOT_COUNT
    requires !(Matches(m.table.used[i], m.table.slots[i], ind) && Copies(m.table.slots[i], ind))
    ensures next == Rounded(m, t, ind, i, UsedBelow(m.table.used, i + 1))
    ensures Leads(m, t, next) && ScanAt(next, t, ind, i + 1)
  {
    Round(m, t, ind, i);
    next := Rounded(m, t, ind, i, UsedBelow(m.table.used, i + 1));
  }

  lemma LastRound(m: Machine, t: Id, ind: Ind) returns (m': Machine)
    requires ScanAt(m, t, ind, SLOT_COUNT)
    ensures Leads(m, t, m') && Scanned(m, m', t, ind, ScanFrom(m.table, ind, SLOT_COUNT))
  {
    EndLoop(m, t, ind, SLOT_COUNT, UsedBelow(m.table.used, SLOT_COUNT), false);
    m' := Goto(m, t, IndEnd(ind, UsedBelow(m.table.used, SLOT_COUNT)));
  }

  lemma JoinRound(m: Machine, next: Machine, m': Machine, t: Id, ind: Ind, i: nat)
    requires ScanAt(m, t, ind, i) && i < SLOT_COUNT && ScanAt(next, t, ind, i + 1)
    requires !(Matches(m.table.used[i], m.table.slots[i], ind) && Copies(m.table.slots[i], ind))
    requires next == Rounded(m, t, ind, i, UsedBelow(m.table.used, i + 1))
    requires Leads(m, t, next) && Leads(next, t, m')
    requires Scanned(next, m', t, ind, ScanFrom(next.table, ind, i + 1))
    ensures Leads(m, t, m') && Scanned(m, m', t, ind, ScanFrom(m.table, ind, i))
  {
    RoundGoesOn(m, m', t, ind, i, UsedBelow(m.table.used, i + 1));
    LeadsJoin(m, t, next, m');
  }

  /** The scan from slot i on, by itself. */
  lemma {:induction false} ScanAlone(m: Machine, t: Id, ind: Ind, i: nat) returns (m': Machine)
    requires ScanAt(m, t, ind, i)
    ensures Leads(m, t, m') && Scanned(m, m', t, ind, ScanFrom(m.table, ind, i))
    decreases SLOT_COUNT - i
  {
    if i == SLOT_COUNT {
      m' := LastRound(m, t, ind);
    } else if Matches(m.table.used[i], m.table.slots[i], ind) && Copies(m.table.slots[i], ind) {
      m' := ConsumedRound(m, t, ind, i);
    } else {
      var next := NextRound(m, t, ind, i);
      m' := ScanAlone(next, t, ind, i + 1);
      JoinRound(m, next, m', t, ind, i);
    }
  }

  lemma RoundEnds(m: Machine, m': Machine, t: Id, ind: Ind, i: nat, used: bool)
    requires Shape(m) && i < SLOT_COUNT && t in m.acts && !m.acts[t].Blocked?
    requires Matches(m.table.used[i], m.table.slots[i], ind) && Copies(m.table.slots[i], ind)
    requires WellFormed(Rounded(m, t, ind, i, used).table)
    requires Scanned(Rounded(m, t, ind, i, used), m', t, ind, ScanResult(Rounded(m, t, ind, i, used).table, None, {}))
    ensures Scanned(m, m', t, ind, ScanFrom(m.table, ind, i))
  {
    var woken := if m.table.slots[i].waiting then {i} else {};
    assert ScanFrom(m.table, ind, i) ==
           ScanResult(SetSlot(m.table, i, Touched(m.table.slots[i], ind)), Some(i), woken);
    SignalsJoin(m.acts, t, woken, Rounded(m, t, ind, i, used).acts, {}, m'.acts);
    assert woken + {} == woken;
  }

  lemma RoundGoesOn(m: Machine, m': Machine, t: Id, ind: Ind, i: nat, used: bool)
    requires Shape(m) && i < SLOT_COUNT && t in m.acts && !m.acts[t].Blocked?
    requires !(Matches(m.table.used[i], m.table.slots[i], ind) && Copies(m.table.slots[i], ind))
    requires WellFormed(Rounded(m, t, ind, i, used).table)
    requires Scanned(Rounded(m, t, ind, i, used), m', t, ind, ScanFrom(Rounded(m, t, ind, i, used).table, ind, i + 1))
    ensures Scanned(m, m', t, ind, ScanFrom(m.table, ind, i))
  {
    var next := Rounded(m, t, ind, i, used);
    var rest := ScanFrom(next.table, ind, i + 1).signalled;
    SignalNone(m.acts);
    if Matches(m.table.used[i], m.table.slots[i], ind) {
      SignalsJoin(m.acts, t, if m.table.slots[i].waiting then {i} else {}, next.acts, rest, m'.acts);
    } else {
      SignalsJoin(m.acts, t, {}, next.acts, rest, m'.acts);
      assert {} + rest == rest;
    }
  }

  /** Signals of two parts of the scan are the signals of both together. */
  lemma SignalsJoin(a: map<Id, Pc>, t: Id, x: set<nat>, b: map<Id, Pc>, y: set<nat>, c: map<Id, Pc>)
    requires t in a && t in b && t in c && !b[t].Blocked? && !c[t].Blocked?
    requires b == SignalAll(a, x)[t := b[t]] && c == SignalAll(b, y)[t := c[t]]
    ensures c == SignalAll(a, x + y)[t := c[t]]
  {
    SignalTwice(a, x, y);
    SignalGoto(SignalAll(a, x), y, t, b[t]);
  }

  /** What the machine is after the indication t of ind alone has passed. */
  ghost predicate Passed(m: Machine, m': Machine, t: Id, whole: ScanResult) {
    && m'.table == whole.table
    && m'.acts == SignalAll(m.acts - {t}, whole.signalled)
    && m'.globalLock.None? && m'.slotLocks == m.slotLocks
  }

  /** Its first steps: it takes the global mutex and looks at the array-wide flag. */
  lemma EnterScan(m: Machine, t: Id, ind: Ind)
    requires Shape(m) && t in m.acts && m.acts[t] == IndWant(ind) && m.globalLock.None?
    ensures var m1 := LockGlobal(m, t, IndCheck(ind));
            && Shape(m1) && Leads(m, t, m1)
            && Enabled(m1, Run(t))
            && Apply(m1, Run(t)) == if m.table.inUse then LockGlobal(m, t, IndLoop(ind, 0, false, false))
                                    else m.(acts := m.acts - {t})
  {
    var m1 := LockGlobal(m, t, IndCheck(ind));
    OneStep(m, t, m1);
    assert m.acts[t := IndCheck(ind)] - {t} == m.acts - {t};
  }

  /** Its last step, from the end of the scan. */
  lemma LeaveScan(m: Machine, n: Machine, t: Id, ind: Ind)
    requires Shape(m) && Shape(n) && m.table.inUse && m.globalLock.None? && t in m.acts
    requires Scanned(LockGlobal(m, t, IndLoop(ind, 0, false, false)), n, t, ind, ScanFrom(m.table, ind, 0))
    ensures Enabled(n, Run(t)) && Passed(m, Apply(n, Run(t)), t, ProcessedBy(m.table, ind))
  {
    var whole := ScanFrom(m.table, ind, 0);
    ScanIsWell(m.table, ind, 0);
    WithoutScanner(m.acts, n.acts, t, IndLoop(ind, 0, false, false), whole.signalled);
  }

  lemma WithoutScanner(a: map<Id, Pc>, b: map<Id, Pc>, t: Id, pc: Pc, signalled: set<nat>)
    requires t in b && b == SignalAll(a[t := pc], signalled)[t := b[t]]
    ensures b - {t} == SignalAll(a - {t}, signalled)
  {
  }

  lemma PassUnused(m: Machine, t: Id, ind: Ind) returns (m': Machine)
    requires Shape(m) && t in m.acts && m.acts[t] == IndWant(ind) && m.globalLock.None? && !m.table.inUse
    ensures Leads(m, t, m') && Passed(m, m', t, ProcessedBy(m.table, ind))
  {
    EnterScan(m, t, ind);
    SignalNone(m.acts - {t});
    var m1 := LockGlobal(m, t, IndCheck(ind));
    m' := m.(acts := m.acts - {t});
    OneStep(m1, t, m');
    LeadsJoin(m, t, m1, m');
  }

  lemma StartScan(m: Machine, t: Id, ind: Ind) returns (start: Machine)
    requires Shape(m) && t in m.acts && m.acts[t] == IndWant(ind) && m.globalLock.None? && m.table.inUse
    requires NoSlotLocked(m)
    ensures start == LockGlobal(m, t, IndLoop(ind, 0, false, false))
    ensures Leads(m, t, start) && ScanAt(start, t, ind, 0)
  {
    EnterScan(m, t, ind);
    var m1 := LockGlobal(m, t, IndCheck(ind));
    start := LockGlobal(m, t, IndLoop(ind, 0, false, false));
    OneStep(m1, t, start);
    LeadsJoin(m, t, m1, start);
  }

  lemma PassAlone(m: Machine, t: Id, ind: Ind) returns (m': Machine)
    requires Shape(m) && t in m.acts && m.acts[t] == IndWant(ind) && m.globalLock.None? && NoSlotLocked(m)
    ensures Leads(m, t, m') && Passed(m, m', t, ProcessedBy(m.table, ind))
  {
    if !m.table.inUse {
      m' := PassUnused(m, t, ind);
    } else {
      var start := StartScan(m, t, ind);
      var end := ScanAlone(start, t, ind, 0);
      LeaveScan(m, end, t, ind);
      m' := Apply(end, Run(t));
      OneStep(end, t, m');
      LeadsJoin(m, t, start, end);
      LeadsJoin(m, t, end, m');
    }
  }

  /** An indication that runs without other steps in between does to the table what
      loc_sync_process_ind does as one piece, wakes the calls that it signals, and leaves. */
  lemma IndicationAlone(ls: seq<Label>, t: Id, ind: Ind) returns (r: seq<Label>, m': Machine)
    requires Possible(ls) && t in After(ls).m.acts && After(ls).m.acts[t] == IndWant(ind)
    requires After(ls).m.globalLock.None? && NoSlotLocked(After(ls).m)
    ensures Continues(t, ls, r, m')
    ensures Passed(After(ls).m, m', t, ProcessedBy(After(ls).m.table, ind))
  {
    m' := PassAlone(After(ls).m, t, ind);
    r := StepsAreARun(ls, t, m');
  }
}
