/** Where the facts about a synchronous request come from: its arguments from the call, the
    indications it met from their arrival, and its result from what its send returned. */
module SyncOrigins {
  import opened Options
  import opened SyncTable
  import opened SyncProtocol
  import opened SyncInvariant
  import opened SyncTheorems

  // -------------------------------------------------------------- the send

  function PlaceOf(s: State, t: Id): Option<Pc> {
    if t in s.m.acts then Some(s.m.acts[t]) else None
  }

  function RecordOf(s: State, t: Id): Option<CallRecord> {
    if t in s.h.calls then Some(s.h.calls[t]) else None
  }

  /** The result that is settled for a call, whether it has returned or not. */
  function SettledResult(place: Option<Pc>, r: Option<CallRecord>): Option<Status> {
    if place.Some? && (place.value.FreeWant? || place.value.FreeIn? || place.value.Returning?)
    then Some(place.value.st)
    else if r.Some? then r.value.ret
    else None
  }

  predicate PastSend(pc: Pc) {
    pc.WaitCheck? || pc.WaitWant? || pc.WaitIn? || pc.Blocked? || pc.WakeWant? || pc.WakeIn?
  }

  /** The call has gone on to its wait. */
  predicate WaitedAt(place: Option<Pc>, r: Option<CallRecord>) {
    || (place.Some? && PastSend(place.value))
    || (r.Some? && r.value.blocked)
    || (r.Some? && r.value.slot.Some?
        && SettledResult(place, r).Some? && !SettledResult(place, r).value.SendFailed?)
  }

  predicate FailedSend(s: State, t: Id, code: nat) {
    SettledResult(PlaceOf(s, t), RecordOf(s, t)) == Some(SendFailed(code))
  }

  predicate Waited(s: State, t: Id) {
    WaitedAt(PlaceOf(s, t), RecordOf(s, t))
  }

  /** Two states in which a call differs at most by the indications that met it. */
  predicate Alike(p: Option<Pc>, p': Option<Pc>, r: Option<CallRecord>, r': Option<CallRecord>) {
    && (p == p' || (p.Some? && p'.Some? && p.value.Blocked? && p'.value.Blocked?))
    && (r == r' || (r.Some? && r'.Some? && r'.value == r.value.(hits := r'.value.hits)))
  }

  lemma AlikeSettles(p: Option<Pc>, p': Option<Pc>, r: Option<CallRecord>, r': Option<CallRecord>)
    requires Alike(p, p', r, r')
    ensures SettledResult(p, r) == SettledResult(p', r') && (WaitedAt(p, r) <==> WaitedAt(p', r'))
  {
  }

  ghost predicate SameCall(s: State, s': State, t: Id) {
    Alike(PlaceOf(s, t), PlaceOf(s', t), RecordOf(s, t), RecordOf(s', t))
  }

  /** What a step may change of this. */
  ghost predicate SendKept(s: State, l: Label, t: Id) {
    && CanStep(s, l)
    && (forall code: nat :: FailedSend(Next(s, l), t, code) <==>
          FailedSend(s, t, code) || l == SendResult(t, SendFailed(code)))
    && (Waited(Next(s, l), t) <==> Waited(s, t) || l == SendResult(t, Success))
  }

  lemma SameCallKeepsSend(s: State, l: Label, t: Id)
    requires CanStep(s, l) && SameCall(s, Next(s, l), t) && !(l.SendResult? && l.t == t)
    ensures SendKept(s, l, t)
  {
    AlikeSettles(PlaceOf(s, t), PlaceOf(Next(s, l), t), RecordOf(s, t), RecordOf(Next(s, l), t));
  }

  lemma NewIsFresh(s: State)
    requires Inv(s)
    ensures s.m.next !in s.h.calls && s.m.next !in s.m.acts
  {
    forall u | u in s.h.calls
      ensures u < s.m.next
    {
      assert RecordOk(s, u);
    }
  }

  lemma ScanSame(s: State, u: Id, t: Id)
    requires CanStep(s, Run(u)) && s.m.acts[u].IndSlotIn? && t != u
    ensures SameCall(s, Next(s, Run(u)), t)
  {
  }

  lemma ForeignSame(s: State, u: Id, t: Id)
    requires CanStep(s, Run(u)) && !s.m.acts[u].IndSlotIn? && t != u
    ensures SameCall(s, Next(s, Run(u)), t)
  {
  }

  lemma DecidedSame(s: State, l: Label, t: Id)
    requires CanStep(s, l) && (l.SendResult? || l.TimeOut? || l.SpuriousWake?) && t != l.t
    ensures SameCall(s, Next(s, l), t)
  {
  }

  lemma EnterSame(s: State, l: Label, t: Id)
    requires CanStep(s, l) && (l.EnterCall? || l.EnterInd?) && t != s.m.next
    ensures SameCall(s, Next(s, l), t)
  {
  }

  lemma EnterKeepsSend(s: State, l: Label)
    requires CanStep(s, l) && (l.EnterCall? || l.EnterInd?)
    requires s.m.next !in s.h.calls && s.m.next !in s.m.acts
    ensures SendKept(s, l, s.m.next)
  {
    assert PlaceOf(s, s.m.next) == None && RecordOf(s, s.m.next) == None;
  }

  lemma SentKeepsSend(s: State, t: Id, st: Status)
    requires CanStep(s, SendResult(t, st)) && t in s.h.calls && Active(s.h.calls[t], s.m.acts[t])
    ensures SendKept(s, SendResult(t, st), t)
  {
  }

  lemma WokenKeepsSend(s: State, l: Label)
    requires (l.TimeOut? || l.SpuriousWake?) && CanStep(s, l) && l.t in s.h.calls
    requires Active(s.h.calls[l.t], s.m.acts[l.t])
    ensures SendKept(s, l, l.t)
  {
  }

  /** An indication is no call. */
  lemma IndKeepsSend(s: State, t: Id)
    requires CanStep(s, Run(t)) && s.m.acts[t].IsInd() && t !in s.h.calls
    ensures SendKept(s, Run(t), t)
  {
    var p := PlaceOf(Next(s, Run(t)), t);
    assert p.None? || p.value.IsInd();
    assert RecordOf(Next(s, Run(t)), t) == None;
  }

  lemma SearchKeepsSend(s: State, t: Id)
    requires CanStep(s, Run(t)) && (s.m.acts[t].AllocWant? || s.m.acts[t].AllocIn?)
    requires t in s.h.calls && Active(s.h.calls[t], s.m.acts[t])
    ensures SendKept(s, Run(t), t)
  {
  }

  lemma ReturnKeepsSend(s: State, t: Id)
    requires CanStep(s, Run(t)) && s.m.acts[t].Returning? && t in s.h.calls && Active(s.h.calls[t], s.m.acts[t])
    ensures SendKept(s, Run(t), t)
  {
  }

  lemma WaiterKeepsSend(s: State, t: Id)
    requires CanStep(s, Run(t)) && PastSend(s.m.acts[t]) && t in s.h.calls
    requires Active(s.h.calls[t], s.m.acts[t])
    requires s.m.acts[t].WaitCheck? ==> s.m.table.used[s.m.acts[t].k]
    requires s.m.acts[t].WaitIn? ==> !s.m.table.slots[s.m.acts[t].k].waiting
    ensures SendKept(s, Run(t), t)
  {
  }

  lemma OutsideKeepsSend(s: State, t: Id)
    requires CanStep(s, Run(t)) && s.m.acts[t].OwnsSlot() && !PastSend(s.m.acts[t]) && t in s.h.calls
    requires Active(s.h.calls[t], s.m.acts[t])
    ensures SendKept(s, Run(t), t)
  {
  }

  lemma OwnerKeepsSend(s: State, t: Id)
    requires CanStep(s, Run(t)) && s.m.acts[t].OwnsSlot() && t in s.h.calls
    requires Active(s.h.calls[t], s.m.acts[t])
    requires s.m.acts[t].WaitCheck? ==> s.m.table.used[s.m.acts[t].k]
    requires s.m.acts[t].WaitIn? ==> !s.m.table.slots[s.m.acts[t].k].waiting
    ensures SendKept(s, Run(t), t)
  {
    if PastSend(s.m.acts[t]) { WaiterKeepsSend(s, t); } else { OutsideKeepsSend(s, t); }
  }

  lemma RunKeepsSend(s: State, t: Id)
    requires Inv(s) && CanStep(s, Run(t))
    ensures SendKept(s, Run(t), t)
  {
    var pc := s.m.acts[t];
    if pc.IsInd() {
      IndKeepsSend(s, t);
    } else if pc.OwnsSlot() {
      OwnFacts(s, t);
      OwnerKeepsSend(s, t);
    } else {
      assert RecordOk(s, t);
      if pc.Returning? { ReturnKeepsSend(s, t); } else { SearchKeepsSend(s, t); }
    }
  }

  lemma StepKeepsSend(s: State, l: Label, t: Id)
    requires Inv(s) && CanStep(s, l)
    ensures SendKept(s, l, t)
  {
    if l.EnterCall? || l.EnterInd? {
      if t == s.m.next {
        NewIsFresh(s);
        EnterKeepsSend(s, l);
      } else {
        EnterSame(s, l, t);
        SameCallKeepsSend(s, l, t);
      }
    } else if l.t != t {
      if l.Run? {
        if s.m.acts[l.t].IndSlotIn? { ScanSame(s, l.t, t); } else { ForeignSame(s, l.t, t); }
      } else {
        DecidedSame(s, l, t);
      }
      SameCallKeepsSend(s, l, t);
    } else if l.Run? {
      RunKeepsSend(s, t);
    } else {
      OwnFacts(s, t);
      if l.SendResult? { SentKeepsSend(s, t, l.st); } else { WokenKeepsSend(s, l); }
    }
  }

  /** What the run ls says about the send of t is what s shows. */
  ghost predicate SendShown(s: State, ls: seq<Label>, t: Id, code: nat) {
    && (FailedSend(s, t, code) <==> SendResult(t, SendFailed(code)) in ls)
    && (Waited(s, t) <==> SendResult(t, Success) in ls)
  }

  lemma SendShownNext(s: State, l: Label, ls: seq<Label>, t: Id, code: nat)
    requires SendKept(s, l, t) && SendShown(s, ls, t, code)
    ensures SendShown(Next(s, l), ls + [l], t, code)
  {
    assert FailedSend(Next(s, l), t, code) <==> FailedSend(s, t, code) || l == SendResult(t, SendFailed(code));
    assert Waited(Next(s, l), t) <==> Waited(s, t) || l == SendResult(t, Success);
  }

  /** Over every run: a call's result is settled as a failed send with a code exactly if its
      send returned that code, and it goes to its wait exactly if its send succeeded. */
  lemma {:induction false} SendDecides(ls: seq<Label>, t: Id, code: nat)
    requires Possible(ls)
    ensures SendShown(After(ls), ls, t, code)
    decreases |ls|
  {
    if ls != [] {
      var m := |ls| - 1;
      var s := After(ls[..m]);
      SendDecides(ls[..m], t, code);
      AlwaysInv(ls[..m]);
      StepKeepsSend(s, ls[m], t);
      SendShownNext(s, ls[m], ls[..m], t, code);
      assert ls == ls[..m] + [ls[m]];
    }
  }

  /** A returned call reports a failed send exactly with the code that its send returned; if
      it slept, or succeeded with a slot, its send had succeeded. */
  lemma FailedSendsAreReported(ls: seq<Label>, t: Id, code: nat)
    requires Possible(ls) && t in After(ls).h.calls && After(ls).h.calls[t].ret.Some?
    ensures var r := After(ls).h.calls[t];
            && (r.ret == Some(SendFailed(code)) <==> SendResult(t, SendFailed(code)) in ls)
            && (r.blocked ==> SendResult(t, Success) in ls)
            && (r.slot.Some? && !r.ret.value.SendFailed? ==> SendResult(t, Success) in ls)
  {
    FreedExactlyOnce(ls, t);
    SendDecides(ls, t, code);
  }

  // ----------------------------------------------------------- the arguments

  /** Step n of the run is the arrival of activation t. */
  ghost predicate ArrivesAt(ls: seq<Label>, n: nat, t: Id) {
    n < |ls| && Possible(ls[..n]) && After(ls[..n]).m.next == t
  }

  ghost predicate CalledWith(ls: seq<Label>, t: Id, c: Call) {
    exists n: nat :: ArrivesAt(ls, n, t) && ls[n] == EnterCall(c)
  }

  ghost predicate Indicated(ls: seq<Label>, t: Id, ind: Ind) {
    exists n: nat :: ArrivesAt(ls, n, t) && ls[n] == EnterInd(ind)
  }

  lemma ArrivalStays(ls: seq<Label>, m: nat, t: Id, c: Call, ind: Ind)
    requires m <= |ls|
    ensures CalledWith(ls[..m], t, c) ==> CalledWith(ls, t, c)
    ensures Indicated(ls[..m], t, ind) ==> Indicated(ls, t, ind)
  {
    forall n: nat | n < m && ArrivesAt(ls[..m], n, t)
      ensures ArrivesAt(ls, n, t)
    {
      assert ls[..m][..n] == ls[..n];
    }
  }

  ghost predicate HasInd(s: State, t: Id, ind: Ind) {
    PlaceOf(s, t).Some? && PlaceOf(s, t).value.IsInd() && PlaceOf(s, t).value.ind == ind
  }

  ghost predicate HasCall(s: State, t: Id, c: Call) {
    RecordOf(s, t).Some? && RecordOf(s, t).value.c == c
  }

  lemma EnterArguments(s: State, l: Label, t: Id, c: Call, ind: Ind)
    requires Inv(s) && CanStep(s, l) && (l.EnterCall? || l.EnterInd?)
    ensures HasInd(Next(s, l), t, ind) ==> HasInd(s, t, ind) || (l == EnterInd(ind) && s.m.next == t)
    ensures HasCall(Next(s, l), t, c) ==> HasCall(s, t, c) || (l == EnterCall(c) && s.m.next == t)
  {
    if t != s.m.next {
      EnterSame(s, l, t);
    } else {
      NewIsFresh(s);
    }
  }

  lemma OwnInd(s: State, t: Id, ind: Ind)
    requires CanStep(s, Run(t)) && HasInd(Next(s, Run(t)), t, ind)
    ensures HasInd(s, t, ind)
  {
  }

  lemma OwnCall(s: State, t: Id, c: Call)
    requires CanStep(s, Run(t)) && !s.m.acts[t].IndSlotIn? && HasCall(Next(s, Run(t)), t, c)
    ensures HasCall(s, t, c)
  {
  }

  lemma ScanArguments(s: State, u: Id, t: Id, c: Call)
    requires CanStep(s, Run(u)) && s.m.acts[u].IndSlotIn?
    ensures HasCall(Next(s, Run(u)), t, c) ==> HasCall(s, t, c)
  {
  }

  lemma DecidedArguments(s: State, l: Label, c: Call, ind: Ind)
    requires CanStep(s, l) && (l.SendResult? || l.TimeOut? || l.SpuriousWake?)
    ensures HasInd(Next(s, l), l.t, ind) ==> HasInd(s, l.t, ind)
    ensures HasCall(Next(s, l), l.t, c) ==> HasCall(s, l.t, c)
  {
  }

  lemma StepArguments(s: State, l: Label, t: Id, c: Call, ind: Ind)
    requires Inv(s) && CanStep(s, l)
    ensures HasInd(Next(s, l), t, ind) ==> HasInd(s, t, ind) || (l == EnterInd(ind) && s.m.next == t)
    ensures HasCall(Next(s, l), t, c) ==> HasCall(s, t, c) || (l == EnterCall(c) && s.m.next == t)
  {
    if l.EnterCall? || l.EnterInd? {
      EnterArguments(s, l, t, c, ind);
    } else if l.t != t {
      if l.Run? {
        if s.m.acts[l.t].IndSlotIn? { ScanSame(s, l.t, t); } else { ForeignSame(s, l.t, t); }
      } else {
        DecidedSame(s, l, t);
      }
    } else if l.Run? {
      if HasInd(Next(s, l), t, ind) { OwnInd(s, t, ind); }
      if s.m.acts[t].IndSlotIn? { ScanArguments(s, t, t, c); }
      else if HasCall(Next(s, l), t, c) { OwnCall(s, t, c); }
    } else {
      DecidedArguments(s, l, c, ind);
    }
  }

  /** A call works with the arguments it was given, and an indication with what arrived. */
  lemma {:induction false} ArgumentsAreGiven(ls: seq<Label>, t: Id, c: Call, ind: Ind)
    requires Possible(ls)
    ensures HasCall(After(ls), t, c) ==> CalledWith(ls, t, c)
    ensures HasInd(After(ls), t, ind) ==> Indicated(ls, t, ind)
    decreases |ls|
  {
    if ls != [] {
      var m := |ls| - 1;
      ArgumentsAreGiven(ls[..m], t, c, ind);
      AlwaysInv(ls[..m]);
      ArrivalStays(ls, m, t, c, ind);
      StepArguments(After(ls[..m]), ls[m], t, c, ind);
      assert After(ls[..m]).m.next == t ==> ArrivesAt(ls, m, t);
    }
  }
}
