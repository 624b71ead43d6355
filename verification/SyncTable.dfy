/** The slot table of loc_api_sync_req.cpp: eight request slots, their in-use
    flags and the array-wide in-use flag, together with the effect that each
    critical section has on them.

    The functions say what one critical section does to the table. They are used
    twice: as the specification of the methods of class SyncArray, which run the
    loops of the source over mutable arrays, and as the table part of the steps
    of the concurrent machine in module SyncProtocol. */
module SyncTable {
  import opened Options

  const SLOT_COUNT: nat := 8

  /** LOC_CLIENT_INVALID_HANDLE_VALUE and the null buffer pointer. */
  const INVALID_HANDLE: nat := 0
  const NO_BUFFER: nat := 0

  datatype Slot = Slot(
    handle: nat,
    selected: bool,
    waiting: bool,
    arrived: bool,
    recvId: nat,
    buffer: nat,
    reqId: nat)

  const RESET_SLOT := Slot(INVALID_HANDLE, false, false, false, 0, NO_BUFFER, 0)

  datatype Table = Table(inUse: bool, used: seq<bool>, slots: seq<Slot>)

  ghost predicate WellFormed(t: Table) {
    |t.used| == SLOT_COUNT && |t.slots| == SLOT_COUNT
  }

  function InitialTable(): Table {
    Table(false, seq(SLOT_COUNT, _ => false), seq(SLOT_COUNT, _ => RESET_SLOT))
  }

  /** A synchronous request: client handle, request id, awaited indication id, payload buffer. */
  datatype Call = Call(handle: nat, reqId: nat, indId: nat, buffer: nat)

  /** An indication; hasPayload: payload pointer not null and size positive. */
  datatype Ind = Ind(handle: nat, id: nat, hasPayload: bool)

  // ---------------------------------------------------------------- alloc

  /** Index of the first free slot, or |used| when all are taken. */
  function FirstFree(used: seq<bool>): (k: nat)
    ensures k <= |used|
    ensures forall j :: 0 <= j < k ==> used[j]
    ensures k < |used| ==> !used[k]
  {
    if used == [] || !used[0] then 0 else 1 + FirstFree(used[1..])
  }

  function AllocSlot(t: Table): Table {
    var k := FirstFree(t.used);
    if k < |t.used| then t.(used := t.used[k := true], inUse := true) else t
  }

  // ----------------------------------------------------------------- free

  /** The array-wide flag is kept while another slot is still in use. */
  function FreeSlot(t: Table, k: nat): Table
    requires WellFormed(t) && k < SLOT_COUNT
  {
    var used := t.used[k := false];
    Table(t.inUse && UsedBelow(used, SLOT_COUNT), used, t.slots[k := RESET_SLOT])
  }

  /** Some slot below n is in use. */
  predicate UsedBelow(used: seq<bool>, n: nat)
    requires n <= |used|
  {
    exists j :: 0 <= j < n && used[j]
  }

  // --------------------------------------------------------------- select

  function SelectedSlot(c: Call): Slot {
    Slot(c.handle, true, false, false, c.indId, c.buffer, c.reqId)
  }

  // ----------------------------------------------------------- indication

  /** The test of loc_sync_process_ind for one slot. */
  predicate Matches(used: bool, s: Slot, ind: Ind) {
    used && s.handle == ind.handle && ind.id == s.recvId && !s.arrived
  }

  /** Whether the payload of a matching indication is copied out. */
  predicate Copies(s: Slot, ind: Ind) {
    s.buffer != NO_BUFFER && ind.hasPayload
  }

  /** What a matching indication does to the slot itself. */
  function Touched(s: Slot, ind: Ind): Slot {
    if s.waiting then s.(recvId := ind.id) else s.(arrived := true)
  }

  // The contracts say field by field which slots an indication is for, and do not use the
  // three definitions above.

  /** Slot k is in use, waits for this indication of this client, and has not seen it. */
  ghost predicate Awaits(t: Table, k: nat, ind: Ind)
    requires k < |t.used| && k < |t.slots|
  {
    t.used[k] && t.slots[k].handle == ind.handle && t.slots[k].recvId == ind.id && !t.slots[k].arrived
  }

  /** It also has a buffer for the payload, and there is one. */
  ghost predicate Takes(t: Table, k: nat, ind: Ind)
    requires k < |t.used| && k < |t.slots|
  {
    Awaits(t, k, ind) && t.slots[k].buffer != NO_BUFFER && ind.hasPayload
  }

  /** Slot k takes the payload and no lower slot does. */
  ghost predicate IsConsumer(t: Table, ind: Ind, k: nat)
    requires WellFormed(t)
  {
    k < SLOT_COUNT && Takes(t, k, ind) && forall j :: 0 <= j < k ==> !Takes(t, j, ind)
  }

  /** What a scan does: the table after it, the slot that got the payload, and the slots
      whose callers were signalled. */
  datatype ScanResult = ScanResult(table: Table, copiedTo: Option<nat>, signalled: set<nat>)

  function SetSlot(t: Table, k: nat, s: Slot): Table
    requires k < |t.slots|
  {
    t.(slots := t.slots[k := s])
  }

  /** The scan of the slots from i on, with no other thread in between. */
  function ScanFrom(t: Table, ind: Ind, i: nat): ScanResult
    requires |t.used| == SLOT_COUNT && |t.slots| == SLOT_COUNT && i <= SLOT_COUNT
    decreases SLOT_COUNT - i
  {
    if i == SLOT_COUNT then ScanResult(t, None, {})
    else if !Matches(t.used[i], t.slots[i], ind) then ScanFrom(t, ind, i + 1)
    else
      var touched := SetSlot(t, i, Touched(t.slots[i], ind));
      var signalled := if t.slots[i].waiting then {i} else {};
      if Copies(t.slots[i], ind) then ScanResult(touched, Some(i), signalled)
      else
        var rest := ScanFrom(touched, ind, i + 1);
        rest.(signalled := signalled + rest.signalled)
  }

  /** loc_sync_process_ind with no other thread in between. */
  function ProcessedBy(t: Table, ind: Ind): ScanResult
    requires |t.used| == SLOT_COUNT && |t.slots| == SLOT_COUNT
  {
    if !t.inUse then ScanResult(t, None, {})
    else
      var r := ScanFrom(t, ind, 0);
      r.(table := r.table.(inUse := UsedBelow(t.used, SLOT_COUNT)))
  }

  /** The payload goes to the first slot from i on that takes it, if any. */
  ghost predicate ConsumedWell(t: Table, ind: Ind, i: nat, to: Option<nat>)
    requires WellFormed(t)
  {
    match to
    case Some(k) => i <= k < SLOT_COUNT && Takes(t, k, ind) && forall j :: i <= j < k ==> !Takes(t, j, ind)
    case None => forall j :: i <= j < SLOT_COUNT ==> !Takes(t, j, ind)
  }

  /** The slots from i on that await the indication are signalled or marked, up to the one
      that gets the payload, and no others. */
  ghost predicate TouchedWell(t: Table, ind: Ind, i: nat, r: ScanResult)
    requires WellFormed(t)
  {
    && WellFormed(r.table) && r.table.used == t.used && r.table.inUse == t.inUse
    && (forall j :: 0 <= j < SLOT_COUNT ==>
          if i <= j && Awaits(t, j, ind) && (r.copiedTo.Some? ==> j <= r.copiedTo.value)
          then
            && r.table.slots[j] == (if t.slots[j].waiting then t.slots[j] else t.slots[j].(arrived := true))
            && (j in r.signalled <==> t.slots[j].waiting)
          else r.table.slots[j] == t.slots[j] && j !in r.signalled)
  }

  lemma {:induction false} ScanConsumes(t: Table, ind: Ind, i: nat)
    requires WellFormed(t) && i <= SLOT_COUNT
    ensures ConsumedWell(t, ind, i, ScanFrom(t, ind, i).copiedTo)
    decreases SLOT_COUNT - i
  {
    if i < SLOT_COUNT {
      TestsAgree(t, i, ind);
      if !Matches(t.used[i], t.slots[i], ind) {
        ScanConsumes(t, ind, i + 1);
      } else if !Copies(t.slots[i], ind) {
        var touched := SetSlot(t, i, Touched(t.slots[i], ind));
        ScanConsumes(touched, ind, i + 1);
        assert forall j :: i < j < SLOT_COUNT ==> (Takes(touched, j, ind) <==> Takes(t, j, ind));
      }
    }
  }

  lemma {:induction false} ScanTouches(t: Table, ind: Ind, i: nat)
    requires WellFormed(t) && i <= SLOT_COUNT
    ensures TouchedWell(t, ind, i, ScanFrom(t, ind, i))
    decreases SLOT_COUNT - i
  {
    if i < SLOT_COUNT {
      ScanConsumes(t, ind, i);
      TestsAgree(t, i, ind);
      if !Matches(t.used[i], t.slots[i], ind) {
        ScanTouches(t, ind, i + 1);
      } else if !Copies(t.slots[i], ind) {
        var touched := SetSlot(t, i, Touched(t.slots[i], ind));
        ScanTouches(touched, ind, i + 1);
        assert forall j :: i < j < SLOT_COUNT ==> (Awaits(touched, j, ind) <==> Awaits(t, j, ind));
      }
    }
  }

  /** What the scan from slot i on does, in terms of the slots' fields. */
  lemma ScanIsWell(t: Table, ind: Ind, i: nat)
    requires WellFormed(t) && i <= SLOT_COUNT
    ensures ConsumedWell(t, ind, i, ScanFrom(t, ind, i).copiedTo) && TouchedWell(t, ind, i, ScanFrom(t, ind, i))
  {
    ScanConsumes(t, ind, i);
    ScanTouches(t, ind, i);
  }

  lemma TestsAgree(t: Table, i: nat, ind: Ind)
    requires WellFormed(t) && i < SLOT_COUNT
    ensures Matches(t.used[i], t.slots[i], ind) <==> Awaits(t, i, ind)
    ensures Matches(t.used[i], t.slots[i], ind) && Copies(t.slots[i], ind) <==> Takes(t, i, ind)
    ensures Awaits(t, i, ind) ==>
              Touched(t.slots[i], ind) == if t.slots[i].waiting then t.slots[i] else t.slots[i].(arrived := true)
  {
  }

  /** The array that the source keeps in the global loc_sync_array, with the flag
      loc_sync_call_initialized. */
  class SyncArray {
    var initialized: bool
    var inUse: bool
    const slotInUse: array<bool>
    const slots: array<Slot>

    ghost predicate Valid()
      reads this, slotInUse, slots
    {
      slotInUse.Length == SLOT_COUNT && slots.Length == SLOT_COUNT
    }

    ghost function Contents(): (t: Table)
      reads this, slotInUse, slots
      requires Valid()
      ensures WellFormed(t)
    {
      Table(inUse, slotInUse[..], slots[..])
    }

    /** Static storage: all fields zero. */
    constructor ()
      ensures Valid() && fresh(slotInUse) && fresh(slots)
      ensures !initialized && Contents() == InitialTable()
    {
      initialized, inUse := false, false;
      slotInUse := new bool[SLOT_COUNT](_ => false);
      slots := new Slot[SLOT_COUNT](_ => RESET_SLOT);
      new;
      assert slotInUse[..] == InitialTable().used;
      assert slots[..] == InitialTable().slots;
    }

    /** loc_sync_req_init: a second call leaves requests in flight alone. */
    method Init()
      requires Valid()
      modifies this, slotInUse, slots
      ensures Valid() && initialized
      ensures Contents() == if old(initialized) then old(Contents()) else InitialTable()
    {
      if initialized {
        return;
      }
      inUse := false;
      for i := 0 to SLOT_COUNT
        invariant !inUse && forall j :: 0 <= j < i ==> !slotInUse[j] && slots[j] == RESET_SLOT
      {
        slotInUse[i] := false;
        slots[i] := RESET_SLOT;
      }
      initialized := true;
      assert slotInUse[..] == InitialTable().used;
      assert slots[..] == InitialTable().slots;
    }

    /** loc_alloc_slot: takes the lowest free slot; None stands for the result -1. */
    method Alloc() returns (selectId: Option<nat>)
      requires Valid()
      modifies this`inUse, slotInUse
      ensures Valid() && Contents() == AllocSlot(old(Contents()))
      ensures selectId.None? <==> forall k :: 0 <= k < SLOT_COUNT ==> old(slotInUse[k])
      ensures selectId.Some? ==>
                && selectId.value < SLOT_COUNT && !old(slotInUse[selectId.value])
                && forall j :: 0 <= j < selectId.value ==> old(slotInUse[j])
    {
      selectId := None;
      var i := 0;
      while i < SLOT_COUNT
        invariant i <= SLOT_COUNT && selectId.None?
        invariant forall j :: 0 <= j < i ==> slotInUse[j]
        invariant Contents() == old(Contents())
      {
        if !slotInUse[i] {
          FirstFreeIs(slotInUse[..], i);
          selectId := Some(i);
          slotInUse[i] := true;
          inUse := true;
          break;
        }
        i := i + 1;
      }
      if selectId.None? {
        FirstFreeIs(slotInUse[..], SLOT_COUNT);
      }
    }

    /** loc_free_slot. */
    method Free(selectId: nat)
      requires Valid() && selectId < SLOT_COUNT
      modifies this`inUse, slotInUse, slots
      ensures Valid() && Contents() == FreeSlot(old(Contents()), selectId)
      ensures inUse <==> old(inUse) && exists k :: 0 <= k < SLOT_COUNT && slotInUse[k]
    {
      slotInUse[selectId] := false;
      slots[selectId] := RESET_SLOT;
      var i := 0;
      while i < SLOT_COUNT
        invariant i <= SLOT_COUNT
        invariant forall j :: 0 <= j < i ==> !slotInUse[j]
      {
        if slotInUse[i] { break; }
        i := i + 1;
      }
      if i >= SLOT_COUNT {
        inUse := false;
      }
    }

    /** loc_sync_select_ind, once a slot has been allocated. */
    method Select(selectId: nat, c: Call)
      requires Valid() && selectId < SLOT_COUNT
      modifies slots
      ensures Valid()
      ensures Contents() == old(Contents()).(slots := old(slots[..])[selectId :=
                Slot(c.handle, true, false, false, c.indId, c.buffer, c.reqId)])
    {
      slots[selectId] := slots[selectId].(
        handle := c.handle, selected := true, waiting := false, arrived := false,
        recvId := c.indId, reqId := c.reqId, buffer := c.buffer);
    }

    /** The body of the scan for one slot, under its lock. */
    method ScanSlot(i: nat, ind: Ind) returns (copied: bool, woken: bool)
      requires Valid() && i < SLOT_COUNT
      modifies slots
      ensures var t := old(Contents()); var s := t.slots[i];
              if Matches(t.used[i], s, ind)
              then Contents() == SetSlot(t, i, Touched(s, ind)) && copied == Copies(s, ind) && woken == s.waiting
              else Contents() == t && !copied && !woken
    {
      copied, woken := false, false;
      if slotInUse[i] && slots[i].handle == ind.handle && ind.id == slots[i].recvId && !slots[i].arrived {
        copied := slots[i].buffer != NO_BUFFER && ind.hasPayload;
        if slots[i].waiting {
          slots[i] := slots[i].(recvId := ind.id);
          woken := true;
        } else {
          slots[i] := slots[i].(arrived := true);
        }
      }
    }

    /** The loop over the slots. */
    method Scan(ind: Ind) returns (anyUsed: bool, copiedTo: Option<nat>, signalled: set<nat>)
      requires Valid()
      modifies slots
      ensures ScanResult(Contents(), copiedTo, signalled) == ScanFrom(old(Contents()), ind, 0)
      ensures anyUsed <==> UsedBelow(slotInUse[..], SLOT_COUNT)
    {
      copiedTo, signalled := None, {};
      var consumed := false;
      anyUsed := false;
      var i := 0;
      ghost var whole, used := ScanFrom(Contents(), ind, 0), slotInUse[..];
      while i < SLOT_COUNT && !consumed
        invariant i <= SLOT_COUNT && slotInUse[..] == used
        invariant anyUsed <==> UsedBelow(used, i)
        invariant consumed ==> anyUsed && whole == ScanResult(Contents(), copiedTo, signalled)
        invariant !consumed ==> copiedTo.None? && whole == Onto(signalled, ScanFrom(Contents(), ind, i))
        decreases SLOT_COUNT - i
      {
        anyUsed := anyUsed || slotInUse[i];
        ghost var t, sent := Contents(), signalled;
        var copied, woken := ScanSlot(i, ind);
        ScanNext(t, ind, i, sent);
        UsedNext(used, i);
        if copied {
          copiedTo := Some(i);
          consumed := true;
        }
        if woken {
          signalled := signalled + {i};
        }
        i := i + 1;
      }
      UsedMore(used, i, SLOT_COUNT);
    }

    /** loc_sync_process_ind with no other thread in between: the payload goes to the
        lowest matching slot that has a buffer and to no other; every matching slot up
        to it is signalled when its caller waits and marked otherwise; slots above it
        are not touched; the array-wide flag is cleared only when no slot is in use. */
    method ProcessInd(ind: Ind) returns (copiedTo: Option<nat>, signalled: set<nat>)
      requires Valid()
      modifies this`inUse, slots
      ensures Valid() && slotInUse[..] == old(slotInUse[..])
      ensures !old(inUse) ==> Contents() == old(Contents()) && copiedTo.None? && signalled == {}
      ensures old(inUse) ==>
                && (copiedTo.Some? ==> IsConsumer(old(Contents()), ind, copiedTo.value))
                && (copiedTo.None? ==> forall k :: 0 <= k < SLOT_COUNT ==> !IsConsumer(old(Contents()), ind, k))
      ensures old(inUse) ==>
                forall k :: 0 <= k < SLOT_COUNT ==>
                  var before := old(slots[k]);
                  if Awaits(old(Contents()), k, ind) && (copiedTo.Some? ==> k <= copiedTo.value)
                  then
                    && slots[k] == (if before.waiting then before else before.(arrived := true))
                    && (k in signalled <==> before.waiting)
                  else slots[k] == before && k !in signalled
      ensures inUse <==> old(inUse) && exists k :: 0 <= k < SLOT_COUNT && slotInUse[k]
      ensures ScanResult(Contents(), copiedTo, signalled) == ProcessedBy(old(Contents()), ind)
    {
      if !inUse {
        return None, {};
      }
      ghost var before := Contents();
      var anyUsed;
      anyUsed, copiedTo, signalled := Scan(ind);
      ScanIsWell(before, ind, 0);
      if !anyUsed {
        inUse := false;
      }
    }
  }

  lemma UsedNext(used: seq<bool>, i: nat)
    requires i < |used|
    ensures UsedBelow(used, i + 1) <==> UsedBelow(used, i) || used[i]
  {
  }

  lemma UsedMore(used: seq<bool>, i: nat, n: nat)
    requires i <= n <= |used|
    ensures UsedBelow(used, i) ==> UsedBelow(used, n)
  {
  }

  lemma ScanNext(t: Table, ind: Ind, i: nat, sent: set<nat>)
    requires WellFormed(t) && i < SLOT_COUNT
    ensures var s := t.slots[i]; var touched := SetSlot(t, i, Touched(s, ind));
            var sent' := if s.waiting then sent + {i} else sent;
            Onto(sent, ScanFrom(t, ind, i)) ==
            if !Matches(t.used[i], s, ind) then Onto(sent, ScanFrom(t, ind, i + 1))
            else if Copies(s, ind) then ScanResult(touched, Some(i), sent')
            else Onto(sent', ScanFrom(touched, ind, i + 1))
  {
    var s := t.slots[i];
    OntoTwice(sent, if s.waiting then {i} else {}, ScanFrom(SetSlot(t, i, Touched(s, ind)), ind, i + 1));
  }

  /** r after further slots were signalled before it. */
  function Onto(signalled: set<nat>, r: ScanResult): ScanResult {
    r.(signalled := signalled + r.signalled)
  }

  lemma OntoTwice(a: set<nat>, b: set<nat>, r: ScanResult)
    ensures Onto(a, Onto(b, r)) == Onto(a + b, r)
  {
    assert a + (b + r.signalled) == a + b + r.signalled;
  }

  // ------------------------------------------------- facts about the functions

  lemma FirstFreeIs(used: seq<bool>, k: nat)
    requires k <= |used|
    requires forall j :: 0 <= j < k ==> used[j]
    requires k < |used| ==> !used[k]
    ensures FirstFree(used) == k
  {
  }
}
