/** The encoder of the integration API for satellites that must not be used: a list of
    (constellation, satellite id) entries becomes one 64-bit mask per constellation and a
    configuration of whole constellations. */
module SvBlacklist {
  import opened Options

  /** Unsupported: a value of GnssConstellationType outside its range. */
  datatype Constellation = Glonass | Qzss | Beidou | Galileo | Sbas | Navic | Gps | Unsupported

  datatype SvEntry = SvEntry(constellation: Constellation, svId: nat)

  /** A 64-bit mask, as the set of the positions of its one bits. */
  type Mask = s: set<nat> | forall b :: b in s ==> IsBit(b)

  predicate IsBit(b: nat) {
    b < 64
  }

  /** GNSS_SV_CONFIG_ALL_BITS_ENABLED_MASK */
  function AllBits(): Mask {
    set b: nat | b < 64 && IsBit(b)
  }

  const BLACKLIST_ALL: nat := 0
  const SBAS_INITIAL: nat := 120
  const SBAS_LENGTH: nat := 39
  const SBAS_INITIAL2: nat := 183

  /** The first satellite id of each constellation. */
  function Initial(k: Constellation): nat {
    match k
    case Gps => 1
    case Glonass => 65
    case Qzss => 193
    case Beidou => 201
    case Galileo => 301
    case Sbas => SBAS_INITIAL
    case Navic => 401
    case Unsupported => 0
  }

  /** The ids that the documentation of GnssSvIdInfo allows. */
  predicate Documented(e: SvEntry) {
    match e.constellation
    case Gps => 1 <= e.svId <= 32
    case Glonass => 65 <= e.svId <= 96
    case Qzss => 193 <= e.svId <= 197
    case Beidou => 201 <= e.svId <= 263
    case Galileo => 301 <= e.svId <= 336
    case Sbas => 120 <= e.svId <= 158 || 183 <= e.svId <= 191
    case Navic => 401 <= e.svId <= 414
    case Unsupported => false
  }

  /** What 1ULL << shiftCnt yields. The language leaves it open when the count is 64 or
      more: beyond stands for what a compiler makes of it. */
  function ShiftedOne(shiftCnt: nat, beyond: nat -> Mask): Mask {
    if shiftCnt < 64 then {shiftCnt} else beyond(shiftCnt)
  }

  /** Whether an entry names one satellite and is not rejected. */
  predicate Accepted(e: SvEntry) {
    e.svId != BLACKLIST_ALL
    && match e.constellation
       case Unsupported => false
       case Sbas => SBAS_INITIAL <= e.svId < SBAS_INITIAL + SBAS_LENGTH
                    || SBAS_INITIAL2 <= e.svId < SBAS_INITIAL2 + 64
       case k => Initial(k) <= e.svId < Initial(k) + 64
  }

  /** The count by which an accepted entry shifts. */
  function Position(e: SvEntry): nat
    requires Accepted(e)
  {
    if e.constellation == Sbas && e.svId >= SBAS_INITIAL2 then e.svId + SBAS_LENGTH - SBAS_INITIAL2
    else e.svId - Initial(e.constellation)
  }

  predicate WholeConstellation(e: SvEntry) {
    e.constellation != Unsupported && e.svId == BLACKLIST_ALL
  }

  /** What an entry adds to the mask of constellation k. */
  function Contribution(e: SvEntry, k: Constellation, beyond: nat -> Mask): Mask {
    if e.constellation != k then {}
    else if WholeConstellation(e) then AllBits()
    else if Accepted(e) then ShiftedOne(Position(e), beyond)
    else {}
  }

  /** The mask of constellation k after a list. */
  function MaskOf(k: Constellation, list: seq<SvEntry>, beyond: nat -> Mask): Mask {
    if list == [] then {}
    else MaskOf(k, list[..|list| - 1], beyond) + Contribution(list[|list| - 1], k, beyond)
  }

  // ------------------------------------------------------------------ positions

  /** An id of the second SBAS range that passes the range test with a count of 64 or more. */
  predicate Overshifts(e: SvEntry) {
    e.constellation == Sbas && 208 <= e.svId <= 246
  }

  /** The shift is defined for every entry except SBAS ids from 208 to 246, which pass the
      range test although the second SBAS range ends at 191; every documented id is
      accepted, with a defined shift. */
  lemma DefinedExactly(e: SvEntry)
    ensures Overshifts(e) ==> Accepted(e)
    ensures Accepted(e) ==> (Position(e) < 64 <==> !Overshifts(e))
    ensures Documented(e) ==> Accepted(e) && Position(e) < 64
  {
  }

  /** Satellites of one constellation have distinct bits, also across the two SBAS ranges. */
  lemma PositionsDistinct(d: SvEntry, e: SvEntry)
    requires Accepted(d) && Accepted(e) && d.constellation == e.constellation
    ensures Position(d) == Position(e) <==> d == e
  {
  }

  // ------------------------------------------------------- the masks as a set

  /** Entry e is about bit b of the mask of k. */
  predicate Selects(e: SvEntry, k: Constellation, b: nat) {
    e.constellation == k && (WholeConstellation(e) || (Accepted(e) && Position(e) == b))
  }

  ghost predicate Selected(list: seq<SvEntry>, k: Constellation, b: nat) {
    exists e :: e in list && Selects(e, k, b)
  }

  lemma {:induction false} MaskContains(k: Constellation, list: seq<SvEntry>, beyond: nat -> Mask, b: nat)
    ensures b in MaskOf(k, list, beyond) <==> exists e :: e in list && b in Contribution(e, k, beyond)
    decreases |list|
  {
    if list != [] {
      assert list == list[..|list| - 1] + [list[|list| - 1]];
      MaskContains(k, list[..|list| - 1], beyond, b);
    }
  }

  lemma ContributionIs(e: SvEntry, k: Constellation, beyond: nat -> Mask, b: nat)
    requires b < 64
    ensures !Overshifts(e) ==> (b in Contribution(e, k, beyond) <==> Selects(e, k, b))
    ensures Overshifts(e) ==> !Selects(e, k, b) && (k == Sbas ==> Contribution(e, k, beyond) == beyond(Position(e)))
  {
    DefinedExactly(e);
    assert IsBit(b);
  }

  /** Each bit of a mask is set exactly when an entry for that satellite, or for the whole
      constellation, is in the list; this whatever the compiler does. */
  ghost predicate Faithful(list: seq<SvEntry>, k: Constellation) {
    forall beyond: nat -> Mask, b: nat :: b < 64 ==> (b in MaskOf(k, list, beyond) <==> Selected(list, k, b))
  }

  ghost predicate NoOvershift(list: seq<SvEntry>, k: Constellation) {
    k == Sbas ==> forall e :: e in list ==> !Overshifts(e)
  }

  lemma SelectedIsSet(list: seq<SvEntry>, k: Constellation, beyond: nat -> Mask, b: nat)
    requires b < 64
    ensures Selected(list, k, b) ==> b in MaskOf(k, list, beyond)
    ensures NoOvershift(list, k) && b in MaskOf(k, list, beyond) ==> Selected(list, k, b)
  {
    MaskContains(k, list, beyond, b);
    forall e | e in list
      ensures Selects(e, k, b) ==> b in Contribution(e, k, beyond)
      ensures NoOvershift(list, k) && b in Contribution(e, k, beyond) ==> Selects(e, k, b)
    {
      ContributionIs(e, k, beyond, b);
    }
  }

  /** A mask is faithful exactly when the list has no SBAS id from 208 to 246, or its other
      entries set all 64 bits anyway. */
  lemma FaithfulExactly(list: seq<SvEntry>, k: Constellation)
    ensures Faithful(list, k) <==> NoOvershift(list, k) || forall b: nat :: b < 64 ==> Selected(list, k, b)
  {
    forall beyond: nat -> Mask, b: nat | b < 64
      ensures Selected(list, k, b) ==> b in MaskOf(k, list, beyond)
      ensures NoOvershift(list, k) && b in MaskOf(k, list, beyond) ==> Selected(list, k, b)
    {
      SelectedIsSet(list, k, beyond, b);
    }
    if !NoOvershift(list, k) && !(forall b: nat :: b < 64 ==> Selected(list, k, b)) {
      var e :| e in list && Overshifts(e);
      var b: nat :| b < 64 && !Selected(list, k, b);
      assert IsBit(b);
      var beyond: nat -> Mask := _ => {b};
      ContributionIs(e, k, beyond, b);
      MaskContains(k, list, beyond, b);
      assert b in MaskOf(k, list, beyond);
    }
  }

  /** The list with SBAS id 208 alone means different masks under different compilers. */
  lemma OvershiftIsUnfaithful()
    ensures var list := [SvEntry(Sbas, 208)];
            && !Faithful(list, Sbas)
            && exists x: nat -> Mask, y: nat -> Mask :: MaskOf(Sbas, list, x) != MaskOf(Sbas, list, y)
  {
    var e := SvEntry(Sbas, 208);
    var list := [e];
    assert e in list && Overshifts(e) && IsBit(0);
    assert !Selected(list, Sbas, 0) by {
      forall d | d in list
        ensures !Selects(d, Sbas, 0)
      {
        DefinedExactly(d);
      }
    }
    FaithfulExactly(list, Sbas);
    var x: nat -> Mask, y: nat -> Mask := _ => {}, _ => {0};
    MaskContains(Sbas, list, x, 0);
    MaskContains(Sbas, list, y, 0);
    ContributionIs(e, Sbas, x, 0);
    ContributionIs(e, Sbas, y, 0);
    assert 0 !in MaskOf(Sbas, list, x) && 0 in MaskOf(Sbas, list, y);
  }

  /** The satellite that bit b of the mask of k stands for, by the documented ranges; the
      second SBAS range follows the 39 ids of the first. */
  function SatelliteOf(k: Constellation, b: nat): SvEntry {
    match k
    case Gps => SvEntry(Gps, b + 1)
    case Glonass => SvEntry(Glonass, b + 65)
    case Qzss => SvEntry(Qzss, b + 193)
    case Beidou => SvEntry(Beidou, b + 201)
    case Galileo => SvEntry(Galileo, b + 301)
    case Navic => SvEntry(Navic, b + 401)
    case Sbas => if b < 39 then SvEntry(Sbas, b + 120) else SvEntry(Sbas, b - 39 + 183)
    case Unsupported => SvEntry(Unsupported, b)
  }

  lemma SatelliteHasBit(k: Constellation, b: nat)
    requires k != Unsupported && b < 64
    ensures Accepted(SatelliteOf(k, b)) && Position(SatelliteOf(k, b)) == b
  {
  }

  /** A bit is set exactly when its satellite, or its whole constellation under id 0, is in
      the list. */
  lemma BitIsSatellite(list: seq<SvEntry>, beyond: nat -> Mask, k: Constellation, b: nat)
    requires k != Unsupported && b < 64
    requires k == Sbas ==> forall e :: e in list && e.constellation == Sbas ==> !(208 <= e.svId <= 246)
    ensures b in MaskOf(k, list, beyond) <==> SatelliteOf(k, b) in list || SvEntry(k, 0) in list
  {
    var e, all := SatelliteOf(k, b), SvEntry(k, 0);
    SatelliteHasBit(k, b);
    SelectedIsSet(list, k, beyond, b);
    forall d | d in list && Selects(d, k, b) && !WholeConstellation(d)
      ensures d == e
    {
      PositionsDistinct(d, e);
    }
    if e in list {
      assert Selects(e, k, b);
    }
    if all in list {
      assert Selects(all, k, b);
    }
  }

  // ---------------------------------------------------------- order and repeats

  /** The order of the entries, and how often they are repeated, do not matter: neither for
      the masks, whatever the compiler does, nor for the constellations. */
  lemma OnlyTheSetMatters(list: seq<SvEntry>, other: seq<SvEntry>, k: Constellation, beyond: nat -> Mask)
    requires forall e :: e in list <==> e in other
    ensures MaskOf(k, list, beyond) == MaskOf(k, other, beyond)
    ensures Barred(list) == Barred(other)
  {
    forall b: nat
      ensures b in MaskOf(k, list, beyond) <==> b in MaskOf(k, other, beyond)
    {
      MaskContains(k, list, beyond, b);
      MaskContains(k, other, beyond, b);
    }
  }

  // ------------------------------------------------------ whole constellations

  /** size: whether it is not 0, which tells the modem to restore its default. */
  datatype TypeConfig = TypeConfig(
    size: bool,
    enabledSvTypes: set<Constellation>,
    blacklistedSvTypes: set<Constellation>)

  const INITIALLY_ENABLED := {Gps, Glonass, Beidou, Qzss, Galileo}

  const SECONDARY_BAND := {Glonass, Beidou, Qzss, Galileo, Navic, Gps}

  /** The constellations that a list blacklists as a whole; SBAS does not support it. */
  function Barred(list: seq<SvEntry>): set<Constellation> {
    set e | e in list && WholeConstellation(e) && e.constellation != Sbas :: e.constellation
  }

  /** ^= on masks that hold one bit per constellation */
  function Xor(a: set<Constellation>, b: set<Constellation>): set<Constellation> {
    (a - b) + (b - a)
  }

  type SvMasks = map<Constellation, Mask>

  function NoMasks(): SvMasks {
    map[Glonass := {}, Qzss := {}, Beidou := {}, Galileo := {}, Sbas := {}, Navic := {}, Gps := {}]
  }

  predicate Complete(masks: SvMasks) {
    forall k :: k != Unsupported ==> k in masks
  }

  ghost predicate MasksOf(masks: SvMasks, list: seq<SvEntry>, beyond: nat -> Mask) {
    Complete(masks) && forall k :: k != Unsupported ==> masks[k] == MaskOf(k, list, beyond)
  }

  // What is sent, entry by entry.

  /** A constellation is blacklisted exactly by its entry with id 0, SBAS never; of the five
      that are enabled at first, the others stay. */
  ghost predicate TypesFit(types: TypeConfig, list: seq<SvEntry>) {
    && types.size
    && forall k: Constellation ::
         && (k in types.blacklistedSvTypes <==> k != Sbas && k != Unsupported && SvEntry(k, 0) in list)
         && (k in types.enabledSvTypes <==>
             (k == Gps || k == Glonass || k == Beidou || k == Qzss || k == Galileo) && SvEntry(k, 0) !in list)
  }

  /** The bits of a mask are exactly the listed satellites, or all of them; for SBAS if no id
      shifts too far. */
  ghost predicate MasksFit(masks: SvMasks, list: seq<SvEntry>) {
    && Complete(masks)
    && forall k: Constellation, b: nat ::
         k != Unsupported && b < 64
         && (k == Sbas ==> forall e :: e in list && e.constellation == Sbas ==> !(208 <= e.svId <= 246)) ==>
           (b in masks[k] <==> SatelliteOf(k, b) in list || SvEntry(k, 0) in list)
  }

  lemma EncodedFits(types: TypeConfig, masks: SvMasks, list: seq<SvEntry>, beyond: nat -> Mask)
    requires types == TypeConfig(true, INITIALLY_ENABLED - Barred(list), Barred(list))
    requires MasksOf(masks, list, beyond)
    ensures TypesFit(types, list) && MasksFit(masks, list)
  {
    forall k: Constellation
      ensures k in Barred(list) <==> k != Sbas && k != Unsupported && SvEntry(k, 0) in list
    {
      if k in Barred(list) {
        var e :| e in list && WholeConstellation(e) && e.constellation != Sbas && e.constellation == k;
        assert e == SvEntry(k, 0);
      }
      if k != Sbas && k != Unsupported && SvEntry(k, 0) in list {
        assert WholeConstellation(SvEntry(k, 0));
      }
    }
    forall k: Constellation, b: nat | k != Unsupported && b < 64
         && (k == Sbas ==> forall e :: e in list && e.constellation == Sbas ==> !(208 <= e.svId <= 246))
      ensures b in masks[k] <==> SatelliteOf(k, b) in list || SvEntry(k, 0) in list
    {
      BitIsSatellite(list, beyond, k, b);
    }
  }

  // -------------------------------------------------------------- the encoder

  /** Where the switch of the source points to, and with which first id and offset. */
  datatype Target = Target(svTypes: set<Constellation>, svMask: bool, initialSvId: nat, svIndexOffset: nat)

  /** The entry passes the range test that follows the switch. */
  predicate InRange(it: SvEntry, t: Target) {
    t.svMask && t.initialSvId <= it.svId < t.initialSvId + 64
  }

  ghost predicate TargetFits(it: SvEntry, t: Target) {
    && (t.svMask ==> it.constellation != Unsupported)
    && (WholeConstellation(it) ==> t.svMask)
    && (it.svId != BLACKLIST_ALL ==> (Accepted(it) <==> InRange(it, t)))
    && (Accepted(it) ==> it.svId + t.svIndexOffset - t.initialSvId == Position(it))
  }

  method Switch(it: SvEntry) returns (t: Target)
    ensures TargetFits(it, t)
    ensures t.svTypes == if it.constellation == Sbas || it.constellation == Unsupported then {} else {it.constellation}
  {
    match it.constellation
    case Sbas =>
      t := Target({}, true, 0, 0);
      if it.svId == BLACKLIST_ALL {
      } else if it.svId >= SBAS_INITIAL2 {
        t := t.(initialSvId := SBAS_INITIAL2, svIndexOffset := SBAS_LENGTH);
      } else if it.svId >= SBAS_INITIAL && it.svId < SBAS_INITIAL + SBAS_LENGTH {
        t := t.(initialSvId := SBAS_INITIAL);
      } else {
        t := t.(svMask := false);
      }
    case Unsupported =>
      t := Target({}, false, 0, 0);
    case k =>
      t := Target({k}, true, Initial(k), 0);
  }

  /** One round of the loop, on the mask of the entry's constellation. */
  method AddToMask(it: SvEntry, t: Target, masks: SvMasks, beyond: nat -> Mask) returns (r: SvMasks)
    requires Complete(masks) && TargetFits(it, t)
    ensures Complete(r) && forall k :: k != Unsupported ==> r[k] == masks[k] + Contribution(it, k, beyond)
  {
    r := masks;
    if t.svMask {
      var svMaskPtr := it.constellation;
      if it.svId == BLACKLIST_ALL {
        assert masks[svMaskPtr] + AllBits() == AllBits();
        r := r[svMaskPtr := AllBits()];
      } else if it.svId < t.initialSvId || it.svId >= t.initialSvId + 64 {
      } else {
        var shiftCnt := it.svId + t.svIndexOffset - t.initialSvId;
        r := r[svMaskPtr := r[svMaskPtr] + ShiftedOne(shiftCnt, beyond)];
      }
    }
  }

  class LocationIntegrationApi {
    const mApiImpl: bool
    const beyond: nat -> Mask
    ghost var sent: seq<(TypeConfig, SvMasks)>
    ghost var sentSecondary: seq<TypeConfig>

    constructor (beyond: nat -> Mask)
      ensures mApiImpl && this.beyond == beyond && sent == [] && sentSecondary == []
    {
      mApiImpl := true;
      this.beyond := beyond;
      sent, sentSecondary := [], [];
    }

    /** None stands for a null pointer. */
    method ConfigConstellations(blacklistedSvIds: Option<seq<SvEntry>>) returns (ok: bool)
      modifies this`sent
      ensures ok == mApiImpl
      ensures !ok ==> sent == old(sent)
      ensures ok ==> |sent| == |old(sent)| + 1 && sent[..|old(sent)|] == old(sent)
      ensures ok && blacklistedSvIds.None? ==> sent[|old(sent)|] == (TypeConfig(false, {}, {}), NoMasks())
      ensures ok && blacklistedSvIds.Some? ==>
        var (list, (types, masks)) := (blacklistedSvIds.value, sent[|old(sent)|]);
        TypesFit(types, list) && MasksFit(masks, list) && MasksOf(masks, list, beyond)
    {
      if !mApiImpl {
        return false;
      }
      var types, masks := TypeConfig(false, {}, {}), NoMasks();
      if blacklistedSvIds.Some? {
        types, masks := Encode(blacklistedSvIds.value);
        EncodedFits(types, masks, blacklistedSvIds.value, beyond);
      }
      sent := sent + [(types, masks)];
      return true;
    }

    /** The loop over the list. */
    method Encode(list: seq<SvEntry>) returns (types: TypeConfig, masks: SvMasks)
      ensures types == TypeConfig(true, INITIALLY_ENABLED - Barred(list), Barred(list))
      ensures MasksOf(masks, list, beyond)
    {
      types, masks := TypeConfig(true, INITIALLY_ENABLED, {}), NoMasks();
      for i := 0 to |list|
        invariant types == TypeConfig(true, INITIALLY_ENABLED - Barred(list[..i]), Barred(list[..i]))
        invariant MasksOf(masks, list[..i], beyond)
      {
        var it := list[i];
        assert list[..i + 1] == list[..i] + [it] && list[..i + 1][..i] == list[..i];
        assert Barred(list[..i + 1]) ==
               Barred(list[..i]) +
               if WholeConstellation(it) && it.constellation != Sbas then {it.constellation} else {};
        var t := Switch(it);
        masks := AddToMask(it, t, masks, beyond);
        if t.svMask && it.svId == BLACKLIST_ALL {
          types := types.(enabledSvTypes := types.enabledSvTypes - t.svTypes,
                          blacklistedSvTypes := types.blacklistedSvTypes + t.svTypes);
        }
      }
      assert list[..|list|] == list;
    }

    /** The secondary band stays enabled exactly for the constellations that are not in the
        given set, and no constellation is both enabled and disabled. */
    method ConfigConstellationSecondaryBand(disablement: Option<set<Constellation>>) returns (ok: bool)
      modifies this`sentSecondary
      ensures ok == mApiImpl
      ensures !ok ==> sentSecondary == old(sentSecondary)
      ensures ok ==>
        var disabled := if disablement.Some? then disablement.value else {};
        && |sentSecondary| == |old(sentSecondary)| + 1 && sentSecondary[..|old(sentSecondary)|] == old(sentSecondary)
        && var config := sentSecondary[|old(sentSecondary)|];
           config.size && forall k: Constellation ::
             && (k in config.blacklistedSvTypes <==> k != Sbas && k != Unsupported && k in disabled)
             && (k in config.enabledSvTypes <==> k != Sbas && k != Unsupported && k !in disabled)
    {
      if !mApiImpl {
        return false;
      }
      var config := TypeConfig(false, {}, {});
      if disablement.Some? {
        var todo := disablement.value;
        while todo != {}
          invariant todo <= disablement.value
          invariant config.blacklistedSvTypes == SECONDARY_BAND * (disablement.value - todo)
          decreases todo
        {
          var k :| k in todo;
          config := config.(enabledSvTypes := SECONDARY_BAND);
          if k != Sbas && k != Unsupported {
            config := config.(blacklistedSvTypes := config.blacklistedSvTypes + {k});
          }
          todo := todo - {k};
        }
      }
      ghost var disabled := if disablement.Some? then disablement.value else {};
      assert config.blacklistedSvTypes == SECONDARY_BAND * disabled;
      config := config.(size := true, enabledSvTypes := SECONDARY_BAND);
      config := config.(enabledSvTypes := Xor(config.enabledSvTypes, config.blacklistedSvTypes));
      assert config.enabledSvTypes == SECONDARY_BAND - disabled;
      sentSecondary := sentSecondary + [config];
      return true;
    }
  }
}
