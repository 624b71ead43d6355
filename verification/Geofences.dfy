/** The ids of a client's geofences: the client's own ids in requests and responses, session
    ids between the daemon and the HAL, and a map from the first to the second. */
module Geofences {
  import opened Options

  type GfMap = map<nat, nat>

  datatype GfRequest = AddReq | RemoveReq | ModifyReq | PauseReq | ResumeReq

  const MAX_GEOFENCE_COUNT := 20

  /** LOCATION_ERROR_SUCCESS */
  const SUCCESS: nat := 0

  function Elements(ids: seq<nat>): set<nat> {
    set id | id in ids
  }

  /** setGeofenceIds */
  function SetIds(m: GfMap, clientIds: seq<nat>, sessionIds: seq<nat>): GfMap
    requires |clientIds| == |sessionIds|
  {
    if clientIds == [] then m
    else
      var n := |clientIds| - 1;
      SetIds(m, clientIds[..n], sessionIds[..n])[clientIds[n] := sessionIds[n]]
  }

  /** The map after getSessionIds: looking an id up enters it, with session 0. */
  function LookedUp(m: GfMap, clientIds: seq<nat>): GfMap {
    m + map c | c in Elements(clientIds) - m.Keys :: 0
  }

  function SessionOf(m: GfMap, c: nat): nat {
    if c in m then m[c] else 0
  }

  /** The result of getSessionIds. */
  function SessionIds(m: GfMap, clientIds: seq<nat>): seq<nat> {
    seq(|clientIds|, i requires 0 <= i < |clientIds| => SessionOf(m, clientIds[i]))
  }

  /** Whether getClientIds may answer c for session s: it takes a client id that is mapped to
      s, the last one in the order of the hash table, and 0 if there is none. */
  ghost predicate Names(m: GfMap, s: nat, c: nat) {
    if s in m.Values then c in m && m[c] == s else c == 0
  }

  ghost predicate AllNamed(m: GfMap, sessionIds: seq<nat>, clientIds: seq<nat>) {
    |clientIds| == |sessionIds| && forall i :: 0 <= i < |sessionIds| ==> Names(m, sessionIds[i], clientIds[i])
  }

  /** api: mLocationApi is not null. added: mGeofenceIds, the HAL's last answer to
      addGeofences, is not null. pending: mGfPendingMessages. unanswered is noted by an
      observer at the HAL: the requests to which it has not responded. */
  datatype Fences = Fences(
    api: bool,
    ids: GfMap,
    added: bool,
    pending: seq<GfRequest>,
    unanswered: seq<GfRequest>)

  function NoFences(api: bool): Fences {
    Fences(api, map[], false, [], [])
  }

  /** sessions: what the HAL returns when it is asked; None for null, which is a refusal
      without a response. A request without geofences does not ask the HAL, but is taken
      for accepted when an earlier one was. */
  function AddGeofences(g: Fences, clientIds: seq<nat>, sessions: Option<seq<nat>>): Fences
    requires sessions.Some? ==> |sessions.value| == |clientIds|
  {
    if |clientIds| > MAX_GEOFENCE_COUNT then g
    else if clientIds == [] || !g.api then
      if !g.added then g else g.(pending := g.pending + [AddReq])
    else
      match sessions
      case None => g.(added := false)
      case Some(ids) =>
        g.(ids := SetIds(g.ids, clientIds, ids), added := true,
           pending := g.pending + [AddReq], unanswered := g.unanswered + [AddReq])
  }

  /** removeGeofences, modifyGeofences, pauseGeofences and resumeGeofences */
  function Refer(g: Fences, kind: GfRequest, clientIds: seq<nat>): Fences {
    if clientIds == [] || (kind == ModifyReq && |clientIds| > MAX_GEOFENCE_COUNT) then g
    else
      g.(ids := LookedUp(g.ids, clientIds), pending := g.pending + [kind],
         unanswered := if g.api then g.unanswered + [kind] else g.unanswered)
  }

  /** The client ids that a response takes out of the map. */
  function Erased(kind: GfRequest, errors: seq<nat>, names: seq<nat>): set<nat>
    requires |errors| == |names|
  {
    set i | 0 <= i < |names| && (kind == RemoveReq || errors[i] != SUCCESS) :: names[i]
  }

  /** onCollectiveResponseCallback. names: what getClientIds answers. */
  function Respond(g: Fences, errors: seq<nat>, names: seq<nat>): Fences
    requires |errors| == |names|
  {
    var answered := g.(unanswered := if g.unanswered == [] then [] else g.unanswered[1..]);
    if g.pending == [] then answered
    else answered.(ids := g.ids - Erased(g.pending[0], errors, names), pending := g.pending[1..])
  }

  // --------------------------------------------------------------------- runs

  datatype GfEvent =
    | Add(clientIds: seq<nat>, sessions: Option<seq<nat>>)
    | Ask(kind: GfRequest, clientIds: seq<nat>)
    | Response(errors: seq<nat>, sessionIds: seq<nat>, names: seq<nat>)

  /** The ids that the HAL hands out are not zero, and none is in use. */
  ghost predicate FreshIds(m: GfMap, ids: seq<nat>) {
    && (forall i :: 0 <= i < |ids| ==> ids[i] != 0 && ids[i] !in m.Values)
    && (forall i, j :: 0 <= i < j < |ids| ==> ids[i] != ids[j])
  }

  ghost predicate GfEnabled(g: Fences, e: GfEvent) {
    match e
    case Add(clientIds, sessions) =>
      sessions.Some? ==> |sessions.value| == |clientIds| && FreshIds(g.ids, sessions.value)
    case Ask(kind, _) => kind != AddReq
    case Response(errors, sessionIds, names) => |errors| == |sessionIds| && AllNamed(g.ids, sessionIds, names)
  }

  ghost function GfStep(g: Fences, e: GfEvent): Fences
    requires GfEnabled(g, e)
  {
    match e
    case Add(clientIds, sessions) => AddGeofences(g, clientIds, sessions)
    case Ask(kind, clientIds) => Refer(g, kind, clientIds)
    case Response(errors, _, names) => Respond(g, errors, names)
  }

  ghost predicate GfPossible(api: bool, es: seq<GfEvent>)
    decreases |es|, 0
  {
    es == [] || (GfPossible(api, es[..|es| - 1]) && GfEnabled(GfAfter(api, es[..|es| - 1]), es[|es| - 1]))
  }

  ghost function GfAfter(api: bool, es: seq<GfEvent>): Fences
    requires GfPossible(api, es)
    decreases |es|, 1
  {
    if es == [] then NoFences(api) else GfStep(GfAfter(api, es[..|es| - 1]), es[|es| - 1])
  }

  // --------------------------------------------------------------- injectivity

  /** No two client ids share a session, other than the 0 of unknown ids. */
  ghost predicate Injective(m: GfMap) {
    forall c, d :: c in m && d in m && m[c] == m[d] && m[c] != 0 ==> c == d
  }

  lemma {:induction false} SetIdsKeeps(m: GfMap, clientIds: seq<nat>, sessionIds: seq<nat>)
    requires |clientIds| == |sessionIds| && Injective(m) && FreshIds(m, sessionIds)
    ensures var r := SetIds(m, clientIds, sessionIds);
            && Injective(r)
            && (forall c :: c in r ==> r[c] in m.Values || r[c] in sessionIds)
            && (forall c :: c in m ==> c in r && (c !in clientIds ==> r[c] == m[c]))
    decreases |clientIds|
  {
    if clientIds != [] {
      var n := |clientIds| - 1;
      SetIdsKeeps(m, clientIds[..n], sessionIds[..n]);
      var before := SetIds(m, clientIds[..n], sessionIds[..n]);
      forall c | c in before
        ensures before[c] != sessionIds[n]
      {
        if before[c] in sessionIds[..n] {
          var i :| 0 <= i < n && sessionIds[i] == before[c];
        }
      }
    }
  }

  /** Over all runs of additions, other requests and responses, unknown ids included. */
  lemma {:induction false} AlwaysInjective(api: bool, es: seq<GfEvent>)
    requires GfPossible(api, es)
    ensures Injective(GfAfter(api, es).ids)
    decreases |es|
  {
    if es != [] {
      var g := GfAfter(api, es[..|es| - 1]);
      AlwaysInjective(api, es[..|es| - 1]);
      match es[|es| - 1]
      case Add(clientIds, Some(ids)) => SetIdsKeeps(g.ids, clientIds, ids);
      case _ =>
    }
  }

  // ---------------------------------------------------------------- round trip

  lemma LookedUpIs(m: GfMap, clientIds: seq<nat>, i: nat)
    requires i < |clientIds|
    ensures clientIds[i] in LookedUp(m, clientIds)
    ensures LookedUp(m, clientIds)[clientIds[i]] == SessionIds(m, clientIds)[i] == SessionOf(m, clientIds[i])
  {
  }

  /** Client ids survive the way to session ids and back, whatever the order of the hash
      table, exactly when no other client id has the same session. */
  lemma RoundTripExactly(m: GfMap, clientIds: seq<nat>)
    ensures var m' := LookedUp(m, clientIds);
            (forall names :: AllNamed(m', SessionIds(m, clientIds), names) ==> names == clientIds)
            <==>
            (forall i, d :: 0 <= i < |clientIds| && d in m' && m'[d] == SessionOf(m, clientIds[i]) ==>
               d == clientIds[i])
  {
    var m', sessions := LookedUp(m, clientIds), SessionIds(m, clientIds);
    forall i | 0 <= i < |clientIds|
      ensures clientIds[i] in m' && m'[clientIds[i]] == sessions[i] && sessions[i] in m'.Values
    {
      LookedUpIs(m, clientIds, i);
    }
    if forall names :: AllNamed(m', sessions, names) ==> names == clientIds {
      forall i, d | 0 <= i < |clientIds| && d in m' && m'[d] == SessionOf(m, clientIds[i])
        ensures d == clientIds[i]
      {
        assert AllNamed(m', sessions, clientIds[i := d]);
        assert clientIds[i := d][i] == d;
      }
    }
  }

  /** At any time, for ids that all have a session: the map does not change, and the ids come
      back as they were. */
  lemma KnownIdsRoundTrip(api: bool, es: seq<GfEvent>, clientIds: seq<nat>, names: seq<nat>)
    requires GfPossible(api, es)
    requires forall i :: 0 <= i < |clientIds| ==>
               clientIds[i] in GfAfter(api, es).ids && GfAfter(api, es).ids[clientIds[i]] != 0
    requires AllNamed(GfAfter(api, es).ids, SessionIds(GfAfter(api, es).ids, clientIds), names)
    ensures LookedUp(GfAfter(api, es).ids, clientIds) == GfAfter(api, es).ids
    ensures names == clientIds
  {
    AlwaysInjective(api, es);
    var m := GfAfter(api, es).ids;
    assert LookedUp(m, clientIds) == m;
    forall i | 0 <= i < |clientIds|
      ensures names[i] == clientIds[i]
    {
      assert SessionIds(m, clientIds)[i] == m[clientIds[i]];
      assert m[clientIds[i]] in m.Values;
    }
  }

  /** Of the ids that have a session, a response erases those that it names by their session
      as removed or failed; and also the id 0, when it names a session that nobody has. */
  lemma ErasedExactly(m: GfMap, kind: GfRequest, errors: seq<nat>, sessionIds: seq<nat>, names: seq<nat>, c: nat)
    requires Injective(m) && |errors| == |sessionIds| && AllNamed(m, sessionIds, names)
    requires c in m && m[c] != 0
    ensures c in Erased(kind, errors, names) <==>
            exists i :: 0 <= i < |sessionIds| && (kind == RemoveReq || errors[i] != 0)
                        && (sessionIds[i] == m[c] || (c == 0 && sessionIds[i] !in m.Values))
  {
    assert m[c] in m.Values;
    if c in Erased(kind, errors, names) {
      var i :| 0 <= i < |names| && (kind == RemoveReq || errors[i] != SUCCESS) && names[i] == c;
      assert Names(m, sessionIds[i], names[i]);
    }
    if i :| 0 <= i < |sessionIds| && (kind == RemoveReq || errors[i] != SUCCESS)
            && (sessionIds[i] == m[c] || (c == 0 && sessionIds[i] !in m.Values)) {
      assert Names(m, sessionIds[i], names[i]);
      assert names[i] == c;
    }
  }

  // -------------------------------------------------------- pending responses

  /** The HAL responds once to each request. */
  ghost predicate AnswersOnce(api: bool, es: seq<GfEvent>)
    requires GfPossible(api, es)
    decreases |es|
  {
    es == [] ||
    (AnswersOnce(api, es[..|es| - 1])
     && (es[|es| - 1].Response? ==> GfAfter(api, es[..|es| - 1]).unanswered != []))
  }

  /** A message that is noted as pending although the HAL was not asked. */
  predicate Phantom(g: Fences, e: GfEvent) {
    match e
    case Add(clientIds, _) => g.added && clientIds == []
    case Ask(kind, clientIds) =>
      !g.api && clientIds != [] && !(kind == ModifyReq && |clientIds| > 20)
    case Response(_, _, _) => false
  }

  ghost function Phantoms(api: bool, es: seq<GfEvent>): nat
    requires GfPossible(api, es)
    decreases |es|
  {
    if es == [] then 0
    else Phantoms(api, es[..|es| - 1]) + if Phantom(GfAfter(api, es[..|es| - 1]), es[|es| - 1]) then 1 else 0
  }

  /** The queue of pending messages matches the responses to come exactly when no message was
      noted without a request to the HAL; each such message puts it one further behind. */
  lemma {:induction false} PendingFitsExactly(api: bool, es: seq<GfEvent>)
    requires GfPossible(api, es) && AnswersOnce(api, es)
    ensures var g := GfAfter(api, es);
            && |g.pending| == |g.unanswered| + Phantoms(api, es)
            && (g.pending == g.unanswered <==> Phantoms(api, es) == 0)
            && g.api == api && (g.added ==> api)
    decreases |es|
  {
    if es != [] {
      PendingFitsExactly(api, es[..|es| - 1]);
    }
  }

  lemma Extend(api: bool, es: seq<GfEvent>, e: GfEvent, g: Fences)
    requires GfPossible(api, es) && GfEnabled(GfAfter(api, es), e) && GfStep(GfAfter(api, es), e) == g
    ensures GfPossible(api, es + [e]) && GfAfter(api, es + [e]) == g
  {
    assert (es + [e])[..|es + [e]| - 1] == es;
  }

  /** A response that names the session of c, the only geofence. */
  lemma RespondToOnly(g: Fences, c: nat, s: nat)
    requires g.ids == map[c := s] && g.pending != [] && g.unanswered != []
    ensures GfEnabled(g, Response([SUCCESS], [s], [c]))
    ensures GfStep(g, Response([SUCCESS], [s], [c])) ==
            Fences(g.api, if g.pending[0] == RemoveReq then map[] else map[c := s], g.added,
                   g.pending[1..], g.unanswered[1..])
  {
    assert g.ids[c] in g.ids.Values;
    var erased := Erased(g.pending[0], [SUCCESS], [c]);
    if g.pending[0] == RemoveReq {
      assert [c][0] in erased;
    } else {
      assert erased == {};
    }
  }

  /** Such a run: after an empty addition, the response to a removal is taken for the
      response to that addition, and the removed geofence stays in the map. */
  lemma EmptyAddRun(c: nat, s: nat) returns (es: seq<GfEvent>)
    requires s != 0
    ensures GfPossible(true, es) && |es| == 5
    ensures es[1] == Add([], None) && es[3] == Ask(RemoveReq, [c]) && es[4] == Response([SUCCESS], [s], [c])
    ensures GfAfter(true, es) == Fences(true, map[c := s], true, [RemoveReq], [])
  {
    var m := map[c := s];
    var add, none, done := Add([c], Some([s])), Add([], None), Response([SUCCESS], [s], [c]);
    assert SetIds(map[], [c], [s]) == m;
    Extend(true, [], add, Fences(true, m, true, [AddReq], [AddReq]));
    es := [] + [add];
    Extend(true, es, none, Fences(true, m, true, [AddReq, AddReq], [AddReq]));
    es := es + [none];
    RespondToOnly(GfAfter(true, es), c, s);
    Extend(true, es, done, Fences(true, m, true, [AddReq], []));
    es := es + [done];
    assert LookedUp(m, [c]) == m;
    Extend(true, es, Ask(RemoveReq, [c]), Fences(true, m, true, [AddReq, RemoveReq], [RemoveReq]));
    es := es + [Ask(RemoveReq, [c])];
    RespondToOnly(GfAfter(true, es), c, s);
    Extend(true, es, done, Fences(true, m, true, [RemoveReq], []));
    es := es + [done];
  }

  /** A run without phantom messages, with one response per request, that has come to g. */
  ghost predicate Orderly(es: seq<GfEvent>, g: Fences) {
    GfPossible(true, es) && GfAfter(true, es) == g && AnswersOnce(true, es) && Phantoms(true, es) == 0
  }

  lemma Onward(es: seq<GfEvent>, g: Fences, e: GfEvent, g': Fences)
    requires Orderly(es, g) && GfEnabled(g, e) && GfStep(g, e) == g'
    requires !Phantom(g, e) && (e.Response? ==> g.unanswered != [])
    ensures Orderly(es + [e], g')
  {
    assert (es + [e])[..|es + [e]| - 1] == es;
  }

  function Two(s0: nat, s5: nat): GfMap {
    map[0 := s0, 5 := s5]
  }

  lemma AddTwo(s0: nat, s5: nat)
    requires s0 != 0 && s5 != 0 && s0 != s5
    ensures Orderly([Add([0, 5], Some([s0, s5]))], Fences(true, Two(s0, s5), true, [AddReq], [AddReq]))
  {
    var add := Add([0, 5], Some([s0, s5]));
    SetTwo(s0, s5);
    assert Orderly([], NoFences(true));
    Onward([], NoFences(true), add, Fences(true, Two(s0, s5), true, [AddReq], [AddReq]));
    assert [] + [add] == [add];
  }

  lemma AskRemoval(es: seq<GfEvent>, g: Fences, c: nat)
    requires Orderly(es, g) && g.api && c in g.ids
    ensures Orderly(es + [Ask(RemoveReq, [c])],
                    g.(pending := g.pending + [RemoveReq], unanswered := g.unanswered + [RemoveReq]))
  {
    assert LookedUp(g.ids, [c]) == g.ids;
    Onward(es, g, Ask(RemoveReq, [c]),
           g.(pending := g.pending + [RemoveReq], unanswered := g.unanswered + [RemoveReq]));
  }

  lemma TwoAdded(es: seq<GfEvent>, g: Fences, s0: nat, s5: nat)
    requires Orderly(es, g) && g.ids == Two(s0, s5) && g.pending != [] && g.pending[0] == AddReq && g.unanswered != []
    requires s0 != s5
    ensures Orderly(es + [Response([SUCCESS, SUCCESS], [s0, s5], [0, 5])],
                    g.(pending := g.pending[1..], unanswered := g.unanswered[1..]))
  {
    var m := g.ids;
    assert m[0] in m.Values && m[5] in m.Values;
    assert Names(m, s0, 0) && Names(m, s5, 5);
    assert Erased(AddReq, [SUCCESS, SUCCESS], [0, 5]) == {};
    assert m - {} == m;
    Onward(es, g, Response([SUCCESS, SUCCESS], [s0, s5], [0, 5]),
           g.(pending := g.pending[1..], unanswered := g.unanswered[1..]));
  }

  /** Two geofences with ids 0 and 5, and two removals of the second on the way. */
  lemma TwoRemovals(s0: nat, s5: nat) returns (es: seq<GfEvent>)
    requires s0 != 0 && s5 != 0 && s0 != s5
    ensures es == [Add([0, 5], Some([s0, s5])), Ask(RemoveReq, [5]), Ask(RemoveReq, [5]),
                   Response([SUCCESS, SUCCESS], [s0, s5], [0, 5])]
    ensures Orderly(es, Fences(true, Two(s0, s5), true, [RemoveReq, RemoveReq], [RemoveReq, RemoveReq]))
  {
    AddTwo(s0, s5);
    var g1 := Fences(true, Two(s0, s5), true, [AddReq], [AddReq]);
    var g2 := Fences(true, Two(s0, s5), true, [AddReq, RemoveReq], [AddReq, RemoveReq]);
    var g3 := Fences(true, Two(s0, s5), true, [AddReq, RemoveReq, RemoveReq], [AddReq, RemoveReq, RemoveReq]);
    es := [Add([0, 5], Some([s0, s5]))];
    AskRemoval(es, g1, 5);
    es := es + [Ask(RemoveReq, [5])];
    AskRemoval(es, g2, 5);
    es := es + [Ask(RemoveReq, [5])];
    TwoAdded(es, g3, s0, s5);
    es := es + [Response([SUCCESS, SUCCESS], [s0, s5], [0, 5])];
  }

  lemma SetTwo(s0: nat, s5: nat)
    ensures SetIds(map[], [0, 5], [s0, s5]) == Two(s0, s5)
  {
    assert [0, 5][..1] == [0] && [s0, s5][..1] == [s0];
    assert SetIds(map[], [0], [s0]) == map[0 := s0];
  }

  lemma RemovedOne(m: GfMap, s: nat, c: nat)
    requires Names(m, s, c)
    ensures AllNamed(m, [s], [c]) && Erased(RemoveReq, [SUCCESS], [c]) == {c}
  {
    assert [c][0] in Erased(RemoveReq, [SUCCESS], [c]);
  }

  /** A run in which the geofence with id 0 is forgotten: another one is removed twice before
      the first response arrives, and the second response names a session that is gone. */
  lemma UnknownSessionRun(s0: nat, s5: nat) returns (es: seq<GfEvent>)
    requires s0 != 0 && s5 != 0 && s0 != s5
    ensures |es| == 6 && es[0] == Add([0, 5], Some([s0, s5])) && es[1] == es[2] == Ask(RemoveReq, [5])
    ensures es[5] == Response([SUCCESS], [s5], [0])
    ensures Orderly(es[..5], Fences(true, map[0 := s0], true, [RemoveReq], [RemoveReq]))
    ensures Orderly(es, Fences(true, map[], true, [], []))
  {
    var m, m' := Two(s0, s5), map[0 := s0];
    var e4 := TwoRemovals(s0, s5);
    var first, second := Response([SUCCESS], [s5], [5]), Response([SUCCESS], [s5], [0]);
    var g4 := Fences(true, m, true, [RemoveReq, RemoveReq], [RemoveReq, RemoveReq]);
    var g5 := Fences(true, m', true, [RemoveReq], [RemoveReq]);
    assert m[5] in m.Values;
    RemovedOne(m, s5, 5);
    assert m - {5} == m';
    Onward(e4, g4, first, g5);
    RemovedOne(m', s5, 0);
    assert m' - {0} == map[];
    Onward(e4 + [first], g5, second, Fences(true, map[], true, [], []));
    es := e4 + [first] + [second];
    assert es[..5] == e4 + [first];
  }

  // -------------------------------------------------------- what leaves the map

  /** The requests that event e makes to the HAL: an addition of one to twenty geofences that
      the HAL takes, or any other request that names some, if it modifies at most twenty. */
  function AsksHal(api: bool, e: GfEvent): seq<GfRequest> {
    match e
    case Add(clientIds, sessions) => if api && 1 <= |clientIds| <= 20 && sessions.Some? then [AddReq] else []
    case Ask(kind, clientIds) =>
      if api && clientIds != [] && !(kind == ModifyReq && |clientIds| > 20) then [kind] else []
    case Response(_, _, _) => []
  }

  /** All requests of a run, in order, and the number of responses. */
  function AskedOf(api: bool, es: seq<GfEvent>): seq<GfRequest> {
    if es == [] then [] else AskedOf(api, es[..|es| - 1]) + AsksHal(api, es[|es| - 1])
  }

  function Responses(es: seq<GfEvent>): nat {
    if es == [] then 0 else Responses(es[..|es| - 1]) + if es[|es| - 1].Response? then 1 else 0
  }

  /** A step adds to the waiting requests what it asks, and a response takes the oldest; the
      map does not change unless the HAL is asked or answers, or an id is looked up. */
  lemma StepAsks(g: Fences, e: GfEvent)
    requires GfEnabled(g, e)
    ensures GfStep(g, e).unanswered ==
            if e.Response? then (if g.unanswered == [] then [] else g.unanswered[1..])
            else g.unanswered + AsksHal(g.api, e)
    ensures e.Add? && AsksHal(g.api, e) == [] ==> GfStep(g, e).ids == g.ids
    ensures e.Ask? && g.api && AsksHal(g.api, e) == [] ==> GfStep(g, e).ids == g.ids
  {
  }

  /** With one response per request, the requests that wait for one are those of the run
      after as many as were answered. */
  lemma {:induction false} UnansweredAreTheAsks(api: bool, es: seq<GfEvent>)
    requires GfPossible(api, es) && AnswersOnce(api, es)
    ensures Responses(es) <= |AskedOf(api, es)|
    ensures GfAfter(api, es).unanswered == AskedOf(api, es)[Responses(es)..]
    decreases |es|
  {
    if es != [] {
      var before, e := es[..|es| - 1], es[|es| - 1];
      UnansweredAreTheAsks(api, before);
      PendingFitsExactly(api, before);
      var asked, n := AskedOf(api, before), Responses(before);
      StepAsks(GfAfter(api, before), e);
      assert (asked + AsksHal(api, e))[n..] == asked[n..] + AsksHal(api, e);
    }
  }

  /** An addition that the HAL takes maps each id to the session that it was given, the last
      one if it is listed twice, and leaves all others alone. */
  lemma AdditionMapsExactly(g: Fences, clientIds: seq<nat>, ids: seq<nat>, c: nat)
    requires |clientIds| == |ids| && 1 <= |clientIds| <= 20 && g.api
    ensures var m := AddGeofences(g, clientIds, Some(ids)).ids;
            && (c !in clientIds ==> (c in m <==> c in g.ids) && (c in m ==> m[c] == g.ids[c]))
            && (forall i :: 0 <= i < |clientIds| && LastAt(clientIds, i, c) ==> c in m && m[c] == ids[i])
  {
    if c !in clientIds {
      SetIdsOther(g.ids, clientIds, ids, c);
    }
    forall i | 0 <= i < |clientIds| && LastAt(clientIds, i, c)
      ensures c in SetIds(g.ids, clientIds, ids) && SetIds(g.ids, clientIds, ids)[c] == ids[i]
    {
      SetIdsAt(g.ids, clientIds, ids, i);
    }
  }

  /** Index i is the last one at which c is listed. */
  predicate LastAt(clientIds: seq<nat>, i: nat, c: nat)
    requires i < |clientIds|
  {
    clientIds[i] == c && forall j :: i < j < |clientIds| ==> clientIds[j] != c
  }

  lemma {:induction false} SetIdsOther(m: GfMap, clientIds: seq<nat>, sessionIds: seq<nat>, c: nat)
    requires |clientIds| == |sessionIds| && forall j :: 0 <= j < |clientIds| ==> clientIds[j] != c
    ensures var r := SetIds(m, clientIds, sessionIds); (c in r <==> c in m) && (c in r ==> r[c] == m[c])
    decreases |clientIds|
  {
    if clientIds != [] {
      SetIdsOther(m, clientIds[..|clientIds| - 1], sessionIds[..|clientIds| - 1], c);
    }
  }

  lemma {:induction false} SetIdsAt(m: GfMap, clientIds: seq<nat>, sessionIds: seq<nat>, i: nat)
    requires |clientIds| == |sessionIds| && i < |clientIds| && LastAt(clientIds, i, clientIds[i])
    ensures var r := SetIds(m, clientIds, sessionIds); clientIds[i] in r && r[clientIds[i]] == sessionIds[i]
    decreases |clientIds|
  {
    var n := |clientIds| - 1;
    if i < n {
      SetIdsAt(m, clientIds[..n], sessionIds[..n], i);
    }
  }

  /** A request gives each id that it names its session, or 0 with a new entry, and changes
      no entry. */
  lemma LookupExactly(g: Fences, kind: GfRequest, clientIds: seq<nat>, c: nat)
    requires clientIds != [] && !(kind == ModifyReq && |clientIds| > 20)
    ensures var m := Refer(g, kind, clientIds).ids;
            && (c in m <==> c in g.ids || c in clientIds)
            && (c in m ==> m[c] == if c in g.ids then g.ids[c] else 0)
    ensures |SessionIds(g.ids, clientIds)| == |clientIds|
    ensures forall i :: 0 <= i < |clientIds| ==>
              SessionIds(g.ids, clientIds)[i] == if clientIds[i] in g.ids then g.ids[clientIds[i]] else 0
  {
  }

  /** Response e names client c, in a map m, as removed or failed; or as nobody's, which is
      taken for id 0. request: what it responds to. */
  ghost predicate Forgets(m: GfMap, request: GfRequest, e: GfEvent, c: nat)
    requires c in m
  {
    && e.Response? && |e.errors| == |e.sessionIds|
    && exists i :: 0 <= i < |e.sessionIds| && (request == RemoveReq || e.errors[i] != 0)
                   && (e.sessionIds[i] == m[c] || (c == 0 && e.sessionIds[i] !in m.Values))
  }

  /** In a run without phantom messages, and with one response per request: an id that has a
      session leaves the map exactly by a response, to the request of the run that is next to
      be answered, that names it as removed or failed, or in the case of id 0 names a session
      that nobody has; and only an addition of the same id gives it another session. */
  lemma LeavesExactly(api: bool, es: seq<GfEvent>, c: nat)
    requires es != [] && GfPossible(api, es) && AnswersOnce(api, es) && Phantoms(api, es[..|es| - 1]) == 0
    requires c in GfAfter(api, es[..|es| - 1]).ids && GfAfter(api, es[..|es| - 1]).ids[c] != 0
    ensures var before, e := es[..|es| - 1], es[|es| - 1];
            var g, g' := GfAfter(api, before), GfAfter(api, es);
            && (e.Response? ==> Responses(before) < |AskedOf(api, before)|)
            && (c !in g'.ids <==> e.Response? && Forgets(g.ids, AskedOf(api, before)[Responses(before)], e, c))
            && (c in g'.ids && g'.ids[c] != g.ids[c] ==> e.Add? && c in e.clientIds)
  {
    var before := es[..|es| - 1];
    var g := GfAfter(api, before);
    PendingFitsExactly(api, before);
    UnansweredAreTheAsks(api, before);
    AlwaysInjective(api, before);
    match es[|es| - 1]
    case Add(clientIds, Some(ids)) => SetIdsKeeps(g.ids, clientIds, ids);
    case Response(errors, sessionIds, names) =>
      ErasedExactly(g.ids, g.unanswered[0], errors, sessionIds, names, c);
    case _ =>
  }
}
