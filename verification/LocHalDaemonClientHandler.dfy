/** The handler of one client of the daemon, as its methods update it: tracking options, the
    per-engine arrays of the report filter, and the map of geofence ids. Each method is proved
    to do what its function in PositionReports or Geofences says. */
module LocHalDaemonClientHandlerClass {
  import opened Options
  import opened PositionReports
  import opened Geofences

  function FiltersOf(prev: seq<nat>, firstFinal: seq<bool>): (fs: seq<Filter>)
    requires |prev| == |firstFinal|
    ensures |fs| == |prev| && forall i :: 0 <= i < |fs| ==> fs[i] == Filter(prev[i], firstFinal[i])
  {
    seq(|prev|, i requires 0 <= i < |prev| => Filter(prev[i], firstFinal[i]))
  }

  class LocHalDaemonClientHandler {
    const mLocationApi: bool   // whether there is an instance
    var mSessionId: nat
    var mMinInterval: uint32   // mOptions.minInterval
    var mTracking: bool
    const mPrevPosReportSentBootTimeMsec: array<nat>
    const mFirstFixalFixReceived: array<bool>

    var mIpcSender: bool       // whether it is not null
    var mGfIdsMap: GfMap
    var mGeofenceIds: bool     // whether it is not null
    var mGfPendingMessages: seq<GfRequest>
    ghost var unanswered: seq<GfRequest>

    ghost predicate Valid()
      reads this
    {
      && mPrevPosReportSentBootTimeMsec.Length == LOC_OUTPUT_ENGINE_COUNT
      && mFirstFixalFixReceived.Length == LOC_OUTPUT_ENGINE_COUNT
    }

    ghost function Tracking(): Tracker
      requires Valid()
      reads this, mPrevPosReportSentBootTimeMsec, mFirstFixalFixReceived
    {
      Tracker(mLocationApi, mSessionId, mMinInterval, mTracking,
              FiltersOf(mPrevPosReportSentBootTimeMsec[..], mFirstFixalFixReceived[..]))
    }

    ghost function GeofenceState(): Fences
      reads this
    {
      Fences(mLocationApi, mGfIdsMap, mGeofenceIds, mGfPendingMessages, unanswered)
    }

    constructor (api: bool)
      ensures mIpcSender
      ensures Valid() && fresh(mPrevPosReportSentBootTimeMsec) && fresh(mFirstFixalFixReceived)
      ensures Tracking() == NewTracker(api) && GeofenceState() == NoFences(api)
    {
      mLocationApi, mIpcSender := api, true;
      mSessionId, mMinInterval, mTracking := 0, 0, false;
      mPrevPosReportSentBootTimeMsec := new nat[LOC_OUTPUT_ENGINE_COUNT](_ => 0);
      mFirstFixalFixReceived := new bool[LOC_OUTPUT_ENGINE_COUNT](_ => false);
      mGfIdsMap, mGeofenceIds, mGfPendingMessages, unanswered := map[], false, [], [];
    }

    // ------------------------------------------------------------------ tracking

    method StartTracking(interval: uint32, halId: nat) returns (sessionId: nat)
      requires Valid()
      modifies this`mMinInterval, this`mSessionId, this`mTracking
      ensures Tracking() == PositionReports.StartTracking(old(Tracking()), interval, halId)
      ensures sessionId == mSessionId
    {
      if mSessionId == 0 && mLocationApi {
        mMinInterval := interval;
        mMinInterval := GetSupportedTbf(mMinInterval);
        mSessionId := halId;
        mTracking := true;
      }
      return mSessionId;
    }

    method StopTracking()
      requires Valid()
      modifies this`mSessionId, this`mTracking
      ensures Tracking() == PositionReports.StopTracking(old(Tracking()))
    {
      if mSessionId != 0 && mLocationApi {
        mSessionId := 0;
      }
      mTracking := false;
    }

    method UpdateTrackingOptions(interval: uint32)
      requires Valid()
      modifies this`mMinInterval
      ensures Tracking() == UpdateTracking(old(Tracking()), interval)
    {
      if mSessionId != 0 && mLocationApi {
        mMinInterval := GetSupportedTbf(interval);
      }
    }

    /** Puts the new entries of engine e into the two arrays. */
    lemma FiltersUpdate(prev: seq<nat>, firstFinal: seq<bool>, e: nat, p: nat, b: bool)
      requires |prev| == |firstFinal| && e < |prev|
      ensures FiltersOf(prev[e := p], firstFinal[e := b]) == FiltersOf(prev, firstFinal)[e := Filter(p, b)]
    {
    }

    method FilterPositionReport(r: Report) returns (filtered: bool)
      requires Valid()
      modifies mPrevPosReportSentBootTimeMsec, mFirstFixalFixReceived
      ensures (Tracking(), filtered) == FilterReport(old(Tracking()), r)
    {
      if mMinInterval == 0 || LOC_OUTPUT_ENGINE_COUNT <= r.engine {
        return false;
      }
      ghost var prev, firstFinal := mPrevPosReportSentBootTimeMsec[..], mFirstFixalFixReceived[..];
      filtered := Decide(r);
      FiltersUpdate(prev, firstFinal, r.engine,
                    mPrevPosReportSentBootTimeMsec[r.engine], mFirstFixalFixReceived[r.engine]);
    }

    /** filterPositionReport after its first test; it changes the entries of one engine. */
    method Decide(r: Report) returns (filtered: bool)
      requires Valid() && mMinInterval != 0 && r.engine < LOC_OUTPUT_ENGINE_COUNT
      modifies mPrevPosReportSentBootTimeMsec, mFirstFixalFixReceived
      ensures var e := r.engine;
              && (Filter(mPrevPosReportSentBootTimeMsec[e], mFirstFixalFixReceived[e]), filtered) ==
                 FilterOne(old(Filter(mPrevPosReportSentBootTimeMsec[e], mFirstFixalFixReceived[e])), mMinInterval, r)
              && mPrevPosReportSentBootTimeMsec[..] ==
                 old(mPrevPosReportSentBootTimeMsec[..])[e := mPrevPosReportSentBootTimeMsec[e]]
              && mFirstFixalFixReceived[..] == old(mFirstFixalFixReceived[..])[e := mFirstFixalFixReceived[e]]
    {
      var lowerBound := Wrap(mMinInterval - POSITION_REPORT_GAURD_BAND);
      if !mFirstFixalFixReceived[r.engine] {
        if r.success {
          mFirstFixalFixReceived[r.engine] := true;
          mPrevPosReportSentBootTimeMsec[r.engine] := r.boot;
          return false;
        }
      } else {
        if !r.success {
          mFirstFixalFixReceived[r.engine] := false;
        }
      }
      if r.gpsAccurate && r.systemMsec % mMinInterval == 0 {
        mPrevPosReportSentBootTimeMsec[r.engine] := r.boot;
        return false;
      } else {
        if mPrevPosReportSentBootTimeMsec[r.engine] != 0 {
          if r.boot >= mPrevPosReportSentBootTimeMsec[r.engine] {
            if lowerBound <= r.boot - mPrevPosReportSentBootTimeMsec[r.engine] {
              mPrevPosReportSentBootTimeMsec[r.engine] := r.boot;
              return false;
            }
          } else {
            mPrevPosReportSentBootTimeMsec[r.engine] := r.boot;
            return false;
          }
        } else {
          mPrevPosReportSentBootTimeMsec[r.engine] := r.boot;
          return false;
        }
      }
      return true;
    }

    // ----------------------------------------------------------------- geofences

    method SetGeofenceIds(clientIds: seq<nat>, sessionIds: seq<nat>)
      requires |clientIds| == |sessionIds|
      modifies this`mGfIdsMap
      ensures mGfIdsMap == SetIds(old(mGfIdsMap), clientIds, sessionIds)
    {
      assert clientIds[..|clientIds|] == clientIds && sessionIds[..|clientIds|] == sessionIds;
      for i := 0 to |clientIds|
        invariant mGfIdsMap == SetIds(old(mGfIdsMap), clientIds[..i], sessionIds[..i])
      {
        assert clientIds[..i + 1][..i] == clientIds[..i] && sessionIds[..i + 1][..i] == sessionIds[..i];
        mGfIdsMap := mGfIdsMap[clientIds[i] := sessionIds[i]];
      }
    }

    method EraseGeofenceIds(clientIds: seq<nat>)
      modifies this`mGfIdsMap
      ensures mGfIdsMap == old(mGfIdsMap) - Elements(clientIds)
    {
      for i := 0 to |clientIds|
        invariant mGfIdsMap == old(mGfIdsMap) - Elements(clientIds[..i])
      {
        assert Elements(clientIds[..i + 1]) == Elements(clientIds[..i]) + {clientIds[i]};
        mGfIdsMap := mGfIdsMap - {clientIds[i]};
      }
      assert clientIds[..|clientIds|] == clientIds;
    }

    method GetSessionIds(clientIds: seq<nat>) returns (sessionIds: seq<nat>)
      modifies this`mGfIdsMap
      ensures sessionIds == SessionIds(old(mGfIdsMap), clientIds)
      ensures mGfIdsMap == LookedUp(old(mGfIdsMap), clientIds)
    {
      sessionIds := [];
      ghost var m := mGfIdsMap;
      for i := 0 to |clientIds|
        invariant mGfIdsMap.Keys == m.Keys + Elements(clientIds[..i])
        invariant forall c :: c in mGfIdsMap ==> mGfIdsMap[c] == SessionOf(m, c)
        invariant |sessionIds| == i
        invariant forall k :: 0 <= k < i ==> sessionIds[k] == SessionOf(m, clientIds[k])
      {
        assert Elements(clientIds[..i + 1]) == Elements(clientIds[..i]) + {clientIds[i]};
        var sessionId := Subscript(clientIds[i]);
        sessionIds := sessionIds + [sessionId];
      }
      assert clientIds[..|clientIds|] == clientIds;
    }

    /** mGfIdsMap[clientId], which enters an id that is not there */
    method Subscript(clientId: nat) returns (sessionId: nat)
      modifies this`mGfIdsMap
      ensures var m := old(mGfIdsMap); mGfIdsMap == if clientId in m then m else m[clientId := 0]
      ensures clientId in mGfIdsMap && sessionId == mGfIdsMap[clientId]
    {
      if clientId !in mGfIdsMap {
        mGfIdsMap := mGfIdsMap[clientId := 0];
      }
      sessionId := mGfIdsMap[clientId];
    }

    /** The walk through the hash table for one session id. */
    method ClientIdOf(sessionId: nat) returns (clientId: nat)
      ensures Names(mGfIdsMap, sessionId, clientId)
    {
      clientId := 0;
      var todo := mGfIdsMap.Keys;
      while todo != {}
        invariant todo <= mGfIdsMap.Keys
        invariant (exists k :: k in mGfIdsMap.Keys - todo && mGfIdsMap[k] == sessionId)
                  ==> clientId in mGfIdsMap && mGfIdsMap[clientId] == sessionId
        invariant (forall k :: k in mGfIdsMap.Keys - todo ==> mGfIdsMap[k] != sessionId) ==> clientId == 0
        decreases todo
      {
        var k :| k in todo;
        if mGfIdsMap[k] == sessionId {
          clientId := k;
        }
        todo := todo - {k};
      }
    }

    method GetClientIds(sessionIds: seq<nat>) returns (clientIds: seq<nat>)
      ensures AllNamed(mGfIdsMap, sessionIds, clientIds)
    {
      clientIds := [];
      for i := 0 to |sessionIds|
        invariant |clientIds| == i
        invariant forall k :: 0 <= k < i ==> Names(mGfIdsMap, sessionIds[k], clientIds[k])
      {
        var clientId := ClientIdOf(sessionIds[i]);
        clientIds := clientIds + [clientId];
      }
    }

    /** LocationApiService::addGeofences, and addGeofences of the handler. */
    method HandleAddGeofences(clientIds: seq<nat>, sessions: Option<seq<nat>>)
      requires sessions.Some? ==> |sessions.value| == |clientIds|
      modifies this`mGfIdsMap, this`mGeofenceIds, this`mGfPendingMessages, this`unanswered
      ensures GeofenceState() == AddGeofences(old(GeofenceState()), clientIds, sessions)
    {
      if |clientIds| > MAX_GEOFENCE_COUNT {
        return;
      }
      if |clientIds| > 0 && mLocationApi {
        mGeofenceIds := sessions.Some?;
        if sessions.Some? {
          unanswered := unanswered + [AddReq];
          SetGeofenceIds(clientIds, sessions.value);
        }
      }
      if mGeofenceIds {
        mGfPendingMessages := mGfPendingMessages + [AddReq];
      }
    }

    /** LocationApiService::removeGeofences, modifyGeofences, pauseGeofences, resumeGeofences */
    method HandleRefer(kind: GfRequest, clientIds: seq<nat>) returns (sessionIds: seq<nat>)
      requires kind != AddReq
      modifies this`mGfIdsMap, this`mGfPendingMessages, this`unanswered
      ensures GeofenceState() == Refer(old(GeofenceState()), kind, clientIds)
      ensures sessionIds == if kind == ModifyReq && |clientIds| > MAX_GEOFENCE_COUNT then []
                            else SessionIds(old(mGfIdsMap), clientIds)
    {
      sessionIds := [];
      if kind == ModifyReq && |clientIds| > MAX_GEOFENCE_COUNT {
        return;
      }
      if |clientIds| > 0 {
        sessionIds := GetSessionIds(clientIds);
        if mLocationApi {
          unanswered := unanswered + [kind];
        }
        mGfPendingMessages := mGfPendingMessages + [kind];
      }
    }

    /** What the response to a request does to the map. */
    method EraseNamed(kind: GfRequest, errors: seq<nat>, names: seq<nat>)
      requires |errors| == |names|
      modifies this`mGfIdsMap
      ensures mGfIdsMap == old(mGfIdsMap) - Erased(kind, errors, names)
    {
      ghost var m := mGfIdsMap;
      var remove := kind == RemoveReq;
      if remove {
        EraseGeofenceIds(names);
      }
      for i := 0 to |names|
        invariant mGfIdsMap == m - ErasedBy(remove, errors, names, i)
      {
        if errors[i] != SUCCESS {
          EraseGeofenceIds([names[i]]);
        }
        ErasedNext(remove, errors, names, i);
      }
      assert ErasedBy(remove, errors, names, |names|) == Erased(kind, errors, names);
    }

    /** names: the client ids of the response, as its receiver sees them. Without a sender
        nothing happens; cleanup takes it away. */
    method OnCollectiveResponseCallback(errors: seq<nat>, sessionIds: seq<nat>) returns (names: seq<nat>)
      requires |errors| == |sessionIds|
      modifies this`mGfIdsMap, this`mGfPendingMessages, this`unanswered
      ensures mIpcSender ==> AllNamed(old(mGfIdsMap), sessionIds, names)
      ensures mIpcSender ==> GeofenceState() == Respond(old(GeofenceState()), errors, names)
      ensures !mIpcSender ==> names == []
      ensures !mIpcSender ==> mGfIdsMap == old(mGfIdsMap) && mGfPendingMessages == old(mGfPendingMessages)
    {
      unanswered := if unanswered == [] then [] else unanswered[1..];
      names := [];
      if !mIpcSender {
        return;
      }
      var pending := None;
      if mGfPendingMessages != [] {
        pending := Some(mGfPendingMessages[0]);
        mGfPendingMessages := mGfPendingMessages[1..];
      }
      names := GetClientIds(sessionIds);
      if pending.Some? {
        EraseNamed(pending.value, errors, names);
      }
    }
  }

  /** What is erased after i rounds of the loop over the response. */
  ghost function ErasedBy(remove: bool, errors: seq<nat>, names: seq<nat>, i: nat): set<nat>
    requires i <= |names| == |errors|
  {
    set k | 0 <= k < |names| && (remove || (k < i && errors[k] != SUCCESS)) :: names[k]
  }

  lemma ErasedNext(remove: bool, errors: seq<nat>, names: seq<nat>, i: nat)
    requires i < |names| == |errors|
    ensures ErasedBy(remove, errors, names, i + 1) ==
            ErasedBy(remove, errors, names, i) + if errors[i] != SUCCESS then Elements([names[i]]) else {}
  {
    var a, b := ErasedBy(remove, errors, names, i), ErasedBy(remove, errors, names, i + 1);
    if errors[i] != SUCCESS {
      assert names[i] in b;
      assert Elements([names[i]]) == {names[i]} by { assert [names[i]][0] == names[i]; }
    }
  }
}
