/** The registries of the daemon as the handlers of LocationApiService update them, field
    by field and with their iterate-and-erase loops. Each handler is proved to do what its
    function in FusedFixes, TerrestrialFixes or ConfigRequests says; those modules prove
    what the functions keep over whole runs.

    Ghost fields hold what is visible outside: the calls to the HAL and to the network
    provider, and the messages sent to clients. They change only in the methods that stand
    for those calls, and where a handler notes that a request was made or has left. */
module LocationApiServiceClass {
  import opened FusedFixes
  import opened TerrestrialFixes
  import opened ConfigRequests

  class LocationApiService {
    var mClients: set<Client>

    // single-shot fused fixes
    var mSingleFixLocationApi: bool
    var mSingleFixReqMap: map<Client, Request>
    var mSingleFixTrackingSessionId: nat
    var mSingleFixLastLocation: Location
    var timersCreated: nat

    // terrestrial fixes
    var mOptInTerrestrialService: int
    var mTerrestrialFixTimeoutMap: set<Client>

    // configuration requests
    var mConfigReqs: map<nat, ConfigReq>
    var configAsked: seq<ConfigReq>   // noted by the observer; its length numbers the requests

    ghost var asked: map<nat, Asked>
    ghost var outcomes: map<nat, Outcome>
    ghost var fixReplies: map<Client, seq<Reply>>
    ghost var unheard: set<nat>
    ghost var hal: seq<HalOp>
    ghost var heard: nat
    ghost var lastAt: nat
    ghost var epoch: nat
    ghost var groundReplies: map<Client, seq<GroundReply>>
    ghost var net: seq<NetOp>
    ghost var configLost: set<nat>
    ghost var configClosed: set<nat>
    ghost var configReplies: map<Client, seq<ConfigReply>>

    ghost function Fixes(): Fused
      reads this
    {
      Fused(mSingleFixLocationApi, mSingleFixReqMap, mSingleFixTrackingSessionId, mSingleFixLastLocation,
            timersCreated, asked, outcomes, fixReplies, unheard, hal, heard, lastAt, epoch)
    }

    ghost function GroundState(): Ground
      reads this
    {
      Ground(mOptInTerrestrialService, mTerrestrialFixTimeoutMap, groundReplies, net)
    }

    ghost function ConfigState(): Configs
      reads this
    {
      Configs(mConfigReqs, configAsked, configLost, configClosed, configReplies)
    }

    constructor ()
      ensures mClients == {} && Fixes() == NoFixes() && GroundState() == NoGround() && ConfigState() == NoConfigs()
    {
      mClients := {};
      mSingleFixLocationApi, mSingleFixReqMap, mSingleFixTrackingSessionId := false, map[], 0;
      mSingleFixLastLocation, timersCreated := NO_LOCATION, 0;
      mOptInTerrestrialService, mTerrestrialFixTimeoutMap, mConfigReqs := -1, {}, map[];
      asked, outcomes, fixReplies, unheard, hal := map[], map[], map[], {}, [];
      heard, lastAt, epoch := 0, 0, 0;
      groundReplies, net := map[], [];
      configAsked, configLost, configClosed, configReplies := [], {}, {}, map[];
    }

    // ------------------------------------------------------ calls to the outside

    method StartTracking(halId: nat)
      modifies this`hal
      ensures hal == old(hal) + [Started(halId)]
    {
      hal := hal + [Started(halId)];
    }

    method StopTracking(id: nat)
      modifies this`hal
      ensures hal == old(hal) + [Stopped(id)]
    {
      hal := hal + [Stopped(id)];
    }

    /** The message carries error and location; the observer adds which request it ends. */
    method SendSingleFusedFix(c: Client, error: FixError, location: Location, timer: nat)
      modifies this`fixReplies
      ensures fixReplies ==
              old(fixReplies)[c := RepliesTo(old(fixReplies), c) + [Reply(timer, error, location, lastAt, epoch)]]
    {
      fixReplies := fixReplies[c := RepliesTo(fixReplies, c) + [Reply(timer, error, location, lastAt, epoch)]];
    }

    method SendTerrestrialFix(c: Client, r: GroundReply)
      modifies this`groundReplies
      ensures groundReplies ==
              old(groundReplies)[c := (if c in old(groundReplies) then old(groundReplies)[c] else []) + [r]]
    {
      groundReplies := groundReplies[c := (if c in groundReplies then groundReplies[c] else []) + [r]];
    }

    // ------------------------------------------------------------- single fixes

    method NewClient(c: Client)
      modifies this`mClients
      ensures mClients == old(mClients) + {c}
    {
      mClients := mClients + {c};
    }

    method StopTrackingSessionForSingleFixes()
      modifies this`mSingleFixLastLocation, this`mSingleFixTrackingSessionId, this`hal
      ensures Fixes() == StopIfIdle(old(Fixes()))
    {
      if |mSingleFixReqMap| == 0 {
        mSingleFixLastLocation := NO_LOCATION;
        if mSingleFixLocationApi && mSingleFixTrackingSessionId != 0 {
          StopTracking(mSingleFixTrackingSessionId);
          mSingleFixTrackingSessionId := 0;
        }
      }
    }

    /** Erases the request of c, with its timer. */
    method EraseRequest(c: Client, ghost how: Outcome)
      modifies this`mSingleFixReqMap, this`outcomes
      ensures Fixes() == Leave(old(Fixes()), c, how)
    {
      if c in mSingleFixReqMap {
        outcomes := outcomes[mSingleFixReqMap[c].timer := how];
        mSingleFixReqMap := mSingleFixReqMap - {c};
      }
    }

    method AcceptRequest(c: Client, horQoS: real, ghost first: bool)
      modifies this`mSingleFixReqMap, this`asked, this`timersCreated, this`epoch
      ensures Fixes() == Accept(old(Fixes()), c, horQoS, first)
    {
      var reqInfo := Request(horQoS, timersCreated);
      timersCreated := timersCreated + 1;
      mSingleFixReqMap := mSingleFixReqMap[c := reqInfo];
      asked := asked[reqInfo.timer := Asked(c, horQoS)];
      epoch := if first then heard else epoch;
    }

    method EnsureTracking(halId: nat)
      modifies this`mSingleFixTrackingSessionId, this`hal
      ensures Fixes() == Ensure(old(Fixes()), halId)
    {
      if mSingleFixTrackingSessionId == 0 {
        StartTracking(halId);
        mSingleFixTrackingSessionId := halId;
      }
    }

    method HandleGetSinglePos(c: Client, horQoS: real, timeoutMsec: nat, created: bool, halId: nat)
      modifies this`mSingleFixLocationApi, this`mSingleFixReqMap, this`outcomes, this`asked, this`timersCreated,
               this`mSingleFixTrackingSessionId, this`mSingleFixLastLocation, this`hal, this`epoch
      ensures Fixes() == GetSinglePos(old(Fixes()), c, horQoS, timeoutMsec, created, halId)
    {
      ghost var first := mSingleFixReqMap == map[];
      if !mSingleFixLocationApi {
        if !created {
          return;
        }
        mSingleFixLocationApi := true;
      }
      assert Fixes() == old(Fixes()).(apiCreated := true);
      if horQoS != 0.0 && timeoutMsec != 0 {
        EraseRequest(c, Superseded);
        AcceptRequest(c, horQoS, first);
        EnsureTracking(halId);
      } else {
        EraseRequest(c, Cancelled);
        StopTrackingSessionForSingleFixes();
      }
    }

    method SingleFixRequestTimeout(c: Client)
      modifies this`mSingleFixReqMap, this`outcomes, this`fixReplies, this`unheard,
               this`mSingleFixLastLocation, this`mSingleFixTrackingSessionId, this`hal
      ensures Fixes() == Timeout(old(Fixes()), mClients, c)
    {
      if c in mSingleFixReqMap {
        if c in mClients {
          SendSingleFusedFix(c, FixTimeout, mSingleFixLastLocation, mSingleFixReqMap[c].timer);
        } else {
          unheard := unheard + {mSingleFixReqMap[c].timer};
        }
        EraseRequest(c, TimedOut);
        StopTrackingSessionForSingleFixes();
      }
    }

    /** One round of the walk through the map, for a client whose request is met. */
    method ServeClient(c: Client, location: Location)
      requires c in mSingleFixReqMap
      modifies this`mSingleFixReqMap, this`outcomes, this`fixReplies, this`unheard
      ensures Fixes() == ServedNext(old(Fixes()), mClients, location, c)
    {
      if c in mClients {
        SendSingleFusedFix(c, FixSuccess, location, mSingleFixReqMap[c].timer);
      } else {
        unheard := unheard + {mSingleFixReqMap[c].timer};
      }
      EraseRequest(c, Served);
    }

    /** The walk through the map, in an order of its own. */
    method ServeClients(location: Location)
      requires Usable(location)
      modifies this`mSingleFixReqMap, this`outcomes, this`fixReplies, this`unheard
      ensures Fixes() == Serve(old(Fixes()), mClients, location, ServedBy(old(Fixes()), location))
    {
      ghost var before := Fixes();
      ghost var served := {};
      ServeNobody(before, mClients, location);
      var todo := mSingleFixReqMap.Keys;
      while todo != {}
        invariant todo <= before.pending.Keys && served <= before.pending.Keys - todo
        invariant served == ServedBy(before, location) - todo
        invariant Fixes() == Serve(before, mClients, location, served)
        decreases todo
      {
        var c :| c in todo;
        assert c in mSingleFixReqMap && mSingleFixReqMap[c] == before.pending[c];
        var horQoS := mSingleFixReqMap[c].qos;
        if location.accuracy < horQoS {
          ServeOneMore(before, mClients, location, served, c);
          ServeClient(c, location);
          served := served + {c};
        }
        todo := todo - {c};
      }
      assert served == ServedBy(before, location);
    }

    /** onGnssLocationInfoCb */
    method OnGnssLocationInfo(location: Location)
      modifies this`mSingleFixReqMap, this`outcomes, this`fixReplies, this`unheard, this`heard, this`lastAt,
               this`mSingleFixLastLocation, this`mSingleFixTrackingSessionId, this`hal
      ensures Fixes() == OnLocation(old(Fixes()), mClients, location)
    {
      mSingleFixLastLocation := location;
      heard := heard + 1;
      lastAt := heard;
      ghost var before := Fixes();
      assert ServedBy(before, location) == ServedBy(old(Fixes()), location);
      if location.timestamp != 0 && location.hasLatLong && location.hasAccuracy {
        ServeClients(location);
      } else {
        assert ServedBy(before, location) == {};
        ServeNobody(before, mClients, location);
      }
      StopTrackingSessionForSingleFixes();
    }

    /** Erases the terrestrial request of c, and stops network location with the last one. */
    method EraseTerrestrial(c: Client)
      modifies this`mTerrestrialFixTimeoutMap, this`net
      ensures GroundState() == Remove(old(GroundState()), c)
    {
      if c in mTerrestrialFixTimeoutMap {
        mTerrestrialFixTimeoutMap := mTerrestrialFixTimeoutMap - {c};
        if |mTerrestrialFixTimeoutMap| == 0 {
          net := net + [NetStop];
        }
      }
    }

    /** The fused request of c goes, and the session with the last one. */
    method DropRequest(c: Client)
      modifies this`mSingleFixReqMap, this`outcomes,
               this`mSingleFixLastLocation, this`mSingleFixTrackingSessionId, this`hal
      ensures Fixes() == DeleteClient(old(Fixes()), c)
    {
      EraseRequest(c, ClientDeleted);
      StopTrackingSessionForSingleFixes();
    }

    /** deleteClientbyName, without the cleanup of the client handler. */
    method DeleteClientByName(c: Client)
      modifies this`mClients, this`mTerrestrialFixTimeoutMap, this`net, this`mSingleFixReqMap, this`outcomes,
               this`mSingleFixLastLocation, this`mSingleFixTrackingSessionId, this`hal
      ensures mClients == old(mClients) - {c}
      ensures Fixes() == if c in old(mClients) then DeleteClient(old(Fixes()), c) else old(Fixes())
      ensures GroundState() == if c in old(mClients) then Remove(old(GroundState()), c) else old(GroundState())
    {
      if c !in mClients {
        return;
      }
      mClients := mClients - {c};
      EraseTerrestrial(c);
      assert Fixes() == old(Fixes());
      DropRequest(c);
    }

    // --------------------------------------------------------- terrestrial fixes

    method HandleGetSingleTerrestrialPos(c: Client)
      modifies this`mTerrestrialFixTimeoutMap, this`groundReplies, this`net
      ensures GroundState() == GetSingleTerrestrialPos(old(GroundState()), mClients, c)
    {
      if mOptInTerrestrialService != OPTED_IN {
        if c in mClients {
          SendTerrestrialFix(c, NotSupported);
        }
      } else {
        var terrestrialSessionStarted := |mTerrestrialFixTimeoutMap| != 0;
        mTerrestrialFixTimeoutMap := mTerrestrialFixTimeoutMap - {c};
        mTerrestrialFixTimeoutMap := mTerrestrialFixTimeoutMap + {c};
        if !terrestrialSessionStarted {
          net := net + [NetStart];
        }
      }
    }

    method GtpFixRequestTimeout(c: Client)
      modifies this`mTerrestrialFixTimeoutMap, this`groundReplies, this`net
      ensures GroundState() == GroundTimeoutOf(old(GroundState()), mClients, c)
    {
      if c in mTerrestrialFixTimeoutMap {
        if c in mClients {
          SendTerrestrialFix(c, TerrestrialFixes.GroundTimeout);
        }
        EraseTerrestrial(c);
      }
    }

    method SendToAll(location: Location)
      modifies this`groundReplies
      ensures GroundState() == Send(old(GroundState()), mClients, mTerrestrialFixTimeoutMap, GroundFix(location))
    {
      ghost var before := GroundState();
      var todo := mTerrestrialFixTimeoutMap;
      assert mTerrestrialFixTimeoutMap - todo == {};
      SendNobody(before, mClients, GroundFix(location));
      while todo != {}
        invariant todo <= mTerrestrialFixTimeoutMap
        invariant GroundState() == Send(before, mClients, mTerrestrialFixTimeoutMap - todo, GroundFix(location))
        decreases todo
      {
        var c :| c in todo;
        SendOneMore(before, mClients, mTerrestrialFixTimeoutMap - todo, GroundFix(location), c);
        assert mTerrestrialFixTimeoutMap - (todo - {c}) == mTerrestrialFixTimeoutMap - todo + {c};
        if c in mClients {
          SendTerrestrialFix(c, GroundFix(location));
        }
        todo := todo - {c};
      }
      assert mTerrestrialFixTimeoutMap - todo == mTerrestrialFixTimeoutMap;
    }

    method OnGtpWwanTracking(location: Location)
      modifies this`mTerrestrialFixTimeoutMap, this`groundReplies, this`net
      ensures GroundState() == OnGroundLocation(old(GroundState()), mClients, location)
    {
      if |mTerrestrialFixTimeoutMap| != 0 && location.hasLatLong && mOptInTerrestrialService == OPTED_IN {
        SendToAll(location);
        mTerrestrialFixTimeoutMap := {};
        net := net + [NetStop];
      }
    }

    // ------------------------------------------------------ configuration requests

    method OnControlResponseCb(r: ConfigReq, error: nat)
      modifies this`configReplies, this`configClosed
      ensures ConfigState() == Close(old(ConfigState()), mClients, r, error)
    {
      configClosed := configClosed + {r.ticket};
      if r.c in mClients {
        configReplies := configReplies[r.c :=
          (if r.c in configReplies then configReplies[r.c] else []) + [ConfigReply(r.ticket, error, r.msgId)]];
      }
    }

    method AddConfigRequestToMap(sessionId: nat, c: Client, msgId: nat)
      modifies this`mConfigReqs, this`configAsked, this`configLost, this`configReplies, this`configClosed
      ensures ConfigState() == AddRequest(old(ConfigState()), mClients, c, msgId, sessionId)
    {
      var configClientData := ConfigReq(c, msgId, |configAsked|);
      configAsked := configAsked + [configClientData];
      if sessionId != 0 {
        if sessionId in mConfigReqs {
          configLost := configLost + {configClientData.ticket};
        } else {
          mConfigReqs := mConfigReqs[sessionId := configClientData];
        }
      } else {
        OnControlResponseCb(configClientData, GENERAL_FAILURE);
      }
    }

    method OnControlResponse(error: nat, sessionId: nat)
      modifies this`mConfigReqs, this`configReplies, this`configClosed
      ensures ConfigState() == OnHalAnswer(old(ConfigState()), mClients, Control(error, sessionId))
    {
      if sessionId in mConfigReqs {
        OnControlResponseCb(mConfigReqs[sessionId], error);
        mConfigReqs := mConfigReqs - {sessionId};
      }
    }

    method OnControlCollectiveResponse(errors: seq<nat>, ids: seq<nat>)
      requires |errors| == |ids|
      modifies this`mConfigReqs, this`configReplies, this`configClosed
      ensures ConfigState() == OnHalAnswer(old(ConfigState()), mClients, Collective(errors, ids))
    {
      if |ids| != 1 {
        return;
      }
      OnControlResponse(errors[0], ids[0]);
    }

    method OnGnssConfig(sessionId: nat)
      modifies this`mConfigReqs, this`configReplies, this`configClosed
      ensures ConfigState() == OnHalAnswer(old(ConfigState()), mClients, Config(sessionId))
    {
      if sessionId != 0 {
        OnControlResponse(CONFIG_SUCCESS, sessionId);
      }
    }

    /** configUserConsentTerrestrialPositioning: the new consent, and a configuration request. */
    method ConfigUserConsent(c: Client, msgId: nat, userConsent: int, sessionId: nat)
      modifies this`mOptInTerrestrialService, this`mConfigReqs, this`configAsked, this`configLost,
               this`configReplies, this`configClosed
      ensures GroundState() == old(GroundState()).(optIn := userConsent)
      ensures ConfigState() == AddRequest(old(ConfigState()), mClients, c, msgId, sessionId)
    {
      mOptInTerrestrialService := userConsent;
      AddConfigRequestToMap(sessionId, c, msgId);
    }
  }

  // --------------------------------------------------- the walk through the map

  lemma ServeNobody(f: Fused, clients: set<Client>, l: Location)
    ensures Serve(f, clients, l, {}) == f
  {
    var g := Serve(f, clients, l, {});
    assert g.pending == f.pending && g.outcomes == f.outcomes && g.replies == f.replies && g.unheard == f.unheard;
  }

  /** f after one more client was served. */
  function ServedNext(f: Fused, clients: set<Client>, l: Location, c: Client): Fused
    requires c in f.pending
  {
    Leave(if c in clients then f.(replies := f.replies[c := RepliesTo(f.replies, c) + [ServedReply(f, l, c)]])
          else f.(unheard := f.unheard + {f.pending[c].timer}),
          c, Served)
  }

  lemma OneMoreOutcome(pending: map<Client, Request>, served: set<Client>, c: Client)
    requires served <= pending.Keys && c in pending
    ensures ServedOutcomes(pending, served + {c}) == ServedOutcomes(pending, served)[pending[c].timer := Served]
  {
    var a, b := ServedOutcomes(pending, served + {c}), ServedOutcomes(pending, served)[pending[c].timer := Served];
    forall t | t in a
      ensures t in b
    {
      var d :| d in served + {c} && pending[d].timer == t;
      assert d == c || t in ServedOutcomes(pending, served);
    }
    forall t | t in b
      ensures t in a
    {
      if t != pending[c].timer {
        var d :| d in served && pending[d].timer == t;
        assert d in served + {c};
      } else {
        assert c in served + {c};
      }
    }
  }

  lemma OneMoreReply(f: Fused, clients: set<Client>, l: Location, served: set<Client>, c: Client)
    requires served <= f.pending.Keys && c in f.pending && c !in served
    ensures var before := f.replies + ServedReplies(f, clients, l, served);
            f.replies + ServedReplies(f, clients, l, served + {c}) ==
            if c in clients then before[c := RepliesTo(before, c) + [ServedReply(f, l, c)]] else before
  {
    var before, after := ServedReplies(f, clients, l, served), ServedReplies(f, clients, l, served + {c});
    assert RepliesTo(f.replies + before, c) == RepliesTo(f.replies, c);
    if c in clients {
      assert after == before[c := RepliesTo(f.replies, c) + [ServedReply(f, l, c)]];
    } else {
      assert (served + {c}) * clients == served * clients;
    }
  }

  lemma OneMoreUnheard(pending: map<Client, Request>, clients: set<Client>, served: set<Client>, c: Client)
    requires served <= pending.Keys && c in pending && c !in served
    ensures ServedUnheard(pending, served + {c} - clients) ==
            ServedUnheard(pending, served - clients) + if c in clients then {} else {pending[c].timer}
  {
    if c in clients {
      assert served + {c} - clients == served - clients;
    } else {
      assert served + {c} - clients == served - clients + {c};
      forall t | t in ServedUnheard(pending, served - clients + {c})
        ensures t in ServedUnheard(pending, served - clients) + {pending[c].timer}
      {
        var d :| d in served - clients + {c} && pending[d].timer == t;
        assert d == c || d in served - clients;
      }
    }
  }

  lemma OneMorePart(f: Fused, clients: set<Client>, l: Location, served: set<Client>, c: Client)
    requires served <= f.pending.Keys && c in f.pending && c !in served
    ensures var g, t := Serve(f, clients, l, served), f.pending[c].timer;
            && f.pending - (served + {c}) == g.pending - {c}
            && f.outcomes + ServedOutcomes(f.pending, served + {c}) == g.outcomes[t := Served]
            && f.unheard + ServedUnheard(f.pending, served + {c} - clients) ==
               g.unheard + if c in clients then {} else {t}
  {
    OneMoreOutcome(f.pending, served, c);
    OneMoreUnheard(f.pending, clients, served, c);
    var o, t := ServedOutcomes(f.pending, served), f.pending[c].timer;
    assert f.outcomes + o[t := Served] == (f.outcomes + o)[t := Served];
    assert f.pending - (served + {c}) == f.pending - served - {c};
  }

  /** Serving one more client is one more round of the loop. */
  lemma ServeOneMore(f: Fused, clients: set<Client>, l: Location, served: set<Client>, c: Client)
    requires served <= f.pending.Keys && c in f.pending && c !in served
    ensures c in Serve(f, clients, l, served).pending
    ensures Serve(f, clients, l, served + {c}) == ServedNext(Serve(f, clients, l, served), clients, l, c)
  {
    OneMorePart(f, clients, l, served, c);
    OneMoreReply(f, clients, l, served, c);
    var g := Serve(f, clients, l, served);
    assert ServedReply(g, l, c) == ServedReply(f, l, c);
    if c in clients {
      assert g.unheard + {} == g.unheard;
    }
  }

  lemma SendNobody(g: Ground, clients: set<Client>, r: GroundReply)
    ensures Send(g, clients, {}, r) == g
  {
    assert Send(g, clients, {}, r).replies == g.replies;
  }

  lemma SendOneMore(g: Ground, clients: set<Client>, sent: set<Client>, r: GroundReply, c: Client)
    requires c !in sent
    ensures var h := Send(g, clients, sent, r);
            Send(g, clients, sent + {c}, r) ==
            if c in clients then h.(replies := h.replies[c := GroundRepliesTo(h, c) + [r]]) else h
  {
    var before, after := SentReplies(g, clients, sent, r), SentReplies(g, clients, sent + {c}, r);
    assert GroundRepliesTo(Send(g, clients, sent, r), c) == GroundRepliesTo(g, c);
    if c in clients {
      assert after == before[c := GroundRepliesTo(g, c) + [r]];
      assert g.replies + after == (g.replies + before)[c := GroundRepliesTo(g, c) + [r]];
    } else {
      assert (sent + {c}) * clients == sent * clients;
    }
  }
}
