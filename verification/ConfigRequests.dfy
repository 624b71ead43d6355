/** Configuration requests of the location daemon, keyed by the session id that the HAL
    gives to each of them, and the three callbacks through which the HAL answers. */
module ConfigRequests {
  import opened FusedFixes

  /** Who asked, and with which message. ticket numbers the requests as they come; the
      service does not keep it. */
  datatype ConfigReq = ConfigReq(c: Client, msgId: nat, ticket: nat)

  /** LOCATION_ERROR_SUCCESS and LOCATION_ERROR_GENERAL_FAILURE; other values of the HAL
      are passed on as they are. */
  const CONFIG_SUCCESS: nat := 0
  const GENERAL_FAILURE: nat := 1

  datatype ConfigReply = ConfigReply(ticket: nat, error: nat, msgId: nat)

  /** reqs: mConfigReqs. asked, lost, closed and replies are noted by an observer: all
      requests, those that found their session id taken, those whose turn is over, and the
      control responses to each client. */
  datatype Configs = Configs(
    reqs: map<nat, ConfigReq>,
    asked: seq<ConfigReq>,
    lost: set<nat>,
    closed: set<nat>,
    replies: map<Client, seq<ConfigReply>>)

  function NoConfigs(): Configs {
    Configs(map[], [], {}, {}, map[])
  }

  function ConfigRepliesTo(g: Configs, c: Client): seq<ConfigReply> {
    if c in g.replies then g.replies[c] else []
  }

  /** Closes a request, with a control response if its client is registered. */
  function Close(g: Configs, clients: set<Client>, r: ConfigReq, error: nat): Configs {
    var h := g.(closed := g.closed + {r.ticket});
    if r.c in clients
    then h.(replies := g.replies[r.c := ConfigRepliesTo(g, r.c) + [ConfigReply(r.ticket, error, r.msgId)]])
    else h
  }

  /** addConfigRequestToMap, right after the HAL has answered with sessionId under the same
      lock. The map keeps what it has when the id is already taken. */
  function AddRequest(g: Configs, clients: set<Client>, c: Client, msgId: nat, sessionId: nat): Configs {
    var r := ConfigReq(c, msgId, |g.asked|);
    var h := g.(asked := g.asked + [r]);
    if sessionId == 0 then Close(h, clients, r, GENERAL_FAILURE)
    else if sessionId in g.reqs then h.(lost := g.lost + {r.ticket})
    else h.(reqs := g.reqs[sessionId := r])
  }

  /** What each of the three callbacks does with the id that it names. */
  function Respond(g: Configs, clients: set<Client>, sessionId: nat, error: nat): Configs {
    if sessionId in g.reqs
    then Close(g, clients, g.reqs[sessionId], error).(reqs := g.reqs - {sessionId})
    else g
  }

  /** A response of the HAL. Collective: the ids and errors of
      onControlCollectiveResponseCallback. Config: onGnssConfigCallback. */
  datatype HalAnswer =
    | Control(error: nat, id: nat)
    | Collective(errors: seq<nat>, ids: seq<nat>)
    | Config(id: nat)

  function OnHalAnswer(g: Configs, clients: set<Client>, a: HalAnswer): Configs {
    match a
    case Control(error, id) => Respond(g, clients, id, error)
    case Collective(errors, ids) =>
      if |ids| == 1 && |errors| == 1 then Respond(g, clients, ids[0], errors[0]) else g
    case Config(id) => if id == 0 then g else Respond(g, clients, id, CONFIG_SUCCESS)
  }

  // --------------------------------------------------------------------- runs

  datatype ConfigEvent =
    | Join(c: Client)
    | Quit(c: Client)
    | Submit(c: Client, msgId: nat, sessionId: nat)
    | Answer(a: HalAnswer)

  datatype Office = Office(clients: set<Client>, g: Configs)

  function ConfigStep(o: Office, e: ConfigEvent): Office {
    match e
    case Join(c) => o.(clients := o.clients + {c})
    case Quit(c) => o.(clients := o.clients - {c})
    case Submit(c, msgId, sessionId) => o.(g := AddRequest(o.g, o.clients, c, msgId, sessionId))
    case Answer(a) => o.(g := OnHalAnswer(o.g, o.clients, a))
  }

  function ConfigAfter(es: seq<ConfigEvent>): Office {
    if es == [] then Office({}, NoConfigs())
    else ConfigStep(ConfigAfter(es[..|es| - 1]), es[|es| - 1])
  }

  // --------------------------------------------------------------- invariant

  /** Each request is registered, closed or lost, in exactly one way. */
  ghost predicate Sorted(g: Configs) {
    Filed(g) && NoneMissing(g)
  }

  ghost predicate Filed(g: Configs) {
    && (forall id :: id in g.reqs ==>
          && id != 0 && g.reqs[id].ticket < |g.asked| && g.asked[g.reqs[id].ticket] == g.reqs[id]
          && g.reqs[id].ticket !in g.closed && g.reqs[id].ticket !in g.lost)
    && (forall i, j :: i in g.reqs && j in g.reqs && g.reqs[i].ticket == g.reqs[j].ticket ==> i == j)
    && (forall t :: t in g.closed ==> t < |g.asked| && t !in g.lost)
    && (forall t :: t in g.lost ==> t < |g.asked|)
    && (forall t :: 0 <= t < |g.asked| ==> g.asked[t].ticket == t)
  }

  ghost predicate NoneMissing(g: Configs) {
    forall t :: 0 <= t < |g.asked| && t !in g.closed && t !in g.lost ==> Registered(g, t)
  }

  ghost predicate Registered(g: Configs, t: nat) {
    exists id :: id in g.reqs && g.reqs[id].ticket == t
  }

  ghost predicate ConfigRepliesOk(g: Configs, c: Client) {
    var rs := ConfigRepliesTo(g, c);
    && (forall i :: 0 <= i < |rs| ==> ConfigReplyOk(g, c, rs[i]))
    && (forall i, j :: 0 <= i < j < |rs| ==> rs[i].ticket != rs[j].ticket)
  }

  ghost predicate ConfigReplyOk(g: Configs, c: Client, r: ConfigReply) {
    && r.ticket in g.closed && r.ticket < |g.asked|
    && g.asked[r.ticket].c == c && g.asked[r.ticket].msgId == r.msgId
  }

  ghost predicate ConfigInv(g: Configs) {
    Sorted(g) && forall c :: ConfigRepliesOk(g, c)
  }

  /** The replies to d stay right when request r is closed for the first time. */
  lemma CloseKeepsReplies(g: Configs, clients: set<Client>, r: ConfigReq, error: nat, d: Client)
    requires ConfigRepliesOk(g, d)
    requires r.ticket < |g.asked| && g.asked[r.ticket] == r && r.ticket !in g.closed
    ensures ConfigRepliesOk(Close(g, clients, r, error), d)
  {
    var h := Close(g, clients, r, error);
    var rs, rs' := ConfigRepliesTo(g, d), ConfigRepliesTo(h, d);
    assert forall i :: 0 <= i < |rs| ==> rs'[i] == rs[i] && ConfigReplyOk(g, d, rs[i]);
  }

  /** They stay right when a new request is noted, and when registrations change. */
  lemma NotingKeepsReplies(g: Configs, h: Configs, d: Client)
    requires ConfigRepliesOk(g, d) && g.asked <= h.asked && g.closed == h.closed && g.replies == h.replies
    ensures ConfigRepliesOk(h, d)
  {
    var rs, rs' := ConfigRepliesTo(g, d), ConfigRepliesTo(h, d);
    assert forall i :: 0 <= i < |rs| ==> rs'[i] == rs[i] && ConfigReplyOk(g, d, rs[i]);
  }

  lemma RefusedSorts(g: Configs, clients: set<Client>, c: Client, msgId: nat)
    requires Sorted(g)
    ensures Sorted(AddRequest(g, clients, c, msgId, 0))
  {
    var h := AddRequest(g, clients, c, msgId, 0);
    forall t | 0 <= t < |h.asked| && t !in h.closed && t !in h.lost
      ensures Registered(h, t)
    {
      assert Registered(g, t);
    }
  }

  lemma LostSorts(g: Configs, clients: set<Client>, c: Client, msgId: nat, sessionId: nat)
    requires Sorted(g) && sessionId != 0 && sessionId in g.reqs
    ensures Sorted(AddRequest(g, clients, c, msgId, sessionId))
  {
    var h := AddRequest(g, clients, c, msgId, sessionId);
    forall t | 0 <= t < |h.asked| && t !in h.closed && t !in h.lost
      ensures Registered(h, t)
    {
      assert Registered(g, t);
    }
  }

  lemma RegisteredSorts(g: Configs, clients: set<Client>, c: Client, msgId: nat, sessionId: nat)
    requires Sorted(g) && sessionId != 0 && sessionId !in g.reqs
    ensures Sorted(AddRequest(g, clients, c, msgId, sessionId))
  {
    var t0 := |g.asked|;
    var h := AddRequest(g, clients, c, msgId, sessionId);
    assert h.reqs[sessionId].ticket == t0;
    forall t | 0 <= t < |h.asked| && t !in h.closed && t !in h.lost
      ensures Registered(h, t)
    {
      if t < t0 {
        var id :| id in g.reqs && g.reqs[id].ticket == t;
        assert id in h.reqs && h.reqs[id].ticket == t;
      }
    }
  }

  lemma AddRequestKeeps(g: Configs, clients: set<Client>, c: Client, msgId: nat, sessionId: nat)
    requires ConfigInv(g)
    ensures ConfigInv(AddRequest(g, clients, c, msgId, sessionId))
  {
    if sessionId == 0 { RefusedSorts(g, clients, c, msgId); }
    else if sessionId in g.reqs { LostSorts(g, clients, c, msgId, sessionId); }
    else { RegisteredSorts(g, clients, c, msgId, sessionId); }
    var r := ConfigReq(c, msgId, |g.asked|);
    var noted := g.(asked := g.asked + [r]);
    var h := AddRequest(g, clients, c, msgId, sessionId);
    forall d
      ensures ConfigRepliesOk(h, d)
    {
      assert ConfigRepliesOk(g, d);
      NotingKeepsReplies(g, noted, d);
      if sessionId == 0 {
        CloseKeepsReplies(noted, clients, r, GENERAL_FAILURE, d);
      } else {
        NotingKeepsReplies(noted, h, d);
      }
    }
  }

  lemma RespondSorts(g: Configs, clients: set<Client>, sessionId: nat, error: nat)
    requires Sorted(g) && sessionId in g.reqs
    ensures Sorted(Respond(g, clients, sessionId, error))
  {
    var h := Respond(g, clients, sessionId, error);
    forall t | 0 <= t < |h.asked| && t !in h.closed && t !in h.lost
      ensures Registered(h, t)
    {
      var id :| id in g.reqs && g.reqs[id].ticket == t;
      assert id in h.reqs && h.reqs[id].ticket == t;
    }
  }

  lemma RespondKeeps(g: Configs, clients: set<Client>, sessionId: nat, error: nat)
    requires ConfigInv(g)
    ensures ConfigInv(Respond(g, clients, sessionId, error))
  {
    if sessionId in g.reqs {
      RespondSorts(g, clients, sessionId, error);
      var closed := Close(g, clients, g.reqs[sessionId], error);
      forall d
        ensures ConfigRepliesOk(Respond(g, clients, sessionId, error), d)
      {
        assert ConfigRepliesOk(g, d);
        CloseKeepsReplies(g, clients, g.reqs[sessionId], error, d);
        NotingKeepsReplies(closed, Respond(g, clients, sessionId, error), d);
      }
    }
  }

  lemma {:induction false} AlwaysConfigInv(es: seq<ConfigEvent>)
    ensures ConfigInv(ConfigAfter(es).g)
    decreases |es|
  {
    if es != [] {
      AlwaysConfigInv(es[..|es| - 1]);
      var o := ConfigAfter(es[..|es| - 1]);
      match es[|es| - 1]
      case Submit(c, msgId, sessionId) => AddRequestKeeps(o.g, o.clients, c, msgId, sessionId);
      case Answer(Control(error, id)) => RespondKeeps(o.g, o.clients, id, error);
      case Answer(Collective(errors, ids)) =>
        if |ids| == 1 && |errors| == 1 {
          RespondKeeps(o.g, o.clients, ids[0], errors[0]);
        }
      case Answer(Config(id)) => RespondKeeps(o.g, o.clients, id, CONFIG_SUCCESS);
      case _ =>
    }
  }

  // ------------------------------------------------------------------ theorems

  /** Every control response goes to the client that made the request, names the message of
      that request, and no request is answered twice. */
  lemma ResponsesMatchRequests(es: seq<ConfigEvent>, c: Client, i: nat)
    requires i < |ConfigRepliesTo(ConfigAfter(es).g, c)|
    ensures var g := ConfigAfter(es).g; var r := ConfigRepliesTo(g, c)[i];
            r.ticket < |g.asked| && g.asked[r.ticket].c == c && g.asked[r.ticket].msgId == r.msgId
    ensures forall j :: 0 <= j < |ConfigRepliesTo(ConfigAfter(es).g, c)| && j != i ==>
              ConfigRepliesTo(ConfigAfter(es).g, c)[j].ticket != ConfigRepliesTo(ConfigAfter(es).g, c)[i].ticket
  {
    AlwaysConfigInv(es);
    assert ConfigRepliesOk(ConfigAfter(es).g, c);
  }

  /** Whether the id of request number n of the run was still in use when it came. */
  ghost predicate Reused(es: seq<ConfigEvent>, n: nat) {
    n < |es| && es[n].Submit? && es[n].sessionId != 0 && es[n].sessionId in ConfigAfter(es[..n]).g.reqs
  }

  /** A request is lost for ever exactly when the HAL reuses a session id that is still in
      use: with fresh ids no request is lost. */
  lemma {:induction false} LostIffReused(es: seq<ConfigEvent>)
    ensures ConfigAfter(es).g.lost == {} <==> forall n :: 0 <= n < |es| ==> !Reused(es, n)
    decreases |es|
  {
    if es != [] {
      var m := |es| - 1;
      var before := es[..m];
      LostIffReused(before);
      forall n | 0 <= n < m
        ensures Reused(es, n) == Reused(before, n)
      {
        assert before[..n] == es[..n];
      }
      var o := ConfigAfter(before);
      assert ConfigAfter(es).g.lost == o.g.lost + (if Reused(es, m) then {|o.g.asked|} else {});
    }
  }

  /** The first answer to a session id that names it, by whichever callback, closes the
      request registered under it with that answer; later answers to the id find nothing. */
  lemma FirstAnswerCloses(es: seq<ConfigEvent>, a: HalAnswer, id: nat, error: nat)
    requires id in ConfigAfter(es).g.reqs
    requires a == Control(error, id) || a == Collective([error], [id]) || (a == Config(id) && error == CONFIG_SUCCESS)
    ensures var o := ConfigAfter(es); var r := o.g.reqs[id]; var g' := OnHalAnswer(o.g, o.clients, a);
            && id !in g'.reqs && r.ticket in g'.closed
            && ConfigRepliesTo(g', r.c) == ConfigRepliesTo(o.g, r.c) +
                                           (if r.c in o.clients then [ConfigReply(r.ticket, error, r.msgId)] else [])
    ensures var o := ConfigAfter(es); var g' := OnHalAnswer(o.g, o.clients, a);
            forall b: HalAnswer {:trigger OnHalAnswer(g', o.clients, b)} ::
              (b.Control? && b.id == id) || b == Config(id) || (b.Collective? && b.ids == [id]) ==>
                OnHalAnswer(g', o.clients, b) == g'
  {
    AlwaysConfigInv(es);
  }

  // ---------------------------------------------------- the fate of a request

  /** The error that an answer gives to session id, if it names it. */
  datatype Verdict = Silent | Says(error: nat)

  function VerdictOf(a: HalAnswer, id: nat): Verdict {
    match a
    case Control(error, i) => if i == id then Says(error) else Silent
    case Collective(errors, ids) => if ids == [id] && |errors| == 1 then Says(errors[0]) else Silent
    case Config(i) => if i == id && id != 0 then Says(0) else Silent
  }

  /** Waiting: registered. Dropped: never registered. Ended: closed, with told saying
      whether its client was there for the response. */
  datatype Fate = Waiting | Dropped | Ended(error: nat, told: bool)

  /** What a run makes of the request of its event n (1 is LOCATION_ERROR_GENERAL_FAILURE,
      0 is LOCATION_ERROR_SUCCESS): refused at once without a session,
      dropped if its session is in use, and otherwise ended by the first later answer that
      names its session. */
  function FateOf(es: seq<ConfigEvent>, n: nat): Fate
    requires n < |es| && es[n].Submit?
    decreases |es|
  {
    var m := |es| - 1;
    var o := ConfigAfter(es[..m]);
    var c, id := es[n].c, es[n].sessionId;
    if n == m then
      if id == 0 then Ended(1, c in o.clients)
      else if id in o.g.reqs then Dropped
      else Waiting
    else
      var before := FateOf(es[..m], n);
      if before.Waiting? && es[m].Answer? && VerdictOf(es[m].a, id).Says?
      then Ended(VerdictOf(es[m].a, id).error, c in o.clients)
      else before
  }

  /** The number of the request of event n. */
  function TicketOf(es: seq<ConfigEvent>, n: nat): nat
    requires n < |es|
  {
    |ConfigAfter(es[..n]).g.asked|
  }

  /** g shows the fate f of request t, which c made with msgId under a session id. */
  ghost predicate Shows(g: Configs, f: Fate, c: Client, msgId: nat, id: nat, t: nat) {
    && t < |g.asked| && g.asked[t] == ConfigReq(c, msgId, t)
    && (f.Waiting? ==> id in g.reqs && g.reqs[id].ticket == t && t !in g.closed)
    && (f.Dropped? <==> t in g.lost)
    && (f.Ended? ==> t in g.closed)
  }

  /** The replies to d that answer request t are exactly what its fate says. */
  ghost predicate Told(g: Configs, f: Fate, c: Client, msgId: nat, t: nat, d: Client) {
    forall r: ConfigReply :: r.ticket == t ==>
      (r in ConfigRepliesTo(g, d) <==> d == c && f == Ended(r.error, true) && r.msgId == msgId)
  }

  /** No reply answers a request that is not closed. */
  lemma OpenIsUntold(g: Configs, d: Client, t: nat)
    requires ConfigRepliesOk(g, d) && t !in g.closed
    ensures forall r: ConfigReply :: r.ticket == t ==> r !in ConfigRepliesTo(g, d)
  {
  }

  /** Closing request r adds its reply to its client, and nothing else. */
  lemma CloseTells(g: Configs, clients: set<Client>, r: ConfigReq, error: nat, d: Client)
    ensures ConfigRepliesTo(Close(g, clients, r, error), d) ==
            ConfigRepliesTo(g, d) +
            if d == r.c && r.c in clients then [ConfigReply(r.ticket, error, r.msgId)] else []
  {
  }

  /** An answer closes the request of the session that it names. */
  lemma AnswerIs(g: Configs, clients: set<Client>, a: HalAnswer, id: nat)
    requires Sorted(g) && id in g.reqs && VerdictOf(a, id).Says?
    ensures OnHalAnswer(g, clients, a) == Respond(g, clients, id, VerdictOf(a, id).error)
  {
  }

  /** A request of its own: event n is the last of the run. */
  lemma NewFate(es: seq<ConfigEvent>, n: nat, d: Client)
    requires n + 1 == |es| && es[n].Submit?
    ensures var e, g, t := es[n], ConfigAfter(es).g, TicketOf(es, n);
            && Shows(g, FateOf(es, n), e.c, e.msgId, e.sessionId, t)
            && Told(g, FateOf(es, n), e.c, e.msgId, t, d)
  {
    var o, e := ConfigAfter(es[..n]), es[n];
    AlwaysConfigInv(es[..n]);
    assert ConfigRepliesOk(o.g, d);
    OpenIsUntold(o.g, d, |o.g.asked|);
    var r := ConfigReq(e.c, e.msgId, |o.g.asked|);
    if e.sessionId == 0 {
      CloseTells(o.g.(asked := o.g.asked + [r]), o.clients, r, GENERAL_FAILURE, d);
    }
  }

  /** The session of a waiting request is answered. */
  lemma AnsweredFate(o: Office, a: HalAnswer, c: Client, msgId: nat, id: nat, t: nat, d: Client)
    requires ConfigInv(o.g) && VerdictOf(a, id).Says?
    requires Shows(o.g, Waiting, c, msgId, id, t)
    ensures var g', f := OnHalAnswer(o.g, o.clients, a), Ended(VerdictOf(a, id).error, c in o.clients);
            Shows(g', f, c, msgId, id, t) && Told(g', f, c, msgId, t, d)
  {
    assert ConfigRepliesOk(o.g, d);
    OpenIsUntold(o.g, d, t);
    AnswerIs(o.g, o.clients, a, id);
    CloseTells(o.g, o.clients, o.g.reqs[id], VerdictOf(a, id).error, d);
  }

  /** An answer to another session, or any answer once the fate is settled. */
  lemma ForeignAnswer(o: Office, a: HalAnswer, f: Fate, c: Client, msgId: nat, id: nat, t: nat, d: Client)
    requires ConfigInv(o.g) && (f.Waiting? ==> VerdictOf(a, id).Silent?)
    requires Shows(o.g, f, c, msgId, id, t) && Told(o.g, f, c, msgId, t, d)
    ensures var g' := OnHalAnswer(o.g, o.clients, a); Shows(g', f, c, msgId, id, t) && Told(g', f, c, msgId, t, d)
  {
    match a
    case Control(error, i) => ForeignRespond(o, i, error, f, c, msgId, id, t, d);
    case Collective(errors, ids) =>
      if |ids| == 1 && |errors| == 1 { ForeignRespond(o, ids[0], errors[0], f, c, msgId, id, t, d); }
    case Config(i) => if i != 0 { ForeignRespond(o, i, CONFIG_SUCCESS, f, c, msgId, id, t, d); }
  }

  lemma ForeignRespond(
      o: Office, i: nat, error: nat, f: Fate, c: Client, msgId: nat, id: nat, t: nat, d: Client)
    requires ConfigInv(o.g) && (f.Waiting? ==> i != id)
    requires Shows(o.g, f, c, msgId, id, t) && Told(o.g, f, c, msgId, t, d)
    ensures var g' := Respond(o.g, o.clients, i, error); Shows(g', f, c, msgId, id, t) && Told(g', f, c, msgId, t, d)
  {
    if i in o.g.reqs {
      CloseTells(o.g, o.clients, o.g.reqs[i], error, d);
      assert o.g.reqs[i].ticket != t;
    }
  }

  /** A later request changes nothing for an earlier one. */
  lemma LaterSubmit(o: Office, e: ConfigEvent, f: Fate, c: Client, msgId: nat, id: nat, t: nat, d: Client)
    requires ConfigInv(o.g) && e.Submit?
    requires Shows(o.g, f, c, msgId, id, t) && Told(o.g, f, c, msgId, t, d)
    ensures var g' := ConfigStep(o, e).g; Shows(g', f, c, msgId, id, t) && Told(g', f, c, msgId, t, d)
  {
    var r := ConfigReq(e.c, e.msgId, |o.g.asked|);
    if e.sessionId == 0 {
      CloseTells(o.g.(asked := o.g.asked + [r]), o.clients, r, GENERAL_FAILURE, d);
    }
  }

  /** Over every run, for every request: the replies that answer it are exactly those of its
      fate. So a request whose session was free is answered once, by the first later answer
      that names its session, with that error and its own message, to its own client if that
      is registered then; a dropped one is dropped for ever and never answered; and one
      without a session is refused at once. */
  lemma {:induction false} FateIsExact(es: seq<ConfigEvent>, n: nat, d: Client)
    requires n < |es| && es[n].Submit?
    ensures var e, g, t := es[n], ConfigAfter(es).g, TicketOf(es, n);
            && Shows(g, FateOf(es, n), e.c, e.msgId, e.sessionId, t)
            && Told(g, FateOf(es, n), e.c, e.msgId, t, d)
    decreases |es|
  {
    var m := |es| - 1;
    if n == m {
      NewFate(es, n, d);
    } else {
      var before, o, e := es[..m], ConfigAfter(es[..m]), es[n];
      assert before[..n] == es[..n];
      FateIsExact(before, n, d);
      AlwaysConfigInv(before);
      var f, t := FateOf(before, n), TicketOf(before, n);
      match es[m]
      case Answer(a) =>
        if f.Waiting? && VerdictOf(a, e.sessionId).Says? {
          AnsweredFate(o, a, e.c, e.msgId, e.sessionId, t, d);
        } else {
          ForeignAnswer(o, a, f, e.c, e.msgId, e.sessionId, t, d);
        }
      case Submit(_, _, _) => LaterSubmit(o, es[m], f, e.c, e.msgId, e.sessionId, t, d);
      case _ =>
    }
  }

  /** A settled fate stays. */
  lemma {:induction false} FateIsFinal(es: seq<ConfigEvent>, n: nat, k: nat)
    requires n < k <= |es| && es[n].Submit? && !FateOf(es[..k], n).Waiting?
    ensures FateOf(es, n) == FateOf(es[..k], n)
    decreases |es|
  {
    if k < |es| {
      var before := es[..|es| - 1];
      assert before[..k] == es[..k];
      FateIsFinal(before, n, k);
    } else {
      assert es[..k] == es;
    }
  }

  /** Without a session: one failure at once, if the client is there, and never anything else. */
  lemma NoSessionIsRefused(es: seq<ConfigEvent>, n: nat, d: Client, r: ConfigReply)
    requires n < |es| && es[n].Submit? && es[n].sessionId == 0 && r.ticket == TicketOf(es, n)
    ensures r in ConfigRepliesTo(ConfigAfter(es).g, d) <==>
            && d == es[n].c && es[n].c in ConfigAfter(es[..n]).clients
            && r.error == 1 && r.msgId == es[n].msgId
  {
    assert es[..n + 1][..n] == es[..n];
    FateIsFinal(es, n, n + 1);
    FateIsExact(es, n, d);
  }

  /** A run that loses a request: the HAL gives two requests the same session id, and its two
      answers reach only the first. */
  lemma ReusedIdRun(c: Client, id: nat) returns (es: seq<ConfigEvent>)
    requires id != 0
    ensures es == [Join(c), Submit(c, 1, id), Submit(c, 2, id),
                   Answer(Control(CONFIG_SUCCESS, id)), Answer(Control(CONFIG_SUCCESS, id))]
    ensures FateOf(es, 2) == Dropped && 1 in ConfigAfter(es).g.lost
    ensures ConfigRepliesTo(ConfigAfter(es).g, c) == [ConfigReply(0, CONFIG_SUCCESS, 1)]
  {
    var answer := Answer(Control(CONFIG_SUCCESS, id));
    var o0 := ConfigAfter([]);
    var o1 := ConfigNext([], Join(c));
    var o2 := ConfigNext([Join(c)], Submit(c, 1, id));
    var e2 := [Join(c)] + [Submit(c, 1, id)];
    var o3 := ConfigNext(e2, Submit(c, 2, id));
    var e3 := e2 + [Submit(c, 2, id)];
    var o4 := ConfigNext(e3, answer);
    var o5 := ConfigNext(e3 + [answer], answer);
    es := e3 + [answer] + [answer];
    assert [] + [Join(c)] == [Join(c)];
    assert es[..3] == e3 && e3[..2] == e2;
    assert FateOf(e3, 2) == Dropped;
    FateIsFinal(es, 2, 3);
  }

  lemma ConfigNext(es: seq<ConfigEvent>, e: ConfigEvent) returns (o: Office)
    ensures o == ConfigAfter(es + [e]) == ConfigStep(ConfigAfter(es), e)
  {
    assert (es + [e])[..|es + [e]| - 1] == es;
    o := ConfigAfter(es + [e]);
  }
}
