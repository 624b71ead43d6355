/** Single-shot fused fixes of the location daemon: many clients share one tracking
    session of the HAL. The state holds what LocationApiService keeps, and after it what
    an observer at the HAL and at the clients' sockets notes down.

    Every handler runs under mMutex, so one handler is one step. Messages to clients are
    kept per client, since their sockets are independent. */
module FusedFixes {
  import opened Options

  type Client = string

  /** A position report; the rest of its fields is summed up in content. */
  datatype Location = Location(
    timestamp: nat,
    hasLatLong: bool,
    hasAccuracy: bool,
    accuracy: real,
    content: nat)

  /** Location{} */
  const NO_LOCATION := Location(0, false, false, 0.0, 0)

  /** A pending request. Its timer object tells it from every other request. */
  datatype Request = Request(qos: real, timer: nat)

  datatype Outcome = Served | TimedOut | Cancelled | Superseded | ClientDeleted

  datatype FixError = FixSuccess | FixTimeout

  /** A reply, with the request it answers. heardAt numbers the position report whose
      location it carries, epoch the reports before the set of requests last became
      non-empty. */
  datatype Reply = Reply(timer: nat, error: FixError, location: Location, heardAt: nat, epoch: nat)

  datatype Asked = Asked(c: Client, qos: real)

  /** Calls to the HAL. Started(0) is an attempt that failed. */
  datatype HalOp = Started(id: nat) | Stopped(id: nat)

  datatype Fused = Fused(
    // kept by the service
    apiCreated: bool,
    pending: map<Client, Request>,
    session: nat,
    lastLocation: Location,
    nextTimer: nat,
    // noted by the observer; unheard: requests that ended while their client was not registered
    asked: map<nat, Asked>,
    outcomes: map<nat, Outcome>,
    replies: map<Client, seq<Reply>>,
    unheard: set<nat>,
    hal: seq<HalOp>,
    heard: nat,
    lastAt: nat,
    epoch: nat)

  function NoFixes(): Fused {
    Fused(false, map[], 0, NO_LOCATION, 0, map[], map[], map[], {}, [], 0, 0, 0)
  }

  function RepliesTo(replies: map<Client, seq<Reply>>, c: Client): seq<Reply> {
    if c in replies then replies[c] else []
  }

  // ---------------------------------------------------------------- handlers

  /** Takes the request of c, if any, out of the map. */
  function Leave(f: Fused, c: Client, how: Outcome): Fused {
    if c in f.pending
    then f.(pending := f.pending - {c}, outcomes := f.outcomes[f.pending[c].timer := how])
    else f
  }

  /** stopTrackingSessionForSingleFixes */
  function StopIfIdle(f: Fused): Fused {
    if f.pending != map[] then f
    else
      var g := f.(lastLocation := NO_LOCATION);
      if f.apiCreated && f.session != 0 then g.(session := 0, hal := f.hal + [Stopped(f.session)]) else g
  }

  /** Whether a message asks for a fix; otherwise it cancels. */
  predicate AsksForFix(qos: real, timeoutMsec: nat) {
    qos != 0.0 && timeoutMsec != 0
  }

  /** getSinglePos. created: what LocationAPI::createInstance answers when the service has
      no instance yet; halId: what startTracking returns when it is called. */
  function GetSinglePos(f: Fused, c: Client, qos: real, timeoutMsec: nat, created: bool, halId: nat): Fused {
    if !f.apiCreated && !created then f
    else if AsksForFix(qos, timeoutMsec) then
      Ensure(Accept(Leave(f.(apiCreated := true), c, Superseded), c, qos, f.pending == map[]), halId)
    else
      StopIfIdle(Leave(f.(apiCreated := true), c, Cancelled))
  }

  function Accept(f: Fused, c: Client, qos: real, first: bool): Fused {
    f.(pending := f.pending[c := Request(qos, f.nextTimer)],
       asked := f.asked[f.nextTimer := Asked(c, qos)],
       nextTimer := f.nextTimer + 1,
       epoch := if first then f.heard else f.epoch)
  }

  /** Starts the tracking session unless there is one. */
  function Ensure(f: Fused, halId: nat): Fused {
    if f.session == 0 then f.(session := halId, hal := f.hal + [Started(halId)]) else f
  }

  predicate Usable(l: Location) {
    l.timestamp != 0 && l.hasLatLong && l.hasAccuracy
  }

  /** The clients whose quality of service a location meets. */
  function ServedBy(f: Fused, l: Location): (cs: set<Client>)
    ensures cs <= f.pending.Keys
  {
    set c | c in f.pending && Usable(l) && l.accuracy < f.pending[c].qos
  }

  /** A report is stored as the last location, usable or not. */
  function Heard(f: Fused, l: Location): Fused {
    f.(lastLocation := l, heard := f.heard + 1, lastAt := f.heard + 1)
  }

  /** onGnssLocationInfoCb */
  function OnLocation(f: Fused, clients: set<Client>, l: Location): Fused {
    StopIfIdle(Serve(Heard(f, l), clients, l, ServedBy(f, l)))
  }

  function Serve(f: Fused, clients: set<Client>, l: Location, served: set<Client>): Fused
    requires served <= f.pending.Keys
  {
    f.(pending := f.pending - served,
       outcomes := f.outcomes + ServedOutcomes(f.pending, served),
       replies := f.replies + ServedReplies(f, clients, l, served),
       unheard := f.unheard + ServedUnheard(f.pending, served - clients))
  }

  /** The new logs of the served clients that are there. */
  function ServedReplies(f: Fused, clients: set<Client>, l: Location, served: set<Client>): map<Client, seq<Reply>>
    requires served <= f.pending.Keys
  {
    map c | c in served * clients :: RepliesTo(f.replies, c) + [ServedReply(f, l, c)]
  }

  function ServedUnheard(pending: map<Client, Request>, away: set<Client>): set<nat>
    requires away <= pending.Keys
  {
    set c | c in away :: pending[c].timer
  }

  function ServedOutcomes(pending: map<Client, Request>, served: set<Client>): map<nat, Outcome>
    requires served <= pending.Keys
  {
    map c | c in served :: pending[c].timer := Served
  }

  function ServedReply(f: Fused, l: Location, c: Client): Reply
    requires c in f.pending
  {
    Reply(f.pending[c].timer, FixSuccess, l, f.lastAt, f.epoch)
  }

  /** singleFixRequestTimeout */
  function Timeout(f: Fused, clients: set<Client>, c: Client): Fused {
    if c in f.pending then StopIfIdle(Expire(f, clients, c)) else f
  }

  function TimeoutReply(f: Fused, c: Client): Reply
    requires c in f.pending
  {
    Reply(f.pending[c].timer, FixTimeout, f.lastLocation, f.lastAt, f.epoch)
  }

  /** The request of c leaves with a timeout reply that carries the stored location. */
  function Expire(f: Fused, clients: set<Client>, c: Client): Fused
    requires c in f.pending
  {
    var g :=
      if c in clients then f.(replies := f.replies[c := RepliesTo(f.replies, c) + [TimeoutReply(f, c)]])
      else f.(unheard := f.unheard + {f.pending[c].timer});
    Leave(g, c, TimedOut)
  }

  /** The part of deleteClientbyName that concerns single fixes. */
  function DeleteClient(f: Fused, c: Client): Fused {
    StopIfIdle(Leave(f, c, ClientDeleted))
  }

  // --------------------------------------------------------------- invariant

  /** Each request is either pending or has left, and never both. */
  ghost predicate Conserved(f: Fused) {
    && (forall t :: t in f.asked <==> 0 <= t < f.nextTimer)
    && (forall t :: t in f.outcomes ==> t in f.asked)
    && (forall c :: c in f.pending ==>
          && f.pending[c].timer < f.nextTimer
          && f.pending[c].timer !in f.outcomes
          && f.asked[f.pending[c].timer] == Asked(c, f.pending[c].qos))
    && (forall t :: t in f.asked && t !in f.outcomes ==>
          f.asked[t].c in f.pending && f.pending[f.asked[t].c].timer == t)
  }

  /** The open session after a ledger; None when a start or a stop does not fit. */
  function Replay(hal: seq<HalOp>): Option<nat> {
    if hal == [] then Some(0)
    else
      var before := Replay(hal[..|hal| - 1]);
      match hal[|hal| - 1]
      case Started(id) => if before == Some(0) then Some(id) else None
      case Stopped(id) => if before == Some(id) && id != 0 then Some(0) else None
  }

  /** At most one session is open, and it is the one the service knows; it is open only
      while requests are pending, and then unless the last start failed. */
  ghost predicate Ledger(f: Fused) {
    && Replay(f.hal) == Some(f.session)
    && (f.pending == map[] ==> f.session == 0)
    && (f.pending != map[] ==> f.apiCreated && f.hal != [] && f.hal[|f.hal| - 1] == Started(f.session))
  }

  /** A stored location was received after the set of requests last became non-empty. */
  ghost predicate Current(f: Fused) {
    && (f.pending == map[] ==> f.lastLocation == NO_LOCATION)
    && f.epoch <= f.heard
    && (f.lastLocation != NO_LOCATION ==> f.epoch < f.lastAt <= f.heard)
  }

  /** What a reply to c that answers request t says. */
  ghost predicate ReplyOk(f: Fused, c: Client, r: Reply) {
    && r.timer in f.asked && f.asked[r.timer].c == c && r.timer in f.outcomes
    && match r.error
       case FixSuccess =>
         f.outcomes[r.timer] == Served && Usable(r.location) && r.location.accuracy < f.asked[r.timer].qos
       case FixTimeout =>
         f.outcomes[r.timer] == TimedOut && (r.location == NO_LOCATION || r.epoch < r.heardAt)
  }

  ghost predicate RepliesOk(f: Fused, c: Client) {
    var rs := RepliesTo(f.replies, c);
    && (forall i :: 0 <= i < |rs| ==> ReplyOk(f, c, rs[i]))
    && (forall i, j :: 0 <= i < j < |rs| ==> rs[i].timer < rs[j].timer)
    && (c in f.pending ==> forall i :: 0 <= i < |rs| ==> rs[i].timer < f.pending[c].timer)
  }

  ghost predicate AllRepliesOk(f: Fused) {
    forall c :: RepliesOk(f, c)
  }

  ghost predicate HasReply(rs: seq<Reply>, t: nat) {
    exists i :: 0 <= i < |rs| && rs[i].timer == t
  }

  /** Every request that was served or timed out was answered, unless nobody was there. */
  ghost predicate Answered(f: Fused) {
    forall t :: t in f.outcomes && t in f.asked && (f.outcomes[t] == Served || f.outcomes[t] == TimedOut)
                && t !in f.unheard ==>
                  HasReply(RepliesTo(f.replies, f.asked[t].c), t)
  }

  ghost predicate Inv(f: Fused) {
    Conserved(f) && Ledger(f) && Current(f) && AllRepliesOk(f) && Answered(f)
  }

  // ------------------------------------------------------------ preservation

  lemma NoFixesInv()
    ensures Inv(NoFixes())
  {
  }

  // Ledger and stored location in the middle of a handler, before StopIfIdle

  ghost predicate LedgerOpen(f: Fused) {
    && Replay(f.hal) == Some(f.session)
    && (f.session != 0 ==> f.apiCreated)
    && (f.pending != map[] ==> f.apiCreated && f.hal != [] && f.hal[|f.hal| - 1] == Started(f.session))
  }

  ghost predicate CurrentOpen(f: Fused) {
    f.epoch <= f.heard && (f.lastLocation != NO_LOCATION ==> f.epoch < f.lastAt <= f.heard)
  }

  ghost predicate OpenInv(f: Fused) {
    Conserved(f) && LedgerOpen(f) && CurrentOpen(f) && AllRepliesOk(f) && Answered(f)
  }

  lemma InvIsOpenInv(f: Fused)
    requires Inv(f)
    ensures OpenInv(f)
  {
  }

  /** Only the ledger, the session, the stored location and the numbering differ. */
  ghost predicate SameRequests(f: Fused, g: Fused) {
    f.pending == g.pending && f.asked == g.asked && f.outcomes == g.outcomes && f.replies == g.replies
    && f.unheard == g.unheard && f.nextTimer == g.nextTimer
  }

  lemma SameRequestsSameReplies(f: Fused, g: Fused)
    requires AllRepliesOk(f) && SameRequests(f, g)
    ensures AllRepliesOk(g)
  {
    forall c
      ensures RepliesOk(g, c)
    {
      assert RepliesOk(f, c);
    }
  }

  lemma StopIfIdleLedger(f: Fused)
    requires LedgerOpen(f)
    ensures Ledger(StopIfIdle(f))
  {
    var g := StopIfIdle(f);
    if g.hal != f.hal {
      assert g.hal[..|g.hal| - 1] == f.hal;
    }
  }

  lemma StopIfIdleCloses(f: Fused)
    requires OpenInv(f)
    ensures Inv(StopIfIdle(f))
  {
    var g := StopIfIdle(f);
    SameRequestsSameReplies(f, g);
    StopIfIdleLedger(f);
    assert Current(g);
    assert Answered(g);
  }

  /** A reply stays right when requests leave or new ones are noted. */
  lemma ReplyStays(f: Fused, g: Fused, c: Client, r: Reply)
    requires ReplyOk(f, c, r)
    requires forall t :: t in f.asked ==> t in g.asked && g.asked[t] == f.asked[t]
    requires forall t :: t in f.outcomes ==> t in g.outcomes && g.outcomes[t] == f.outcomes[t]
    ensures ReplyOk(g, c, r)
  {
  }

  /** how is not an outcome that calls for a reply. */
  lemma LeaveKeeps(f: Fused, c: Client, how: Outcome)
    requires OpenInv(f) && how != Served && how != TimedOut
    ensures OpenInv(Leave(f, c, how))
  {
    var g := Leave(f, c, how);
    forall d
      ensures RepliesOk(g, d)
    {
      assert RepliesOk(f, d);
    }
  }

  lemma AcceptKeeps(f: Fused, c: Client, qos: real, first: bool)
    requires Conserved(f) && AllRepliesOk(f) && Answered(f) && c !in f.pending
    ensures var g := Accept(f, c, qos, first); Conserved(g) && AllRepliesOk(g) && Answered(g)
  {
    var g := Accept(f, c, qos, first);
    forall d
      ensures RepliesOk(g, d)
    {
      assert RepliesOk(f, d);
    }
  }

  /** After a request has been accepted, the session is open or was just tried. */
  lemma EnsureCloses(f: Fused, halId: nat)
    requires Conserved(f) && AllRepliesOk(f) && Answered(f) && CurrentOpen(f)
    requires f.pending != map[] && f.apiCreated && Replay(f.hal) == Some(f.session)
    requires f.session != 0 ==> f.hal != [] && f.hal[|f.hal| - 1] == Started(f.session)
    ensures Inv(Ensure(f, halId))
  {
    var g := Ensure(f, halId);
    SameRequestsSameReplies(f, g);
    if g.hal != f.hal {
      assert g.hal[..|g.hal| - 1] == f.hal;
    }
  }

  lemma CreateKeeps(f: Fused)
    requires Inv(f)
    ensures OpenInv(f.(apiCreated := true))
  {
    SameRequestsSameReplies(f, f.(apiCreated := true));
  }

  /** g: the state when the service has its instance; first: no request was pending. */
  lemma RequestKeepsInv(g: Fused, c: Client, qos: real, first: bool, halId: nat)
    requires OpenInv(g) && g.apiCreated
    requires first <==> g.pending == map[]
    requires first ==> g.session == 0 && g.lastLocation == NO_LOCATION
    ensures Inv(Ensure(Accept(Leave(g, c, Superseded), c, qos, first), halId))
  {
    LeaveKeeps(g, c, Superseded);
    AcceptKeeps(Leave(g, c, Superseded), c, qos, first);
    EnsureCloses(Accept(Leave(g, c, Superseded), c, qos, first), halId);
  }

  lemma CancelKeepsInv(g: Fused, c: Client)
    requires OpenInv(g)
    ensures Inv(StopIfIdle(Leave(g, c, Cancelled)))
  {
    LeaveKeeps(g, c, Cancelled);
    StopIfIdleCloses(Leave(g, c, Cancelled));
  }

  lemma GetSinglePosKeepsInv(f: Fused, c: Client, qos: real, timeoutMsec: nat, created: bool, halId: nat)
    requires Inv(f)
    ensures Inv(GetSinglePos(f, c, qos, timeoutMsec, created, halId))
  {
    CreateKeeps(f);
    if !f.apiCreated && !created {
    } else if AsksForFix(qos, timeoutMsec) {
      RequestKeepsInv(f.(apiCreated := true), c, qos, f.pending == map[], halId);
    } else {
      CancelKeepsInv(f.(apiCreated := true), c);
    }
  }

  lemma DeleteClientKeepsInv(f: Fused, c: Client)
    requires Inv(f)
    ensures Inv(DeleteClient(f, c))
  {
    LeaveKeeps(f, c, ClientDeleted);
    StopIfIdleCloses(Leave(f, c, ClientDeleted));
  }

  lemma ServeConserves(f: Fused, clients: set<Client>, l: Location, served: set<Client>)
    requires Conserved(f) && served <= f.pending.Keys
    ensures Conserved(Serve(f, clients, l, served))
  {
  }

  /** What has left stays as it was, and served requests are noted. */
  lemma ServeOutcomes(f: Fused, clients: set<Client>, l: Location, served: set<Client>)
    requires Conserved(f) && served <= f.pending.Keys
    ensures var g := Serve(f, clients, l, served);
            && (forall t :: t in f.outcomes ==> t in g.outcomes && g.outcomes[t] == f.outcomes[t])
            && (forall c :: c in served ==>
                  f.pending[c].timer in g.outcomes && g.outcomes[f.pending[c].timer] == Served)
            && (forall t :: t in g.outcomes && t !in f.outcomes ==>
                  && t in f.asked && f.asked[t].c in served && f.pending[f.asked[t].c].timer == t
                  && (f.asked[t].c !in clients ==> t in g.unheard))
  {
  }

  lemma ServeLog(f: Fused, clients: set<Client>, l: Location, served: set<Client>, c: Client)
    requires served <= f.pending.Keys
    ensures RepliesTo(Serve(f, clients, l, served).replies, c) ==
            RepliesTo(f.replies, c) +
            if c in served && c in clients
            then [ServedReply(f, l, c)] else []
  {
  }

  /** What is known of g after requests of f have left. */
  ghost predicate Later(f: Fused, g: Fused) {
    && g.asked == f.asked
    && (forall t :: t in f.outcomes ==> t in g.outcomes && g.outcomes[t] == f.outcomes[t])
    && (forall c :: c in g.pending ==> c in f.pending && g.pending[c] == f.pending[c])
  }

  /** The replies to c stay right when the reply to its pending request is added, or none. */
  lemma LogGrows(f: Fused, g: Fused, c: Client, more: seq<Reply>)
    requires RepliesOk(f, c) && Later(f, g) && |more| <= 1
    requires RepliesTo(g.replies, c) == RepliesTo(f.replies, c) + more
    requires more != [] ==> ReplyOk(g, c, more[0])
    requires more != [] ==> c in f.pending && c !in g.pending && more[0].timer == f.pending[c].timer
    ensures RepliesOk(g, c)
  {
    var rs, rs' := RepliesTo(f.replies, c), RepliesTo(g.replies, c);
    forall i | 0 <= i < |rs'|
      ensures ReplyOk(g, c, rs'[i])
    {
      if i < |rs| {
        ReplyStays(f, g, c, rs[i]);
      }
    }
  }

  lemma ServeRepliesTo(f: Fused, clients: set<Client>, l: Location, served: set<Client>, c: Client)
    requires Conserved(f) && RepliesOk(f, c) && served <= f.pending.Keys
    requires c in served ==> Usable(l) && l.accuracy < f.pending[c].qos
    ensures RepliesOk(Serve(f, clients, l, served), c)
  {
    var g := Serve(f, clients, l, served);
    ServeOutcomes(f, clients, l, served);
    ServeLog(f, clients, l, served, c);
    LogGrows(f, g, c, if c in served && c in clients
                      then [ServedReply(f, l, c)] else []);
  }

  lemma HasReplyStays(rs: seq<Reply>, more: seq<Reply>, t: nat)
    requires HasReply(rs, t) || HasReply(more, t)
    ensures HasReply(rs + more, t)
  {
    if HasReply(rs, t) {
      var i :| 0 <= i < |rs| && rs[i].timer == t;
      assert (rs + more)[i] == rs[i];
    } else {
      var i :| 0 <= i < |more| && more[i].timer == t;
      assert (rs + more)[|rs| + i] == more[i];
    }
  }

  lemma ServeAnswersOne(f: Fused, clients: set<Client>, l: Location, served: set<Client>, t: nat)
    requires Conserved(f) && Answered(f) && served <= f.pending.Keys && t in f.asked
    requires var g := Serve(f, clients, l, served);
             t in g.outcomes && (g.outcomes[t] == Served || g.outcomes[t] == TimedOut) && t !in g.unheard
    ensures HasReply(RepliesTo(Serve(f, clients, l, served).replies, f.asked[t].c), t)
  {
    var c := f.asked[t].c;
    var rs := RepliesTo(f.replies, c);
    var more := if c in served && c in clients
                then [ServedReply(f, l, c)] else [];
    ServeOutcomes(f, clients, l, served);
    ServeLog(f, clients, l, served, c);
    if t !in f.outcomes {
      assert more[0].timer == t;
    }
    HasReplyStays(rs, more, t);
  }

  lemma ServeAnswers(f: Fused, clients: set<Client>, l: Location, served: set<Client>)
    requires Conserved(f) && Answered(f) && served <= f.pending.Keys
    ensures Answered(Serve(f, clients, l, served))
  {
    var g := Serve(f, clients, l, served);
    forall t | t in g.outcomes && t in g.asked && (g.outcomes[t] == Served || g.outcomes[t] == TimedOut)
               && t !in g.unheard
      ensures HasReply(RepliesTo(g.replies, g.asked[t].c), t)
    {
      ServeAnswersOne(f, clients, l, served, t);
    }
  }

  lemma OnLocationKeepsInv(f: Fused, clients: set<Client>, l: Location)
    requires Inv(f)
    ensures Inv(OnLocation(f, clients, l))
  {
    var g := Heard(f, l);
    var served := ServedBy(f, l);
    SameRequestsSameReplies(f, g);
    ServeConserves(g, clients, l, served);
    forall c
      ensures RepliesOk(Serve(g, clients, l, served), c)
    {
      assert RepliesOk(g, c);
      ServeRepliesTo(g, clients, l, served, c);
    }
    ServeAnswers(g, clients, l, served);
    StopIfIdleCloses(Serve(g, clients, l, served));
  }

  lemma ExpireReplies(f: Fused, clients: set<Client>, c: Client, d: Client)
    requires Conserved(f) && CurrentOpen(f) && RepliesOk(f, d) && c in f.pending
    ensures RepliesOk(Expire(f, clients, c), d)
  {
    LogGrows(f, Expire(f, clients, c), d, if d == c && c in clients then [TimeoutReply(f, c)] else []);
  }

  lemma ExpireAnswers(f: Fused, clients: set<Client>, c: Client)
    requires Conserved(f) && Answered(f) && c in f.pending
    ensures Answered(Expire(f, clients, c))
  {
    var g := Expire(f, clients, c);
    forall t | t in g.outcomes && t in g.asked && (g.outcomes[t] == Served || g.outcomes[t] == TimedOut)
               && t !in g.unheard
      ensures HasReply(RepliesTo(g.replies, g.asked[t].c), t)
    {
      var d := g.asked[t].c;
      var more := if d == c && c in clients then [TimeoutReply(f, c)] else [];
      assert RepliesTo(g.replies, d) == RepliesTo(f.replies, d) + more;
      if t !in f.outcomes {
        assert more[0].timer == t;
      }
      HasReplyStays(RepliesTo(f.replies, d), more, t);
    }
  }

  lemma ExpireConserves(f: Fused, clients: set<Client>, c: Client)
    requires Conserved(f) && c in f.pending
    ensures Conserved(Expire(f, clients, c))
  {
  }

  lemma ExpireKeeps(f: Fused, clients: set<Client>, c: Client)
    requires OpenInv(f) && c in f.pending
    ensures OpenInv(Expire(f, clients, c))
  {
    var g := Expire(f, clients, c);
    ExpireConserves(f, clients, c);
    forall d
      ensures RepliesOk(g, d)
    {
      assert RepliesOk(f, d);
      ExpireReplies(f, clients, c, d);
    }
    ExpireAnswers(f, clients, c);
  }

  lemma TimeoutKeepsInv(f: Fused, clients: set<Client>, c: Client)
    requires Inv(f)
    ensures Inv(Timeout(f, clients, c))
  {
    if c in f.pending {
      InvIsOpenInv(f);
      ExpireKeeps(f, clients, c);
      StopIfIdleCloses(Expire(f, clients, c));
    }
  }
}
