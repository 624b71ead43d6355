/** Single-shot fixes over whole runs of the daemon: any order of registrations,
    requests, cancellations, position reports (also late ones, after the session was
    stopped), timer expiries and deletions. */
module FusedRuns {
  import opened Options
  import opened FusedFixes

  /** A timer that expires posts a message to the message task. The message carries only
      the client name; timer is noted to tell which timer sent it. */
  datatype TimerMessage = TimerMessage(c: Client, timer: nat)

  datatype Daemon = Daemon(clients: set<Client>, f: Fused, queue: seq<TimerMessage>)

  datatype Event =
    | Register(c: Client)
    | Delete(c: Client)
    | Ask(c: Client, qos: real, timeoutMsec: nat, created: bool, halId: nat)
    | Report(l: Location)
    | TimerFires(c: Client)
    | HandleTimer

  /** A timer lives as long as its request is pending. */
  predicate Enabled(d: Daemon, e: Event) {
    match e
    case TimerFires(c) => c in d.f.pending
    case HandleTimer => d.queue != []
    case _ => true
  }

  function Step(d: Daemon, e: Event): Daemon
    requires Enabled(d, e)
  {
    match e
    case Register(c) => d.(clients := d.clients + {c})
    case Delete(c) =>
      if c in d.clients then d.(clients := d.clients - {c}, f := DeleteClient(d.f, c)) else d
    case Ask(c, qos, timeoutMsec, created, halId) =>
      d.(f := GetSinglePos(d.f, c, qos, timeoutMsec, created, halId))
    case Report(l) => d.(f := OnLocation(d.f, d.clients, l))
    case TimerFires(c) => d.(queue := d.queue + [TimerMessage(c, d.f.pending[c].timer)])
    case HandleTimer => d.(queue := d.queue[1..], f := Timeout(d.f, d.clients, d.queue[0].c))
  }

  predicate Possible(es: seq<Event>)
    decreases |es|, 0
  {
    es == [] || (Possible(es[..|es| - 1]) && Enabled(After(es[..|es| - 1]), es[|es| - 1]))
  }

  function After(es: seq<Event>): Daemon
    requires Possible(es)
    decreases |es|, 1
  {
    if es == [] then Daemon({}, NoFixes(), []) else Step(After(es[..|es| - 1]), es[|es| - 1])
  }

  // --------------------------------------------------------------- invariant

  ghost predicate QueueOk(d: Daemon) {
    forall i :: 0 <= i < |d.queue| ==>
      d.queue[i].timer in d.f.asked && d.f.asked[d.queue[i].timer].c == d.queue[i].c
  }

  /** g has every request and every outcome that f has. */
  ghost predicate KeepsPast(f: Fused, g: Fused) {
    && (forall t :: t in f.asked ==> t in g.asked && g.asked[t] == f.asked[t])
    && (forall t :: t in f.outcomes ==> t in g.outcomes && g.outcomes[t] == f.outcomes[t])
  }

  lemma StopKeepsPast(f: Fused)
    ensures KeepsPast(f, StopIfIdle(f)) && SameRequests(f, StopIfIdle(f))
    ensures forall op :: op in StopIfIdle(f).hal ==> op in f.hal || op.Stopped?
  {
  }

  lemma LeaveKeepsPast(f: Fused, c: Client, how: Outcome)
    requires Conserved(f)
    ensures KeepsPast(f, Leave(f, c, how)) && Leave(f, c, how).hal == f.hal
    ensures Leave(f, c, how).asked == f.asked && Leave(f, c, how).nextTimer == f.nextTimer
  {
  }

  lemma AcceptKeepsPast(f: Fused, c: Client, qos: real, first: bool)
    requires f.nextTimer !in f.asked
    ensures KeepsPast(f, Accept(f, c, qos, first)) && Accept(f, c, qos, first).hal == f.hal
  {
  }

  lemma EnsureKeepsPast(f: Fused, halId: nat)
    ensures KeepsPast(f, Ensure(f, halId))
    ensures forall op :: op in Ensure(f, halId).hal ==> op in f.hal || op == Started(halId)
  {
  }

  lemma AskKeepsPast(f: Fused, c: Client, qos: real, timeoutMsec: nat, created: bool, halId: nat)
    requires Conserved(f)
    ensures KeepsPast(f, GetSinglePos(f, c, qos, timeoutMsec, created, halId))
    ensures Started(0) in GetSinglePos(f, c, qos, timeoutMsec, created, halId).hal ==>
              Started(0) in f.hal || halId == 0
  {
    var g := f.(apiCreated := true);
    if !f.apiCreated && !created {
    } else if AsksForFix(qos, timeoutMsec) {
      var left := Leave(g, c, Superseded);
      LeaveKeepsPast(g, c, Superseded);
      AcceptKeepsPast(left, c, qos, f.pending == map[]);
      EnsureKeepsPast(Accept(left, c, qos, f.pending == map[]), halId);
    } else {
      LeaveKeepsPast(g, c, Cancelled);
      StopKeepsPast(Leave(g, c, Cancelled));
    }
  }

  lemma ReportKeepsPast(f: Fused, clients: set<Client>, l: Location)
    requires Conserved(f)
    ensures KeepsPast(f, OnLocation(f, clients, l))
    ensures Started(0) in OnLocation(f, clients, l).hal ==> Started(0) in f.hal
  {
    var g := Heard(f, l);
    ServeOutcomes(g, clients, l, ServedBy(f, l));
    StopKeepsPast(Serve(g, clients, l, ServedBy(f, l)));
  }

  lemma TimeoutKeepsPast(f: Fused, clients: set<Client>, c: Client)
    requires Conserved(f)
    ensures KeepsPast(f, Timeout(f, clients, c))
    ensures Started(0) in Timeout(f, clients, c).hal ==> Started(0) in f.hal
  {
    if c in f.pending {
      StopKeepsPast(Expire(f, clients, c));
    }
  }

  lemma DeleteKeepsPast(f: Fused, c: Client)
    requires Conserved(f)
    ensures KeepsPast(f, DeleteClient(f, c))
    ensures Started(0) in DeleteClient(f, c).hal ==> Started(0) in f.hal
  {
    LeaveKeepsPast(f, c, ClientDeleted);
    StopKeepsPast(Leave(f, c, ClientDeleted));
  }

  /** A step only adds requests and outcomes, and only a request can start a session. */
  lemma StepKeepsPast(d: Daemon, e: Event)
    requires Conserved(d.f) && Enabled(d, e)
    ensures KeepsPast(d.f, Step(d, e).f)
    ensures Started(0) in Step(d, e).f.hal ==> Started(0) in d.f.hal || (e.Ask? && e.halId == 0)
  {
    match e
    case Ask(c, qos, timeoutMsec, created, halId) => AskKeepsPast(d.f, c, qos, timeoutMsec, created, halId);
    case Report(l) => ReportKeepsPast(d.f, d.clients, l);
    case HandleTimer => TimeoutKeepsPast(d.f, d.clients, d.queue[0].c);
    case Delete(c) => DeleteKeepsPast(d.f, c);
    case _ =>
  }

  lemma StepKeepsInv(d: Daemon, e: Event)
    requires Inv(d.f) && QueueOk(d) && Enabled(d, e)
    ensures Inv(Step(d, e).f) && QueueOk(Step(d, e))
  {
    StepKeepsPast(d, e);
    match e
    case Register(_) =>
    case Delete(c) => DeleteClientKeepsInv(d.f, c);
    case Ask(c, qos, timeoutMsec, created, halId) =>
      GetSinglePosKeepsInv(d.f, c, qos, timeoutMsec, created, halId);
    case Report(l) => OnLocationKeepsInv(d.f, d.clients, l);
    case TimerFires(_) =>
    case HandleTimer => TimeoutKeepsInv(d.f, d.clients, d.queue[0].c);
  }

  lemma {:induction false} AlwaysInv(es: seq<Event>)
    requires Possible(es)
    ensures Inv(After(es).f) && QueueOk(After(es))
    decreases |es|
  {
    if es == [] {
      NoFixesInv();
    } else {
      AlwaysInv(es[..|es| - 1]);
      StepKeepsInv(After(es[..|es| - 1]), es[|es| - 1]);
    }
  }

  // ------------------------------------------------------------------ theorems

  /** The HAL sees starts and stops that fit each other, at most one session is open, it is
      the one the service remembers, and it is open only while requests are pending. While
      requests are pending it is missing exactly when the last start failed. */
  lemma SessionLedger(es: seq<Event>)
    requires Possible(es)
    ensures var f := After(es).f;
            && Replay(f.hal) == Some(f.session)
            && (f.session != 0 ==> f.pending != map[])
            && (f.pending != map[] ==> (f.session == 0 <==> f.hal != [] && f.hal[|f.hal| - 1] == Started(0)))
  {
    AlwaysInv(es);
  }

  ghost predicate NoFailedStart(es: seq<Event>) {
    forall i :: 0 <= i < |es| && es[i].Ask? ==> es[i].halId != 0
  }

  lemma {:induction false} FailedStartsAreInTheRun(es: seq<Event>)
    requires Possible(es) && NoFailedStart(es)
    ensures Started(0) !in After(es).f.hal
    decreases |es|
  {
    if es != [] {
      FailedStartsAreInTheRun(es[..|es| - 1]);
      AlwaysInv(es[..|es| - 1]);
      StepKeepsPast(After(es[..|es| - 1]), es[|es| - 1]);
    }
  }

  /** When startTracking never fails, the session is open exactly while requests are
      pending. */
  lemma SessionIffPending(es: seq<Event>)
    requires Possible(es) && NoFailedStart(es)
    ensures After(es).f.session != 0 <==> After(es).f.pending != map[]
  {
    AlwaysInv(es);
    FailedStartsAreInTheRun(es);
  }

  /** Every accepted request is either still pending or has left, never both. */
  lemma RequestsAreConserved(es: seq<Event>, t: nat)
    requires Possible(es) && t < After(es).f.nextTimer
    ensures var f := After(es).f;
            t in f.asked
            && (t in f.outcomes <==> !(f.asked[t].c in f.pending && f.pending[f.asked[t].c].timer == t))
  {
    AlwaysInv(es);
  }

  /** A request that has left never leaves again, nor comes back. */
  lemma {:induction false} OutcomesAreFinal(es: seq<Event>, n: nat, t: nat)
    requires Possible(es) && n <= |es| && Possible(es[..n]) && t in After(es[..n]).f.outcomes
    ensures t in After(es).f.outcomes && After(es).f.outcomes[t] == After(es[..n]).f.outcomes[t]
    decreases |es|
  {
    if n < |es| {
      var before := es[..|es| - 1];
      assert before[..n] == es[..n];
      OutcomesAreFinal(before, n, t);
      AlwaysInv(before);
      StepKeepsPast(After(before), es[|es| - 1]);
    } else {
      assert es[..n] == es;
    }
  }

  // ------------------------------------------------- requests are the asks

  /** Some message before has made the service create its instance. */
  ghost predicate HasInstance(es: seq<Event>) {
    exists i :: 0 <= i < |es| && es[i].Ask? && es[i].created
  }

  /** Event n asks for a fix, and the service has an instance to serve it. */
  ghost predicate AskedAt(es: seq<Event>, n: nat) {
    && n < |es| && es[n].Ask?
    && es[n].qos != 0.0 && es[n].timeoutMsec != 0 && (es[n].created || HasInstance(es[..n]))
  }

  /** Event n makes request t. */
  ghost predicate MadeAt(es: seq<Event>, n: nat, t: nat) {
    AskedAt(es, n) && Possible(es[..n]) && After(es[..n]).f.nextTimer == t
  }

  /** What stays of the requests that were made. */
  ghost predicate SameAsked(f: Fused, g: Fused) {
    g.asked == f.asked && g.nextTimer == f.nextTimer && g.apiCreated == f.apiCreated
  }

  lemma StopKeepsAsked(f: Fused)
    ensures SameAsked(f, StopIfIdle(f))
  {
  }

  lemma AskMakes(f: Fused, c: Client, qos: real, timeoutMsec: nat, created: bool, halId: nat)
    ensures var g := GetSinglePos(f, c, qos, timeoutMsec, created, halId);
            && (g.apiCreated <==> f.apiCreated || created)
            && if qos != 0.0 && timeoutMsec != 0 && (f.apiCreated || created)
               then g.asked == f.asked[f.nextTimer := Asked(c, qos)] && g.nextTimer == f.nextTimer + 1
                    && g.pending == f.pending[c := Request(qos, f.nextTimer)]
               else g.asked == f.asked && g.nextTimer == f.nextTimer
  {
    var h := f.(apiCreated := true);
    if (f.apiCreated || created) && !(qos != 0.0 && timeoutMsec != 0) {
      StopKeepsAsked(Leave(h, c, Cancelled));
    } else if f.apiCreated || created {
      assert Leave(h, c, Superseded).pending == f.pending - {c};
      assert (f.pending - {c})[c := Request(qos, f.nextTimer)] == f.pending[c := Request(qos, f.nextTimer)];
    }
  }

  lemma OthersMakeNothing(d: Daemon, e: Event)
    requires Enabled(d, e) && !e.Ask?
    ensures SameAsked(d.f, Step(d, e).f)
  {
    match e
    case Delete(c) => StopKeepsAsked(Leave(d.f, c, ClientDeleted));
    case Report(l) => StopKeepsAsked(Serve(Heard(d.f, l), d.clients, l, ServedBy(d.f, l)));
    case HandleTimer =>
      if d.queue[0].c in d.f.pending {
        StopKeepsAsked(Expire(d.f, d.clients, d.queue[0].c));
      }
    case _ =>
  }

  lemma {:induction false} InstanceIs(es: seq<Event>)
    requires Possible(es)
    ensures After(es).f.apiCreated <==> HasInstance(es)
    decreases |es|
  {
    if es != [] {
      var m := |es| - 1;
      var d := After(es[..m]);
      InstanceIs(es[..m]);
      assert HasInstance(es) <==> HasInstance(es[..m]) || (es[m].Ask? && es[m].created);
      match es[m]
      case Ask(c, qos, timeoutMsec, created, halId) => AskMakes(d.f, c, qos, timeoutMsec, created, halId);
      case _ => OthersMakeNothing(d, es[m]);
    }
  }

  lemma {:induction false} PrefixPossible(es: seq<Event>, n: nat)
    requires Possible(es) && n <= |es|
    ensures Possible(es[..n])
    decreases |es|
  {
    if n < |es| {
      PrefixPossible(es[..|es| - 1], n);
      assert es[..|es| - 1][..n] == es[..n];
    } else {
      assert es[..n] == es;
    }
  }

  lemma StepMakes(d: Daemon, e: Event)
    requires Enabled(d, e)
    ensures var f, f' := d.f, Step(d, e).f;
            if e.Ask? && e.qos != 0.0 && e.timeoutMsec != 0 && (f.apiCreated || e.created)
            then f'.asked == f.asked[f.nextTimer := Asked(e.c, e.qos)] && f'.nextTimer == f.nextTimer + 1
                 && e.c in f'.pending && f'.pending[e.c] == Request(e.qos, f.nextTimer)
            else f'.asked == f.asked && f'.nextTimer == f.nextTimer
  {
    match e
    case Ask(c, qos, timeoutMsec, created, halId) => AskMakes(d.f, c, qos, timeoutMsec, created, halId);
    case _ => OthersMakeNothing(d, e);
  }

  /** A message that asks for a fix is accepted whenever there is an instance, under a timer
      of its own and with its own quality of service; no other message makes a request. */
  lemma AskIsAccepted(es: seq<Event>, n: nat)
    requires Possible(es) && n < |es|
    ensures Possible(es[..n]) && Possible(es[..n + 1])
    ensures var f, f', e := After(es[..n]).f, After(es[..n + 1]).f, es[n];
            if AskedAt(es, n)
            then
              && e.c in f'.pending && f'.pending[e.c] == Request(e.qos, f.nextTimer)
              && f.nextTimer !in f.asked && f'.asked == f.asked[f.nextTimer := Asked(e.c, e.qos)]
            else f'.asked == f.asked
  {
    PrefixPossible(es, n);
    PrefixPossible(es, n + 1);
    assert es[..n + 1][..n] == es[..n];
    AlwaysInv(es[..n]);
    InstanceIs(es[..n]);
    StepMakes(After(es[..n]), es[n]);
  }

  lemma MadeBefore(es: seq<Event>, m: nat, n: nat, t: nat)
    requires n < m <= |es|
    ensures MadeAt(es, n, t) <==> MadeAt(es[..m], n, t)
  {
    assert es[..m][..n] == es[..n];
  }

  /** Every request was made by one of the asks in the run, for its client and with its
      quality of service. */
  lemma {:induction false} RequestsAreTheAsks(es: seq<Event>, t: nat) returns (n: nat)
    requires Possible(es) && t in After(es).f.asked
    ensures MadeAt(es, n, t) && After(es).f.asked[t] == Asked(es[n].c, es[n].qos)
    decreases |es|
  {
    var m := |es| - 1;
    var d := After(es[..m]);
    InstanceIs(es[..m]);
    StepMakes(d, es[m]);
    if t in d.f.asked && !(AskedAt(es, m) && t == d.f.nextTimer) {
      n := RequestsAreTheAsks(es[..m], t);
      MadeBefore(es, m, n, t);
    } else {
      n := m;
    }
  }

  /** Each request is answered at most once, to its own client: the replies to a client
      answer different requests of that client, in the order of the requests. A success
      carries a location with a time, a position and an accuracy that meets the quality of
      service in the message that made the request; a timeout carries no location, or one
      that was received after the set of requests last became non-empty. */
  lemma RepliesAreRight(es: seq<Event>, c: Client, i: nat) returns (n: nat)
    requires Possible(es) && i < |RepliesTo(After(es).f.replies, c)|
    ensures var f := After(es).f; var r := RepliesTo(f.replies, c)[i]; var l := r.location;
            && MadeAt(es, n, r.timer) && es[n].c == c && r.timer in f.outcomes
            && (r.error == FixSuccess ==>
                  f.outcomes[r.timer] == Served
                  && l.timestamp != 0 && l.hasLatLong && l.hasAccuracy && l.accuracy < es[n].qos)
            && (r.error == FixTimeout ==>
                  f.outcomes[r.timer] == TimedOut && (r.location == NO_LOCATION || r.epoch < r.heardAt))
    ensures forall j :: i < j < |RepliesTo(After(es).f.replies, c)| ==>
              RepliesTo(After(es).f.replies, c)[i].timer < RepliesTo(After(es).f.replies, c)[j].timer
  {
    AlwaysInv(es);
    assert RepliesOk(After(es).f, c);
    assert ReplyOk(After(es).f, c, RepliesTo(After(es).f.replies, c)[i]);
    n := RequestsAreTheAsks(es, RepliesTo(After(es).f.replies, c)[i].timer);
  }

  /** What an event makes of the HAL's session: an accepted ask starts one with the id that
      the HAL gives, unless one is open; the last request to go stops it. */
  lemma SessionExactly(d: Daemon, e: Event)
    requires Inv(d.f) && Enabled(d, e)
    ensures var f, f' := d.f, Step(d, e).f;
            if e.Ask? && e.qos != 0.0 && e.timeoutMsec != 0 && (f.apiCreated || e.created) && f.session == 0
            then f'.session == e.halId && f'.hal == f.hal + [Started(e.halId)]
            else if f'.pending == map[] && f.session != 0
            then f'.session == 0 && f'.hal == f.hal + [Stopped(f.session)]
            else f'.session == f.session && f'.hal == f.hal
  {
    match e
    case Ask(c, qos, timeoutMsec, created, halId) =>
      AskMakes(d.f, c, qos, timeoutMsec, created, halId);
      AskSession(d.f, c, qos, timeoutMsec, created, halId);
    case Delete(c) => if c in d.clients { StopSession(Leave(d.f, c, ClientDeleted)); }
    case Report(l) => StopSession(Serve(Heard(d.f, l), d.clients, l, ServedBy(d.f, l)));
    case HandleTimer =>
      if d.queue[0].c in d.f.pending {
        StopSession(Expire(d.f, d.clients, d.queue[0].c));
      }
    case _ =>
  }

  /** The session and the ledger after the session was stopped, if it was. */
  ghost predicate StoppedIfIdle(f: Fused, g: Fused) {
    if g.pending == map[] && f.session != 0
    then g.session == 0 && g.hal == f.hal + [Stopped(f.session)]
    else g.session == f.session && g.hal == f.hal
  }

  lemma StopSession(f: Fused)
    requires f.session != 0 ==> f.apiCreated
    ensures StoppedIfIdle(f, StopIfIdle(f))
  {
  }

  lemma AskSession(f: Fused, c: Client, qos: real, timeoutMsec: nat, created: bool, halId: nat)
    requires f.session != 0 ==> f.apiCreated
    ensures var g := GetSinglePos(f, c, qos, timeoutMsec, created, halId);
            if !(f.apiCreated || created) then g == f
            else if qos != 0.0 && timeoutMsec != 0 then
              if f.session == 0 then g.session == halId && g.hal == f.hal + [Started(halId)]
              else g.session == f.session && g.hal == f.hal
            else StoppedIfIdle(f, g)
  {
    if (f.apiCreated || created) && !(qos != 0.0 && timeoutMsec != 0) {
      StopSession(Leave(f.(apiCreated := true), c, Cancelled));
    }
  }

  /** A request that was served or timed out while its client was registered was answered. */
  lemma EndedRequestsAreAnswered(es: seq<Event>, t: nat)
    requires Possible(es) && t in After(es).f.outcomes && t !in After(es).f.unheard
    requires After(es).f.outcomes[t] == Served || After(es).f.outcomes[t] == TimedOut
    ensures t in After(es).f.asked
    ensures exists r :: r in RepliesTo(After(es).f.replies, After(es).f.asked[t].c) && r.timer == t
  {
    AlwaysInv(es);
    var rs := RepliesTo(After(es).f.replies, After(es).f.asked[t].c);
    var i :| 0 <= i < |rs| && rs[i].timer == t;
    assert rs[i] in rs;
  }

  /** With no request pending no location is stored, even when reports still arrive. */
  lemma NoStaleLocation(es: seq<Event>)
    requires Possible(es)
    ensures var f := After(es).f;
            && (f.pending == map[] ==> f.lastLocation == NO_LOCATION)
            && (f.lastLocation != NO_LOCATION ==> f.epoch < f.lastAt)
  {
    AlwaysInv(es);
  }

  /** The replies that an event causes to client c. */
  function NewReplies(d: Daemon, e: Event, c: Client): seq<Reply>
    requires Enabled(d, e)
  {
    if c !in d.f.pending || c !in d.clients then []
    else
      match e
      case Report(l) =>
        if l.timestamp != 0 && l.hasLatLong && l.hasAccuracy && l.accuracy < d.f.pending[c].qos
        then [Reply(d.f.pending[c].timer, FixSuccess, l, d.f.heard + 1, d.f.epoch)] else []
      case HandleTimer =>
        if d.queue[0].c == c
        then [Reply(d.f.pending[c].timer, FixTimeout, d.f.lastLocation, d.f.lastAt, d.f.epoch)] else []
      case _ => []
  }

  /** What stays as it is between one state of a handler and another. */
  ghost predicate SameRest(f: Fused, g: Fused) {
    g.replies == f.replies && (g.pending != map[] ==> g.lastLocation == f.lastLocation)
  }

  lemma StopKeepsRest(f: Fused)
    ensures SameRest(f, StopIfIdle(f))
  {
  }

  lemma ReportReplies(f: Fused, clients: set<Client>, l: Location, c: Client)
    ensures RepliesTo(OnLocation(f, clients, l).replies, c) ==
            RepliesTo(f.replies, c) +
            if c in f.pending && c in clients && Usable(l) && l.accuracy < f.pending[c].qos
            then [Reply(f.pending[c].timer, FixSuccess, l, f.heard + 1, f.epoch)] else []
  {
    ServeLog(Heard(f, l), clients, l, ServedBy(f, l), c);
    StopKeepsRest(Serve(Heard(f, l), clients, l, ServedBy(f, l)));
  }

  lemma TimeoutReplies(f: Fused, clients: set<Client>, b: Client, c: Client)
    ensures RepliesTo(Timeout(f, clients, b).replies, c) ==
            RepliesTo(f.replies, c) + if b == c && c in f.pending && c in clients then [TimeoutReply(f, c)] else []
  {
    if b in f.pending {
      StopKeepsPast(Expire(f, clients, b));
    }
  }

  lemma AskKeepsRest(f: Fused, c: Client, qos: real, timeoutMsec: nat, created: bool, halId: nat)
    ensures SameRest(f, GetSinglePos(f, c, qos, timeoutMsec, created, halId))
  {
    if (f.apiCreated || created) && !AsksForFix(qos, timeoutMsec) {
      StopKeepsRest(Leave(f.(apiCreated := true), c, Cancelled));
    }
  }

  lemma DeleteKeepsRest(f: Fused, c: Client)
    ensures SameRest(f, DeleteClient(f, c))
  {
    StopKeepsRest(Leave(f, c, ClientDeleted));
  }

  lemma OthersKeepRest(d: Daemon, e: Event)
    requires Enabled(d, e) && !e.Report? && !e.HandleTimer?
    ensures SameRest(d.f, Step(d, e).f)
  {
    match e
    case Ask(c, qos, timeoutMsec, created, halId) => AskKeepsRest(d.f, c, qos, timeoutMsec, created, halId);
    case Delete(c) => DeleteKeepsRest(d.f, c);
    case _ =>
  }

  /** A client gets a success exactly for a report that meets the accuracy it asked for, with
      that location; a timeout exactly when a timer message names it while a request of its
      is pending, with the stored location; and nothing else. */
  lemma RepliesExactly(d: Daemon, e: Event, c: Client)
    requires Enabled(d, e)
    ensures RepliesTo(Step(d, e).f.replies, c) == RepliesTo(d.f.replies, c) + NewReplies(d, e, c)
  {
    match e
    case Report(l) => ReportReplies(d.f, d.clients, l, c);
    case HandleTimer => TimeoutReplies(d.f, d.clients, d.queue[0].c, c);
    case _ => OthersKeepRest(d, e);
  }

  /** The location of the last report since the set of requests last became non-empty. */
  ghost function LatestLocation(es: seq<Event>): Location
    requires Possible(es)
    decreases |es|
  {
    if es == [] || After(es).f.pending == map[] then NO_LOCATION
    else if es[|es| - 1].Report? then es[|es| - 1].l
    else LatestLocation(es[..|es| - 1])
  }

  lemma TimeoutLocation(f: Fused, clients: set<Client>, c: Client)
    requires Timeout(f, clients, c).pending != map[]
    ensures Timeout(f, clients, c).lastLocation == f.lastLocation
  {
    if c in f.pending {
      StopKeepsRest(Expire(f, clients, c));
    }
  }

  lemma ReportLocation(f: Fused, clients: set<Client>, l: Location)
    requires OnLocation(f, clients, l).pending != map[]
    ensures OnLocation(f, clients, l).lastLocation == l
  {
    StopKeepsRest(Serve(Heard(f, l), clients, l, ServedBy(f, l)));
  }

  lemma StepLocation(d: Daemon, e: Event)
    requires Enabled(d, e) && Step(d, e).f.pending != map[]
    ensures Step(d, e).f.lastLocation == if e.Report? then e.l else d.f.lastLocation
  {
    match e
    case Report(l) => ReportLocation(d.f, d.clients, l);
    case HandleTimer => TimeoutLocation(d.f, d.clients, d.queue[0].c);
    case _ => OthersKeepRest(d, e);
  }

  /** The stored location, which a timeout reply carries, is that one. */
  lemma {:induction false} StoredIsLatest(es: seq<Event>)
    requires Possible(es)
    ensures After(es).f.lastLocation == LatestLocation(es)
    decreases |es|
  {
    AlwaysInv(es);
    if es != [] {
      StoredIsLatest(es[..|es| - 1]);
      if After(es).f.pending != map[] {
        StepLocation(After(es[..|es| - 1]), es[|es| - 1]);
      }
    }
  }

  lemma TimeoutOutcomes(f: Fused, clients: set<Client>, c: Client)
    ensures Timeout(f, clients, c).outcomes ==
            if c in f.pending then f.outcomes[f.pending[c].timer := TimedOut] else f.outcomes
  {
    if c in f.pending {
      StopKeepsPast(Expire(f, clients, c));
    }
  }

  lemma AskOutcomes(f: Fused, c: Client, qos: real, timeoutMsec: nat, created: bool, halId: nat)
    requires f.apiCreated
    ensures GetSinglePos(f, c, qos, timeoutMsec, created, halId).outcomes ==
            if c in f.pending
            then f.outcomes[f.pending[c].timer := if AsksForFix(qos, timeoutMsec) then Superseded else Cancelled]
            else f.outcomes
  {
    if !AsksForFix(qos, timeoutMsec) {
      StopKeepsPast(Leave(f.(apiCreated := true), c, Cancelled));
    }
  }

  lemma DeleteOutcomes(f: Fused, c: Client)
    ensures DeleteClient(f, c).outcomes ==
            if c in f.pending then f.outcomes[f.pending[c].timer := ClientDeleted] else f.outcomes
  {
    StopKeepsPast(Leave(f, c, ClientDeleted));
  }

  /** How, if at all, an event ends the pending request of client c. */
  function Ends(d: Daemon, e: Event, c: Client): Option<Outcome>
    requires Enabled(d, e) && c in d.f.pending
  {
    match e
    case Ask(b, qos, timeoutMsec, _, _) =>
      if b != c then None else if qos != 0.0 && timeoutMsec != 0 then Some(Superseded) else Some(Cancelled)
    case Delete(b) => if b == c && c in d.clients then Some(ClientDeleted) else None
    case Report(l) =>
      if l.timestamp != 0 && l.hasLatLong && l.hasAccuracy && l.accuracy < d.f.pending[c].qos
      then Some(Served) else None
    case HandleTimer => if d.queue[0].c == c then Some(TimedOut) else None
    case _ => None
  }

  lemma TimersDistinct(f: Fused, b: Client, c: Client)
    requires Conserved(f) && b in f.pending && c in f.pending && b != c
    ensures f.pending[b].timer != f.pending[c].timer
  {
  }

  /** An event that takes client b out of the map leaves the request of c alone. */
  lemma OthersStay(f: Fused, g: Fused, b: Client, c: Client, how: Outcome)
    requires Conserved(f) && c in f.pending
    requires g.outcomes == if b in f.pending then f.outcomes[f.pending[b].timer := how] else f.outcomes
    ensures var t := f.pending[c].timer; t in g.outcomes <==> b == c
    ensures b == c ==> g.outcomes[f.pending[c].timer] == how
  {
    if b in f.pending && b != c {
      TimersDistinct(f, b, c);
    }
  }

  /** A pending request leaves in exactly the five ways: its client asks again, cancels or
      goes, a report meets its quality of service, or a timer message names its client. */
  lemma RequestLeavesExactly(d: Daemon, e: Event, c: Client)
    requires Inv(d.f) && Enabled(d, e) && c in d.f.pending
    ensures var t, f' := d.f.pending[c].timer, Step(d, e).f;
            && (t in f'.outcomes <==> Ends(d, e, c).Some?)
            && (t in f'.outcomes ==> f'.outcomes[t] == Ends(d, e, c).value)
  {
    var f' := Step(d, e).f;
    match e
    case Ask(b, qos, timeoutMsec, created, halId) =>
      AskOutcomes(d.f, b, qos, timeoutMsec, created, halId);
      OthersStay(d.f, f', b, c, if AsksForFix(qos, timeoutMsec) then Superseded else Cancelled);
    case Delete(b) =>
      DeleteOutcomes(d.f, b);
      if b in d.clients { OthersStay(d.f, f', b, c, ClientDeleted); }
    case Report(l) => ReportOutcome(d.f, d.clients, l, c);
    case HandleTimer =>
      TimeoutOutcomes(d.f, d.clients, d.queue[0].c);
      OthersStay(d.f, f', d.queue[0].c, c, TimedOut);
    case _ =>
  }

  lemma ReportOutcome(f: Fused, clients: set<Client>, l: Location, c: Client)
    requires Conserved(f) && c in f.pending
    ensures var t, f' := f.pending[c].timer, OnLocation(f, clients, l);
            && (t in f'.outcomes <==> Usable(l) && l.accuracy < f.pending[c].qos)
            && (t in f'.outcomes ==> f'.outcomes[t] == Served)
  {
    var g := Heard(f, l);
    assert Conserved(g);
    ServeOutcomes(g, clients, l, ServedBy(f, l));
    StopKeepsPast(Serve(g, clients, l, ServedBy(f, l)));
  }

  /** A timer message ends a request other than the one whose timer sent it exactly when
      that one has already left and its client has asked again. */
  lemma StaleTimerMessage(es: seq<Event>)
    requires Possible(es) && After(es).queue != []
    ensures var d := After(es); var msg := d.queue[0]; var f' := Step(d, HandleTimer).f;
            (exists t :: t in f'.outcomes && t !in d.f.outcomes && t != msg.timer)
            <==> msg.c in d.f.pending && msg.timer in d.f.outcomes
  {
    AlwaysInv(es);
    var d := After(es);
    var msg := d.queue[0];
    TimeoutOutcomes(d.f, d.clients, msg.c);
    assert Conserved(d.f) && QueueOk(d);
    if msg.c in d.f.pending {
      var t := d.f.pending[msg.c].timer;
      assert t !in d.f.outcomes && t in Step(d, HandleTimer).f.outcomes;
    }
  }

  lemma Extend(es: seq<Event>, e: Event)
    requires Possible(es) && Enabled(After(es), e)
    ensures Possible(es + [e]) && After(es + [e]) == Step(After(es), e)
  {
    assert (es + [e])[..|es + [e]| - 1] == es;
  }

  /** Such a run: the client asks again while the message of its first timer is under way,
      and the second request times out although its own timer never fired. */
  lemma StaleTimerRun(c: Client, qos: real, halId: nat) returns (es: seq<Event>)
    requires qos != 0.0 && halId != 0
    ensures Possible(es) && |es| == 4 && es[2].Ask? && es[3] == HandleTimer
    ensures 1 in After(es).f.outcomes && After(es).f.outcomes[1] == TimedOut
    ensures forall i :: 2 <= i < |es| ==> !es[i].TimerFires?
  {
    var ask := Ask(c, qos, 1000, true, halId);
    assert Possible([]) && After([]) == Daemon({}, NoFixes(), []);
    Extend([], ask);
    var e1 := [] + [ask];
    assert c in After(e1).f.pending && After(e1).f.pending[c].timer == 0;
    Extend(e1, TimerFires(c));
    var e2 := e1 + [TimerFires(c)];
    Extend(e2, ask);
    var e3 := e2 + [ask];
    assert After(e3).f.pending[c].timer == 1 && After(e3).queue[0].c == c;
    Extend(e3, HandleTimer);
    es := e3 + [HandleTimer];
  }
}
