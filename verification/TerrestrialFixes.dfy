/** Terrestrial (network) single fixes of the location daemon: all clients share one
    network location session, and the service needs the user's consent. */
module TerrestrialFixes {
  import opened FusedFixes

  datatype NetOp = NetStart | NetStop

  datatype GroundReply = NotSupported | GroundTimeout | GroundFix(l: Location)

  /** The value of mOptInTerrestrialService that stands for consent. */
  const OPTED_IN: int := 1

  /** pending: the clients in mTerrestrialFixTimeoutMap. replies and net are noted by an
      observer at the sockets and at the network location provider. */
  datatype Ground = Ground(
    optIn: int,
    pending: set<Client>,
    replies: map<Client, seq<GroundReply>>,
    net: seq<NetOp>)

  function NoGround(): Ground {
    Ground(-1, {}, map[], [])
  }

  function GroundRepliesTo(g: Ground, c: Client): seq<GroundReply> {
    if c in g.replies then g.replies[c] else []
  }

  /** The new logs of the receivers that are registered. */
  function SentReplies(g: Ground, clients: set<Client>, receivers: set<Client>, r: GroundReply)
    : map<Client, seq<GroundReply>>
  {
    map c | c in receivers * clients :: GroundRepliesTo(g, c) + [r]
  }

  /** Sends a reply to each of the receivers that is registered. */
  function Send(g: Ground, clients: set<Client>, receivers: set<Client>, r: GroundReply): Ground {
    g.(replies := g.replies + SentReplies(g, clients, receivers, r))
  }

  /** getSingleTerrestrialPos */
  function GetSingleTerrestrialPos(g: Ground, clients: set<Client>, c: Client): Ground {
    if g.optIn != OPTED_IN then Send(g, clients, {c}, NotSupported)
    else if g.pending == {} then g.(pending := {c}, net := g.net + [NetStart])
    else g.(pending := g.pending + {c})
  }

  function Remove(g: Ground, c: Client): Ground {
    if c !in g.pending then g
    else if g.pending == {c} then g.(pending := {}, net := g.net + [NetStop])
    else g.(pending := g.pending - {c})
  }

  /** gtpFixRequestTimeout */
  function GroundTimeoutOf(g: Ground, clients: set<Client>, c: Client): Ground {
    if c in g.pending then Remove(Send(g, clients, {c}, GroundTimeout), c) else g
  }

  /** onGtpWwanTrackingCallback */
  function OnGroundLocation(g: Ground, clients: set<Client>, l: Location): Ground {
    if g.pending != {} && l.hasLatLong && g.optIn == OPTED_IN
    then Send(g, clients, g.pending, GroundFix(l)).(pending := {}, net := g.net + [NetStop])
    else g
  }

  // --------------------------------------------------------------------- runs

  datatype GroundEvent =
    | Arrive(c: Client)
    | Gone(c: Client)
    | Consent(optIn: int)
    | AskGround(c: Client)
    | Expires(c: Client)
    | GroundReport(l: Location)

  /** Consent is taken as it comes and leaves pending requests alone. */
  function GroundStep(clients: set<Client>, g: Ground, e: GroundEvent): (r: (set<Client>, Ground)) {
    match e
    case Arrive(c) => (clients + {c}, g)
    case Gone(c) => (clients - {c}, if c in clients then Remove(g, c) else g)
    case Consent(optIn) => (clients, g.(optIn := optIn))
    case AskGround(c) => (clients, GetSingleTerrestrialPos(g, clients, c))
    case Expires(c) => (clients, GroundTimeoutOf(g, clients, c))
    case GroundReport(l) => (clients, OnGroundLocation(g, clients, l))
  }

  function GroundAfter(es: seq<GroundEvent>): (set<Client>, Ground) {
    if es == [] then ({}, NoGround())
    else
      var before := GroundAfter(es[..|es| - 1]);
      GroundStep(before.0, before.1, es[|es| - 1])
  }

  /** Starts and stops strictly alternate, beginning with a start. */
  predicate Alternates(net: seq<NetOp>) {
    forall i :: 0 <= i < |net| ==> (net[i] == NetStart <==> i % 2 == 0)
  }

  predicate Running(net: seq<NetOp>) {
    net != [] && net[|net| - 1] == NetStart
  }

  lemma GroundStepKeeps(clients: set<Client>, g: Ground, e: GroundEvent)
    requires Alternates(g.net) && (Running(g.net) <==> g.pending != {})
    ensures var g' := GroundStep(clients, g, e).1;
            Alternates(g'.net) && (Running(g'.net) <==> g'.pending != {})
  {
  }

  /** Over every run, with consent given and withdrawn at any time, startNetworkLocation
      and stopNetworkLocation strictly alternate, and network location runs exactly while
      some request is pending. */
  lemma {:induction false} NetworkRunsIffPending(es: seq<GroundEvent>)
    ensures var g := GroundAfter(es).1;
            Alternates(g.net) && (Running(g.net) <==> g.pending != {})
    decreases |es|
  {
    if es != [] {
      NetworkRunsIffPending(es[..|es| - 1]);
      var before := GroundAfter(es[..|es| - 1]);
      GroundStepKeeps(before.0, before.1, es[|es| - 1]);
    }
  }

  /** The consent after a run: the last that was given, -1 before any. */
  function ConsentAfter(es: seq<GroundEvent>): int {
    if es == [] then -1
    else if es[|es| - 1].Consent? then es[|es| - 1].optIn
    else ConsentAfter(es[..|es| - 1])
  }

  lemma {:induction false} ConsentIsLatest(es: seq<GroundEvent>)
    ensures GroundAfter(es).1.optIn == ConsentAfter(es)
    decreases |es|
  {
    if es != [] {
      ConsentIsLatest(es[..|es| - 1]);
    }
  }

  /** Whether an event ends the pending request of client c. */
  predicate EndsGround(clients: set<Client>, g: Ground, e: GroundEvent, c: Client) {
    || (e.GroundReport? && e.l.hasLatLong && g.optIn == 1)
    || e == Expires(c)
    || (e == Gone(c) && c in clients)
  }

  /** What client c is told when its pending request ends. */
  function LastWord(e: GroundEvent): seq<GroundReply> {
    match e
    case GroundReport(l) => [GroundFix(l)]
    case Expires(_) => [GroundTimeout]
    case _ => []
  }

  /** A pending request leaves only by a report while there is consent, by its timeout or
      with its client; only a request with consent becomes pending. A client that is
      registered is told so once, and gets nothing else but a refusal without consent. */
  lemma GroundStepExactly(clients: set<Client>, g: Ground, e: GroundEvent, c: Client)
    ensures var g' := GroundStep(clients, g, e).1;
            && (c in g'.pending <==>
                if c in g.pending then !EndsGround(clients, g, e, c) else e == AskGround(c) && g.optIn == 1)
            && GroundRepliesTo(g', c) == GroundRepliesTo(g, c) +
               if c !in clients then []
               else if c in g.pending && EndsGround(clients, g, e, c) then LastWord(e)
               else if e == AskGround(c) && g.optIn != 1 then [NotSupported]
               else []
  {
    GroundPending(clients, g, e, c);
    match e
    case GroundReport(l) => SendTo(g, clients, g.pending, GroundFix(l), c);
    case Expires(b) => SendTo(g, clients, {b}, GroundTimeout, c);
    case AskGround(b) => SendTo(g, clients, {b}, NotSupported, c);
    case _ =>
  }

  lemma GroundPending(clients: set<Client>, g: Ground, e: GroundEvent, c: Client)
    ensures c in GroundStep(clients, g, e).1.pending <==>
            if c in g.pending then !EndsGround(clients, g, e, c) else e == AskGround(c) && g.optIn == 1
  {
  }

  lemma SendTo(g: Ground, clients: set<Client>, receivers: set<Client>, r: GroundReply, c: Client)
    ensures GroundRepliesTo(Send(g, clients, receivers, r), c) ==
            GroundRepliesTo(g, c) + if c in receivers && c in clients then [r] else []
  {
  }
}
