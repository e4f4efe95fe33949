/**
 * The client/server protocol as a step relation: any number of calling threads, the sender thread, the
 * server and the receiver thread of one client, in every interleaving.
 */
module Protocol {
  import opened Basics
  import Server

  type ThreadId = nat
  const QUEUE_CAPACITY: nat := 10000

  /** A request as it travels: `key` is the id on the wire, `ticket` the value of the client's counter. */
  datatype Msg = Msg(key: u64, ticket: nat, req: Server.Request)

  /** A reply as it travels; only `msg.key` and `reply` are on the wire. */
  datatype Answer = Answer(msg: Msg, reply: Server.Reply)

  datatype Call = Call(ticket: nat, req: Server.Request)

  datatype Sender = Waiting | Permitted | Holding(msg: Msg)

  datatype State = State(
    nextTicket: nat,                  // curr_txn_id
    numbered: map<ThreadId, Call>,    // callers that have drawn an id
    registered: map<ThreadId, Call>,  // ... and entered it into the map
    unsignalled: set<ThreadId>,       // ... and pushed, but not yet posted the semaphore
    pending: map<u64, nat>,           // txn_map, from ids to futures
    queue: seq<Msg>,                  // send_queue
    permits: nat,                     // queue_semaphore
    sender: Sender,
    toServer: seq<Msg>,
    store: Server.State,
    serving: Option<Answer>,
    toClient: seq<Answer>,
    delivering: Option<Answer>,       // taken out of the map, results being written
    completed: seq<Answer>,           // futures completed, in order
    faulted: bool,                    // the receiver met an id that is not in the map
    log: seq<Msg>)                    // history: everything pushed, in order

  /** `const int txn_id = curr_txn_id++`, then widened to a `uint64_t` key. */
  function KeyOf(ticket: nat): u64 {
    var low := ticket % TWO32;
    if low < TWO31 then low else TWO64 - TWO32 + low
  }

  /** Two counter values share a key exactly when they agree in their low 32 bits, which the key sign-extends. */
  lemma KeyCollision(a: nat, b: nat)
    ensures KeyOf(a) == KeyOf(b) <==> a % TWO32 == b % TWO32
    ensures a != b && -TWO32 < a - b < TWO32 ==> KeyOf(a) != KeyOf(b)
    ensures KeyOf(a) % TWO32 == a % TWO32 && (KeyOf(a) < TWO31 || TWO64 - TWO31 <= KeyOf(a))
  {
  }

  // ---- The steps ----

  ghost predicate TakeId(s: State, t: State, i: ThreadId, req: Server.Request) {
    && i !in s.numbered && i !in s.registered && i !in s.unsignalled
    && t == s.(nextTicket := s.nextTicket + 1, numbered := s.numbered[i := Call(s.nextTicket, req)])
  }

  ghost predicate Register(s: State, t: State, i: ThreadId) {
    && i in s.numbered
    && var call := s.numbered[i];
       t == s.(numbered := s.numbered - {i}, registered := s.registered[i := call],
               pending := s.pending[KeyOf(call.ticket) := call.ticket])
  }

  ghost predicate Push(s: State, t: State, i: ThreadId) {
    && i in s.registered && |s.queue| < QUEUE_CAPACITY
    && var call := s.registered[i];
       var msg := Msg(KeyOf(call.ticket), call.ticket, call.req);
       t == s.(registered := s.registered - {i}, unsignalled := s.unsignalled + {i},
               queue := s.queue + [msg], log := s.log + [msg])
  }

  ghost predicate Signal(s: State, t: State, i: ThreadId) {
    && i in s.unsignalled
    && t == s.(unsignalled := s.unsignalled - {i}, permits := s.permits + 1)
  }

  ghost predicate CallerStepOf(s: State, t: State, i: ThreadId) {
    (exists req :: TakeId(s, t, i, req)) || Register(s, t, i) || Push(s, t, i) || Signal(s, t, i)
  }

  ghost predicate CallerStep(s: State, t: State) {
    exists i: ThreadId :: CallerStepOf(s, t, i)
  }

  ghost predicate SenderStep(s: State, t: State) {
    match s.sender
    case Waiting => s.permits > 0 && t == s.(permits := s.permits - 1, sender := Permitted)
    case Permitted =>
      t == if s.queue == [] then s.(sender := Waiting) else s.(queue := s.queue[1..], sender := Holding(s.queue[0]))
    case Holding(msg) => t == s.(sender := Waiting, toServer := s.toServer + [msg])
  }

  ghost predicate ServerStep(s: State, t: State) {
    match s.serving
    case None =>
      && s.toServer != []
      && var msg := s.toServer[0];
         t == s.(toServer := s.toServer[1..], store := Server.StateAfter(s.store, msg.req),
                 serving := Some(Answer(msg, Server.ReplyTo(s.store, msg.req))))
    case Some(answer) => t == s.(serving := None, toClient := s.toClient + [answer])
  }

  ghost predicate ReceiverStep(s: State, t: State) {
    match s.delivering
    case None =>
      && s.toClient != [] && !s.faulted
      && var key := s.toClient[0].msg.key;
         if key !in s.pending then t == s.(faulted := true)
         else t == s.(toClient := s.toClient[1..], pending := s.pending - {key},
                      delivering := Some(Answer(s.toClient[0].msg.(ticket := s.pending[key]), s.toClient[0].reply)))
    case Some(answer) => t == s.(delivering := None, completed := s.completed + [answer])
  }

  ghost predicate SystemStep(s: State, t: State) {
    SenderStep(s, t) || ServerStep(s, t) || ReceiverStep(s, t)
  }

  ghost predicate Next(s: State, t: State) {
    CallerStep(s, t) || SystemStep(s, t)
  }

  ghost predicate Initial(s: State) {
    s == State(0, map[], map[], {}, map[], [], 0, Waiting, [], s.store, None, [], None, [], false, [])
  }

  // ---- The invariant ----

  ghost function ListOf<T>(o: Option<T>): seq<T> {
    match o
    case None => []
    case Some(x) => [x]
  }

  ghost function Held(s: State): seq<Msg> {
    match s.sender
    case Holding(msg) => [msg]
    case _ => []
  }

  /** Requests on their way: sent, in the sender's hand, queued. */
  ghost function Inbound(s: State): seq<Msg> {
    s.toServer + Held(s) + s.queue
  }

  /** Answers in the order they were made: completed, being delivered, sent, in the server's hand. */
  ghost function Outbound(s: State): seq<Answer> {
    s.completed + ListOf(s.delivering) + s.toClient + ListOf(s.serving)
  }

  ghost function Requests(log: seq<Msg>): seq<Server.Request> {
    seq(|log|, i requires 0 <= i < |log| => log[i].req)
  }

  /** The answer the `i`-th pushed request must get: its result after all requests pushed before it. */
  ghost function AnswerAt(s0: Server.State, log: seq<Msg>, i: nat): Answer
    requires i < |log|
  {
    Answer(log[i], Server.ReplyTo(Server.Serve(s0, Requests(log[..i])), log[i].req))
  }

  /** The log is the requests answered and then those on their way, in order, and every answer is the one due. */
  ghost predicate Aligned(out: seq<Answer>, inbound: seq<Msg>, store: Server.State, log: seq<Msg>, s0: Server.State) {
    && |out| + |inbound| == |log|
    && inbound == log[|out|..]
    && (forall i :: 0 <= i < |out| ==> out[i] == AnswerAt(s0, log, i))
    && store == Server.Serve(s0, Requests(log[..|out|]))
  }

  /** Every pushed request is in exactly one place. */
  ghost predicate Pipeline(s: State, s0: Server.State) {
    Aligned(Outbound(s), Inbound(s), s.store, s.log, s0)
  }

  ghost predicate Open(s: State, ticket: nat) {
    || (exists i :: i in s.registered && s.registered[i].ticket == ticket)
    || (exists j :: |s.completed| + |ListOf(s.delivering)| <= j < |s.log| && s.log[j].ticket == ticket)
  }

  ghost predicate Outstanding(s: State, ticket: nat) {
    Open(s, ticket) || exists i :: i in s.numbered && s.numbered[i].ticket == ticket
  }

  /** A caller enters an id that a request under way already uses. */
  ghost predicate ClashOf(s: State, t: State, i: ThreadId, a: nat) {
    Register(s, t, i) && Open(s, a) && a % TWO32 == s.numbered[i].ticket % TWO32
  }

  ghost predicate Clash(s: State, t: State) {
    exists i: ThreadId, a: nat :: ClashOf(s, t, i, a)
  }

  /** Counter values are never shared. */
  ghost predicate Tickets(s: State) {
    && (forall j :: 0 <= j < |s.log| ==> s.log[j].ticket < s.nextTicket && s.log[j].key == KeyOf(s.log[j].ticket))
    && (forall i, j :: 0 <= i < j < |s.log| ==> s.log[i].ticket != s.log[j].ticket)
    && (forall i :: i in s.numbered ==> s.numbered[i].ticket < s.nextTicket)
    && (forall i :: i in s.registered ==> s.registered[i].ticket < s.nextTicket)
    && (forall i, j :: i in s.numbered && 0 <= j < |s.log| ==> s.numbered[i].ticket != s.log[j].ticket)
    && (forall i, j :: i in s.registered && 0 <= j < |s.log| ==> s.registered[i].ticket != s.log[j].ticket)
    && (forall i, j :: i in s.numbered && j in s.registered ==> s.numbered[i].ticket != s.registered[j].ticket)
    && (forall i, j :: i in s.numbered && j in s.numbered && i != j ==> s.numbered[i].ticket != s.numbered[j].ticket)
    && (forall i, j :: i in s.registered && j in s.registered && i != j ==>
          s.registered[i].ticket != s.registered[j].ticket)
  }

  /** The pending map holds exactly the ids registered, queued, in flight or being served. */
  ghost predicate PendingExact(s: State) {
    && (forall ticket: nat :: Open(s, ticket) ==> KeyOf(ticket) in s.pending && s.pending[KeyOf(ticket)] == ticket)
    && (forall key :: key in s.pending ==> Open(s, s.pending[key]) && KeyOf(s.pending[key]) == key)
  }

  /** A thread is in one stage of a call at a time. */
  ghost predicate Threads(s: State) {
    s.numbered.Keys !! s.registered.Keys !! s.unsignalled
  }

  /** Every queued message has its permit: on the semaphore, with the sender, or about to be posted. */
  ghost predicate Permits(s: State) {
    s.permits + (if s.sender.Permitted? then 1 else 0) + |s.unsignalled| == |s.queue|
  }

  ghost predicate Inv(s: State, s0: Server.State) {
    Pipeline(s, s0) && Tickets(s) && PendingExact(s) && Threads(s) && Permits(s) && !s.faulted
  }

  // ---- Every step keeps it ----

  lemma TakeIdKeeps(s: State, t: State, i: ThreadId, req: Server.Request, s0: Server.State)
    requires Inv(s, s0) && TakeId(s, t, i, req)
    ensures Inv(t, s0)
  {
    hide Pipeline, Tickets, PendingExact;
    PipelineKept(s, t, s0);
    TakeIdKeepsTickets(s, t, i, req);
    OpenKept(s, t);
    PendingKept(s, t);
  }

  lemma TakeIdKeepsTickets(s: State, t: State, i: ThreadId, req: Server.Request)
    requires Tickets(s) && TakeId(s, t, i, req)
    ensures Tickets(t)
  {
    hide KeyOf;
  }

  lemma OpenKept(s: State, t: State)
    requires t.log == s.log && t.registered == s.registered
    requires |t.completed| + |ListOf(t.delivering)| == |s.completed| + |ListOf(s.delivering)|
    ensures forall a: nat :: Open(t, a) <==> Open(s, a)
  {
  }

  lemma RegisterOpens(s: State, t: State, i: ThreadId, a: nat)
    requires Register(s, t, i)
    requires i !in s.registered
    ensures Open(t, a) <==> Open(s, a) || a == s.numbered[i].ticket
  {
    assert t.registered[i].ticket == s.numbered[i].ticket;
    if j :| j in s.registered && s.registered[j].ticket == a {
      assert t.registered[j].ticket == a;
    }
  }

  lemma RegisterKeepsTickets(s: State, t: State, i: ThreadId)
    requires Register(s, t, i) && Tickets(s)
    ensures Tickets(t)
  {
    hide KeyOf;
  }

  lemma RegisterKeepsPending(s: State, t: State, i: ThreadId)
    requires Register(s, t, i) && i !in s.registered && PendingExact(s) && !Clash(s, t)
    requires !Open(s, s.numbered[i].ticket)
    ensures PendingExact(t)
  {
    hide Open, KeyOf;
    var ticket := s.numbered[i].ticket;
    forall a: nat ensures Open(t, a) <==> Open(s, a) || a == ticket {
      RegisterOpens(s, t, i, a);
    }
    forall a: nat | Open(s, a) ensures KeyOf(a) != KeyOf(ticket) {
      KeyCollision(a, ticket);
      assert !ClashOf(s, t, i, a);
    }
  }

  lemma RegisterKeeps(s: State, t: State, i: ThreadId, s0: Server.State)
    requires Inv(s, s0) && Register(s, t, i) && !Clash(s, t)
    ensures Inv(t, s0)
  {
    hide PendingExact, Tickets, Clash, Pipeline, Open;
    NumberedIsNotOpen(s, i);
    RegisterKeepsPending(s, t, i);
    RegisterKeepsTickets(s, t, i);
    PipelineKept(s, t, s0);
  }

  lemma NumberedIsNotOpen(s: State, i: ThreadId)
    requires Tickets(s) && i in s.numbered
    ensures !Open(s, s.numbered[i].ticket)
  {
  }

  lemma PipelineKept(s: State, t: State, s0: Server.State)
    requires Pipeline(s, s0)
    requires t.toServer == s.toServer && t.sender == s.sender && t.queue == s.queue && t.log == s.log
    requires t.completed == s.completed && t.delivering == s.delivering && t.toClient == s.toClient
    requires t.serving == s.serving && t.store == s.store
    ensures Pipeline(t, s0)
  {
    assert Inbound(t) == Inbound(s) && Outbound(t) == Outbound(s);
  }

  lemma MatchedWithinOutbound(s: State)
    ensures |s.completed| + |ListOf(s.delivering)| <= |Outbound(s)|
  {
  }

  lemma MatchedWithinLog(s: State, s0: Server.State)
    requires Pipeline(s, s0)
    ensures |s.completed| + |ListOf(s.delivering)| <= |s.log|
  {
    MatchedWithinOutbound(s);
  }

  lemma AlignedPush(out: seq<Answer>, inbound: seq<Msg>, store: Server.State, log: seq<Msg>, s0: Server.State, m: Msg)
    requires Aligned(out, inbound, store, log, s0)
    ensures Aligned(out, inbound + [m], store, log + [m], s0)
  {
    assert (log + [m])[..|out|] == log[..|out|];
    forall i | 0 <= i < |out| ensures out[i] == AnswerAt(s0, log + [m], i) {
      assert (log + [m])[..i] == log[..i];
    }
  }

  lemma PushKeepsPipeline(s: State, t: State, i: ThreadId, s0: Server.State)
    requires Pipeline(s, s0) && Push(s, t, i)
    ensures Pipeline(t, s0)
  {
    hide Aligned, KeyOf;
    var m := t.queue[|s.queue|];
    AlignedPush(Outbound(s), Inbound(s), s.store, s.log, s0, m);
    assert Inbound(t) == Inbound(s) + [m];
  }

  lemma PushKeepsOpen(s: State, t: State, i: ThreadId, a: nat)
    requires Push(s, t, i) && |s.completed| + |ListOf(s.delivering)| <= |s.log|
    ensures Open(t, a) <==> Open(s, a)
  {
    hide KeyOf;
    var n := |s.log|;
    assert t.log[n].ticket == s.registered[i].ticket;
    if j :| j in s.registered && s.registered[j].ticket == a {
      assert j == i || (j in t.registered && t.registered[j].ticket == a);
    }
    if j :| |s.completed| + |ListOf(s.delivering)| <= j < |s.log| && s.log[j].ticket == a {
      assert t.log[j].ticket == a;
    }
  }

  lemma PushKeepsTickets(s: State, t: State, i: ThreadId)
    requires Push(s, t, i) && Tickets(s)
    ensures Tickets(t)
  {
    hide KeyOf;
  }

  lemma PendingKept(s: State, t: State)
    requires PendingExact(s) && t.pending == s.pending
    requires forall a: nat :: Open(t, a) <==> Open(s, a)
    ensures PendingExact(t)
  {
    hide Open, KeyOf;
  }

  lemma PushKeeps(s: State, t: State, i: ThreadId, s0: Server.State)
    requires Inv(s, s0) && Push(s, t, i)
    ensures Inv(t, s0)
  {
    hide Open, Tickets, PendingExact, Pipeline, KeyOf;
    MatchedWithinLog(s, s0);
    PushKeepsPipeline(s, t, i, s0);
    PushKeepsTickets(s, t, i);
    forall a: nat ensures Open(t, a) <==> Open(s, a) {
      PushKeepsOpen(s, t, i, a);
    }
    PendingKept(s, t);
  }

  lemma SignalKeeps(s: State, t: State, i: ThreadId, s0: Server.State)
    requires Inv(s, s0) && Signal(s, t, i)
    ensures Inv(t, s0)
  {
    hide Pipeline, Tickets, PendingExact;
    PipelineKept(s, t, s0);
    QuietKeeps(s, t);
  }

  /** A step that leaves the callers, the log and the map alone leaves these parts of the invariant alone. */
  lemma QuietKeeps(s: State, t: State)
    requires Tickets(s) && PendingExact(s)
    requires t.log == s.log && t.numbered == s.numbered && t.registered == s.registered && t.nextTicket == s.nextTicket
    requires t.pending == s.pending
    requires |t.completed| + |ListOf(t.delivering)| == |s.completed| + |ListOf(s.delivering)|
    ensures Tickets(t) && PendingExact(t)
  {
    hide Tickets, PendingExact, Open;
    TicketsKept(s, t);
    OpenKept(s, t);
    PendingKept(s, t);
  }

  /** A step that only moves messages along leaves the pipeline as it is. */
  lemma PipelineMoved(s: State, t: State, s0: Server.State)
    requires Pipeline(s, s0) && t.log == s.log && t.store == s.store
    requires Inbound(t) == Inbound(s) && Outbound(t) == Outbound(s)
    ensures Pipeline(t, s0)
  {
    hide Inbound, Outbound;
  }

  /** The sender only moves a message along the way to the server. */
  lemma SenderMoves(s: State, t: State)
    requires SenderStep(s, t)
    ensures Inbound(t) == Inbound(s)
  {
    match s.sender
    case Waiting =>
    case Permitted =>
      if s.queue != [] {
        assert s.queue == [s.queue[0]] + s.queue[1..];
      }
    case Holding(msg) =>
  }

  lemma SenderKeepsPipeline(s: State, t: State, s0: Server.State)
    requires Pipeline(s, s0) && SenderStep(s, t)
    ensures Pipeline(t, s0)
  {
    hide Pipeline, Inbound;
    SenderMoves(s, t);
    PipelineMoved(s, t, s0);
  }

  lemma SenderKeeps(s: State, t: State, s0: Server.State)
    requires Inv(s, s0) && SenderStep(s, t)
    ensures Inv(t, s0) && t.log == s.log && t.unsignalled == s.unsignalled
  {
    hide Tickets, PendingExact, Pipeline;
    SenderKeepsPipeline(s, t, s0);
    QuietKeeps(s, t);
  }

  lemma RequestsSnoc(log: seq<Msg>, k: nat)
    requires k < |log|
    ensures Requests(log[..k + 1]) == Requests(log[..k]) + [log[k].req]
  {
  }

  lemma ServeMoves(s: State, t: State)
    requires ServerStep(s, t) && s.serving.None?
    ensures Inbound(s) == [s.toServer[0]] + Inbound(t)
    ensures Outbound(t) == Outbound(s) + [Answer(s.toServer[0], Server.ReplyTo(s.store, s.toServer[0].req))]
  {
    assert s.toServer == [s.toServer[0]] + s.toServer[1..];
  }

  lemma StoreAdvances(s0: Server.State, log: seq<Msg>, k: nat)
    requires k < |log|
    ensures Server.Serve(s0, Requests(log[..k + 1]))
         == Server.StateAfter(Server.Serve(s0, Requests(log[..k])), log[k].req)
  {
    RequestsSnoc(log, k);
    assert Requests(log[..k + 1])[..k] == Requests(log[..k]);
  }

  lemma AlignedServe(out: seq<Answer>, inbound: seq<Msg>, store: Server.State, log: seq<Msg>, s0: Server.State)
    requires Aligned(out, inbound, store, log, s0) && inbound != []
    ensures var m := inbound[0];
      Aligned(out + [Answer(m, Server.ReplyTo(store, m.req))], inbound[1..], Server.StateAfter(store, m.req), log, s0)
  {
    hide Server.ReplyTo, Server.StateAfter, Server.Serve;
    var k := |out|;
    assert inbound[0] == log[k];
    StoreAdvances(s0, log, k);
    assert inbound[1..] == log[k + 1..];
  }

  lemma ServeKeepsPipeline(s: State, t: State, s0: Server.State)
    requires Pipeline(s, s0) && ServerStep(s, t) && s.serving.None?
    ensures Pipeline(t, s0)
  {
    hide Aligned, Inbound, Outbound;
    ServeMoves(s, t);
    AlignedServe(Outbound(s), Inbound(s), s.store, s.log, s0);
    assert Inbound(t) == Inbound(s)[1..];
  }

  lemma ServerKeepsPipeline(s: State, t: State, s0: Server.State)
    requires Pipeline(s, s0) && ServerStep(s, t)
    ensures Pipeline(t, s0)
  {
    hide Pipeline;
    if s.serving.None? {
      ServeKeepsPipeline(s, t, s0);
    } else {
      assert Outbound(t) == Outbound(s);
      PipelineMoved(s, t, s0);
    }
  }

  lemma ServerKeeps(s: State, t: State, s0: Server.State)
    requires Inv(s, s0) && ServerStep(s, t)
    ensures Inv(t, s0) && t.log == s.log && t.unsignalled == s.unsignalled
  {
    hide Tickets, PendingExact, Pipeline;
    ServerKeepsPipeline(s, t, s0);
    QuietKeeps(s, t);
  }

  /** The next reply belongs to the oldest unmatched request, and its id leads to that request's future. */
  lemma NextReply(s: State, s0: Server.State)
    requires Inv(s, s0) && s.delivering.None? && s.toClient != []
    ensures |s.completed| < |s.log| && s.toClient[0].msg == s.log[|s.completed|]
    ensures s.toClient[0].msg.key in s.pending
    ensures s.pending[s.toClient[0].msg.key] == s.log[|s.completed|].ticket
  {
    var k := |s.completed|;
    assert Outbound(s)[k] == s.toClient[0];
    assert Outbound(s)[k] == AnswerAt(s0, s.log, k);
    assert Open(s, s.log[k].ticket);
  }

  lemma MatchCloses(s: State, t: State, a: nat)
    requires ReceiverStep(s, t) && s.delivering.None? && t.delivering.Some?
    requires |s.completed| < |s.log| && Tickets(s)
    ensures Open(t, a) <==> Open(s, a) && a != s.log[|s.completed|].ticket
  {
    hide KeyOf;
  }

  lemma MatchKeeps(s: State, t: State, s0: Server.State)
    requires Inv(s, s0) && ReceiverStep(s, t) && s.delivering.None?
    ensures Inv(t, s0) && t.log == s.log && t.unsignalled == s.unsignalled
  {
    hide Open, Tickets, KeyOf;
    NextReply(s, s0);
    assert Inbound(t) == Inbound(s);
    assert Outbound(t) == Outbound(s);
    forall a: nat ensures Open(t, a) <==> Open(s, a) && a != s.log[|s.completed|].ticket {
      MatchCloses(s, t, a);
    }
    TicketsKept(s, t);
  }

  lemma TicketsKept(s: State, t: State)
    requires Tickets(s)
    requires t.log == s.log && t.numbered == s.numbered && t.registered == s.registered && t.nextTicket == s.nextTicket
    ensures Tickets(t)
  {
  }

  lemma ReceiverKeeps(s: State, t: State, s0: Server.State)
    requires Inv(s, s0) && ReceiverStep(s, t)
    ensures Inv(t, s0) && t.log == s.log && t.unsignalled == s.unsignalled
  {
    hide Tickets, PendingExact, Pipeline;
    if s.delivering.None? {
      MatchKeeps(s, t, s0);
    } else {
      assert Outbound(t) == Outbound(s);
      PipelineMoved(s, t, s0);
      QuietKeeps(s, t);
    }
  }

  // ---- Runs ----

  ghost predicate IsRun(run: seq<State>) {
    && run != [] && Initial(run[0])
    && (forall k :: 0 <= k < |run| - 1 ==> Next(run[k], run[k + 1]))
    && (forall k :: 0 <= k < |run| - 1 ==> !Clash(run[k], run[k + 1]))
  }

  lemma NextKeeps(s: State, t: State, s0: Server.State)
    requires Inv(s, s0) && Next(s, t) && !Clash(s, t)
    ensures Inv(t, s0)
  {
    hide Inv, Clash, TakeId, Register, Push, Signal, SenderStep, ServerStep, ReceiverStep;
    if CallerStep(s, t) {
      var i: ThreadId :| CallerStepOf(s, t, i);
      if req :| TakeId(s, t, i, req) {
        TakeIdKeeps(s, t, i, req, s0);
      } else if Register(s, t, i) {
        RegisterKeeps(s, t, i, s0);
      } else if Push(s, t, i) {
        PushKeeps(s, t, i, s0);
      } else {
        SignalKeeps(s, t, i, s0);
      }
    } else if SenderStep(s, t) {
      SenderKeeps(s, t, s0);
    } else if ServerStep(s, t) {
      ServerKeeps(s, t, s0);
    } else {
      ReceiverKeeps(s, t, s0);
    }
  }

  lemma InitialKeeps(s: State)
    requires Initial(s)
    ensures Inv(s, s.store)
  {
  }

  lemma {:induction false} RunKeeps(run: seq<State>)
    requires IsRun(run)
    ensures Inv(run[|run| - 1], run[0].store)
  {
    hide Inv, Initial, Next, Clash;
    var k := |run| - 1;
    if k == 0 {
      InitialKeeps(run[0]);
    } else {
      assert IsRun(run[..k]);
      RunKeeps(run[..k]);
      assert Next(run[k - 1], run[k - 1 + 1]) && !Clash(run[k - 1], run[k - 1 + 1]);
      NextKeeps(run[k - 1], run[k], run[0].store);
    }
  }

  /** The request with this ticket is queued, in flight or being served. */
  ghost predicate Travelling(s: State, ticket: nat) {
    || (exists m :: m in Inbound(s) && m.ticket == ticket)
    || (exists a :: a in s.toClient + ListOf(s.serving) && a.msg.ticket == ticket)
  }

  /**
   * Protocol safety. In every run in which no caller enters an id already under way: no reply carries an unknown
   * id; the pending map holds exactly the ids registered, queued, in flight or being served; futures
   * complete at most once each, in the order their requests were pushed, each with the result of its own
   * request after all requests pushed before it; and a queued message always has a permit.
   */
  lemma ProtocolSafety(run: seq<State>)
    requires IsRun(run)
    ensures var s := run[|run| - 1];
      && !s.faulted
      && (forall key :: key in s.pending <==>
            exists ticket: nat :: KeyOf(ticket) == key &&
              (Travelling(s, ticket) || exists i :: i in s.registered && s.registered[i].ticket == ticket))
      && |s.completed| <= |s.log|
      && (forall i :: 0 <= i < |s.completed| ==> s.completed[i] == AnswerAt(run[0].store, s.log, i))
      && (forall i, j :: 0 <= i < j < |s.completed| ==> s.completed[i].msg.ticket != s.completed[j].msg.ticket)
      && (s.queue != [] && s.unsignalled == {} ==> s.permits > 0 || s.sender.Permitted?)
  {
    RunKeeps(run);
    var s := run[|run| - 1];
    assert forall i :: 0 <= i < |s.completed| ==> s.completed[i] == Outbound(s)[i];
    forall key ensures key in s.pending <==>
            exists ticket: nat :: KeyOf(ticket) == key &&
              (Travelling(s, ticket) || exists i :: i in s.registered && s.registered[i].ticket == ticket) {
      PendingIsTravelling(s, run[0].store, key);
    }
  }

  lemma OpenIsTravelling(s: State, s0: Server.State, ticket: nat)
    requires Pipeline(s, s0)
    ensures Open(s, ticket) <==>
      Travelling(s, ticket) || exists i :: i in s.registered && s.registered[i].ticket == ticket
  {
    hide Inbound, Outbound;
    var b := |s.completed| + |ListOf(s.delivering)|;
    if j :| b <= j < |s.log| && s.log[j].ticket == ticket {
      PlaceOf(s, s0, j);
    }
    MatchedWithinLog(s, s0);
    MatchedWithinOutbound(s);
    if m :| m in Inbound(s) && m.ticket == ticket {
      var j :| 0 <= j < |Inbound(s)| && Inbound(s)[j] == m;
      assert s.log[|Outbound(s)| + j].ticket == ticket;
    }
    var out := s.toClient + ListOf(s.serving);
    if a :| a in out && a.msg.ticket == ticket {
      var j :| 0 <= j < |out| && out[j] == a;
      OutPlace(s, s0, j);
      assert s.log[b + j].ticket == ticket;
    }
  }

  lemma OutPlace(s: State, s0: Server.State, j: nat)
    requires Pipeline(s, s0) && j < |s.toClient + ListOf(s.serving)|
    ensures |s.completed| + |ListOf(s.delivering)| + j < |Outbound(s)| <= |s.log|
    ensures (s.toClient + ListOf(s.serving))[j].msg == s.log[|s.completed| + |ListOf(s.delivering)| + j]
  {
    var b := |s.completed| + |ListOf(s.delivering)|;
    assert Outbound(s) == (s.completed + ListOf(s.delivering)) + (s.toClient + ListOf(s.serving));
    assert Outbound(s)[b + j] == AnswerAt(s0, s.log, b + j);
  }

  lemma PlaceOf(s: State, s0: Server.State, j: nat)
    requires Pipeline(s, s0) && |s.completed| + |ListOf(s.delivering)| <= j < |s.log|
    ensures Travelling(s, s.log[j].ticket)
  {
    var k, b := |Outbound(s)|, |s.completed| + |ListOf(s.delivering)|;
    if j < k {
      OutPlace(s, s0, j - b);
      var a := (s.toClient + ListOf(s.serving))[j - b];
      assert a in s.toClient + ListOf(s.serving) && a.msg.ticket == s.log[j].ticket;
    } else {
      assert Inbound(s)[j - k] == s.log[j];
      assert s.log[j] in Inbound(s);
    }
  }

  lemma PendingIsTravelling(s: State, s0: Server.State, key: u64)
    requires Pipeline(s, s0) && PendingExact(s)
    ensures key in s.pending <==>
      exists ticket: nat :: KeyOf(ticket) == key &&
        (Travelling(s, ticket) || exists i :: i in s.registered && s.registered[i].ticket == ticket)
  {
    hide Open, Travelling, Pipeline, KeyOf;
    forall ticket: nat
      ensures Open(s, ticket) <==>
        Travelling(s, ticket) || exists i :: i in s.registered && s.registered[i].ticket == ticket
    {
      OpenIsTravelling(s, s0, ticket);
    }
  }

  // ---- Progress ----

  /** Work left for the sender, the server and the receiver. */
  ghost function Work(s: State): nat {
    8 * |s.queue| + s.permits + 5 * |Held(s)| + 4 * |s.toServer| + 3 * |ListOf(s.serving)|
    + 2 * |s.toClient| + |ListOf(s.delivering)|
  }

  /** Every step of the sender, the server or the receiver does some of it, so they cannot run for ever. */
  lemma WorkShrinks(s: State, t: State, s0: Server.State)
    requires Inv(s, s0) && SystemStep(s, t)
    ensures Work(t) < Work(s)
  {
    hide Pipeline, Tickets, PendingExact;
    if SenderStep(s, t) {
      SenderWorks(s, t);
    } else if ServerStep(s, t) {
      ServerWorks(s, t);
    } else if s.delivering.None? {
      NextReply(s, s0);
    }
  }

  lemma SenderWorks(s: State, t: State)
    requires SenderStep(s, t) && Permits(s)
    ensures Work(t) < Work(s)
  {
  }

  lemma ServerWorks(s: State, t: State)
    requires ServerStep(s, t)
    ensures Work(t) < Work(s)
  {
  }

  /** While a pushed request is incomplete and no caller is mid-call, one of the three can move. */
  lemma SomeStepEnabled(s: State, s0: Server.State) returns (t: State)
    requires Inv(s, s0) && s.unsignalled == {} && |s.completed| < |s.log|
    ensures SystemStep(s, t)
  {
    if s.delivering.Some? {
      t := s.(delivering := None, completed := s.completed + [s.delivering.value]);
    } else if s.serving.Some? {
      t := s.(serving := None, toClient := s.toClient + [s.serving.value]);
    } else if s.toServer != [] {
      var msg := s.toServer[0];
      t := s.(toServer := s.toServer[1..], store := Server.StateAfter(s.store, msg.req),
              serving := Some(Answer(msg, Server.ReplyTo(s.store, msg.req))));
    } else if s.toClient != [] {
      NextReply(s, s0);
      var key := s.toClient[0].msg.key;
      t := s.(toClient := s.toClient[1..], pending := s.pending - {key},
              delivering := Some(Answer(s.toClient[0].msg.(ticket := s.pending[key]), s.toClient[0].reply)));
    } else if s.sender.Holding? {
      t := s.(sender := Waiting, toServer := s.toServer + [s.sender.msg]);
    } else {
      assert s.queue == s.log[|s.completed|..];
      t := if s.sender.Permitted? then s.(queue := s.queue[1..], sender := Holding(s.queue[0]))
           else s.(permits := s.permits - 1, sender := Permitted);
    }
  }

  /** From every such state the three threads alone complete every future that was ever pushed. */
  lemma {:induction false} Drains(s: State, s0: Server.State) returns (run: seq<State>)
    requires Inv(s, s0) && s.unsignalled == {}
    ensures run != [] && run[0] == s
    ensures forall k :: 0 <= k < |run| - 1 ==> SystemStep(run[k], run[k + 1])
    ensures var last := run[|run| - 1]; last.log == s.log && |last.completed| == |s.log|
    decreases Work(s)
  {
    hide Inv, SystemStep, Work;
    CompletedWithinLog(s, s0);
    if |s.completed| == |s.log| {
      run := [s];
    } else {
      var t := SomeStepEnabled(s, s0);
      WorkShrinks(s, t, s0);
      SystemKeeps(s, t, s0);
      var rest := Drains(t, s0);
      run := [s] + rest;
    }
  }

  lemma CompletedWithinLog(s: State, s0: Server.State)
    requires Inv(s, s0)
    ensures |s.completed| <= |s.log|
  {
    hide Pipeline, Tickets, PendingExact;
    MatchedWithinLog(s, s0);
  }

  lemma SystemKeeps(s: State, t: State, s0: Server.State)
    requires Inv(s, s0) && SystemStep(s, t)
    ensures Inv(t, s0) && t.log == s.log && t.unsignalled == s.unsignalled
  {
    hide Inv, SenderStep, ServerStep, ReceiverStep;
    if SenderStep(s, t) {
      SenderKeeps(s, t, s0);
    } else if ServerStep(s, t) {
      ServerKeeps(s, t, s0);
    } else {
      ReceiverKeeps(s, t, s0);
    }
  }

  lemma SenderLeaves(s: State, t: State)
    requires SenderStep(s, t)
    ensures t.nextTicket == s.nextTicket && |t.queue| <= |s.queue|
  {
  }

  lemma ServerLeaves(s: State, t: State)
    requires ServerStep(s, t)
    ensures t.nextTicket == s.nextTicket && t.queue == s.queue
  {
    hide Server.StateAfter, Server.ReplyTo;
  }

  lemma ReceiverLeaves(s: State, t: State)
    requires ReceiverStep(s, t)
    ensures t.nextTicket == s.nextTicket && t.queue == s.queue
  {
  }

  lemma SystemLeaves(s: State, t: State)
    requires SystemStep(s, t)
    ensures t.nextTicket == s.nextTicket && |t.queue| <= |s.queue|
  {
    hide SenderStep, ServerStep, ReceiverStep;
    if SenderStep(s, t) {
      SenderLeaves(s, t);
    } else if ServerStep(s, t) {
      ServerLeaves(s, t);
    } else {
      ReceiverLeaves(s, t);
    }
  }

  lemma QueueEmptyWhenDone(s: State, s0: Server.State)
    requires Inv(s, s0) && |s.completed| >= |s.log|
    ensures s.queue == []
  {
    hide Tickets, PendingExact;
    MatchedWithinOutbound(s);
    assert |Inbound(s)| == 0;
  }

  /** Whoever is mid-call or waits for a reply, somebody can move: no state of a run is a deadlock. */
  lemma NeverDeadlocked(s: State, s0: Server.State) returns (t: State)
    requires Inv(s, s0)
    requires s.numbered != map[] || s.registered != map[] || s.unsignalled != {} || |s.completed| < |s.log|
    ensures Next(s, t) && t.nextTicket == s.nextTicket
  {
    hide Inv, KeyOf, SystemStep;
    if s.unsignalled != {} {
      var i :| i in s.unsignalled;
      t := s.(unsignalled := s.unsignalled - {i}, permits := s.permits + 1);
      assert CallerStepOf(s, t, i);
    } else if |s.completed| < |s.log| {
      t := SomeStepEnabled(s, s0);
      SystemLeaves(s, t);
    } else if s.numbered != map[] {
      var i :| i in s.numbered;
      var call := s.numbered[i];
      t := s.(numbered := s.numbered - {i}, registered := s.registered[i := call],
              pending := s.pending[KeyOf(call.ticket) := call.ticket]);
      assert CallerStepOf(s, t, i);
    } else {
      var i :| i in s.registered;
      var call := s.registered[i];
      var msg := Msg(KeyOf(call.ticket), call.ticket, call.req);
      t := s.(registered := s.registered - {i}, unsignalled := s.unsignalled + {i},
              queue := s.queue + [msg], log := s.log + [msg]);
      QueueEmptyWhenDone(s, s0);
      assert Push(s, t, i);
      assert CallerStepOf(s, t, i);
    }
  }

  lemma QueueStep(s: State, t: State)
    requires Next(s, t)
    ensures |t.queue| <= |s.queue| || |t.queue| <= 10000
  {
    hide KeyOf, Server.StateAfter, Server.ReplyTo, ReceiverStep, ServerStep, SenderStep;
    if CallerStep(s, t) {
      var i: ThreadId :| CallerStepOf(s, t, i);
    } else {
      SystemLeaves(s, t);
    }
  }

  lemma InitialQueue(s: State)
    requires Initial(s)
    ensures s.queue == []
  {
  }

  /** The send queue never holds more than its 10000 places. */
  lemma {:induction false} QueueBounded(run: seq<State>)
    requires run != [] && Initial(run[0]) && forall k :: 0 <= k < |run| - 1 ==> Next(run[k], run[k + 1])
    ensures |run[|run| - 1].queue| <= 10000
    decreases |run|
  {
    hide Initial, KeyOf, Server.StateAfter, Server.ReplyTo;
    var k := |run| - 1;
    if k == 0 {
      InitialQueue(run[0]);
    } else {
      QueueBounded(run[..k]);
      assert Next(run[k - 1], run[k - 1 + 1]);
      QueueStep(run[k - 1], run[k]);
    }
  }

  // ---- Which runs are safe ----

  /** A run of the system, whatever ids it uses. */
  ghost predicate IsExecution(run: seq<State>) {
    && run != [] && Initial(run[0])
    && (forall k :: 0 <= k < |run| - 1 ==> Next(run[k], run[k + 1]))
  }

  /** No two calls that have drawn their ids and are not done agree in the low 32 bits of their counters. */
  ghost predicate DistinctIds(s: State) {
    forall a: nat, b: nat :: Outstanding(s, a) && Outstanding(s, b) && a != b ==> a % TWO32 != b % TWO32
  }

  /** Ids outstanding at one time span fewer than 2^32 counter values. */
  ghost predicate NarrowSpan(s: State) {
    forall a: nat, b: nat :: Outstanding(s, a) && Outstanding(s, b) ==> a - b < TWO32
  }

  lemma NarrowIsDistinct(s: State)
    requires NarrowSpan(s)
    ensures DistinctIds(s)
  {
    hide Outstanding, KeyOf;
    forall a: nat, b: nat | Outstanding(s, a) && Outstanding(s, b) && a != b ensures a % TWO32 != b % TWO32 {
      KeyCollision(a, b);
    }
  }

  lemma DistinctNeverClashes(s: State, t: State)
    requires Tickets(s) && DistinctIds(s)
    ensures !Clash(s, t)
  {
    hide Open, Tickets;
    forall i: ThreadId, a: nat | Register(s, t, i) && Open(s, a) ensures a % TWO32 != s.numbered[i].ticket % TWO32 {
      NumberedIsNotOpen(s, i);
      assert Outstanding(s, a) && Outstanding(s, s.numbered[i].ticket);
    }
  }

  /** From a good state the next one is good exactly when the step is no clash. */
  lemma NextKeepsIff(s: State, t: State, s0: Server.State)
    requires Inv(s, s0) && Next(s, t)
    ensures Inv(t, s0) <==> !Clash(s, t)
  {
    hide Pipeline, Tickets, Open, KeyOf, Next, Register;
    if Clash(s, t) {
      var i: ThreadId, a: nat :| ClashOf(s, t, i, a);
      ClashBreaks(s, t, i, a);
    } else {
      NextKeeps(s, t, s0);
    }
  }

  lemma ClashBreaks(s: State, t: State, i: ThreadId, a: nat)
    requires Tickets(s) && Threads(s) && ClashOf(s, t, i, a)
    ensures !PendingExact(t)
  {
    hide Open, Tickets, KeyOf;
    NumberedIsNotOpen(s, i);
    RegisterOpens(s, t, i, a);
    KeyCollision(a, s.numbered[i].ticket);
    assert Open(t, a) && t.pending[KeyOf(a)] != a;
  }

  /** The invariant holds throughout a run exactly when no step of it is a clash. */
  lemma {:induction false} SafeIffNoClash(run: seq<State>)
    requires IsExecution(run)
    ensures (forall k :: 0 <= k < |run| ==> Inv(run[k], run[0].store)) <==> IsRun(run)
  {
    hide Inv, Next, Clash, Initial;
    if IsRun(run) {
      forall k | 0 <= k < |run| ensures Inv(run[k], run[0].store) {
        assert IsRun(run[..k + 1]);
        RunKeeps(run[..k + 1]);
      }
    } else {
      var k :| 0 <= k < |run| - 1 && Clash(run[k], run[k + 1]);
      assert Next(run[k], run[k + 1]);
      if Inv(run[k], run[0].store) {
        NextKeepsIff(run[k], run[k + 1], run[0].store);
      }
    }
  }

  /** Distinct ids throughout, and so a narrow span throughout, make a run safe. */
  lemma {:induction false} DistinctRunsAreSafe(run: seq<State>)
    requires IsExecution(run) && forall k :: 0 <= k < |run| ==> DistinctIds(run[k])
    ensures IsRun(run)
    decreases |run|
  {
    hide Inv, Next, Clash, Initial, DistinctIds;
    var k := |run| - 1;
    if k > 0 {
      var before := run[..k];
      DistinctRunsAreSafe(before);
      RunKeeps(before);
      InvTickets(before[k - 1], run[0].store);
      DistinctNeverClashes(run[k - 1], run[k]);
      forall j | 0 <= j < |run| - 1 ensures !Clash(run[j], run[j + 1]) {
        if j < k - 1 {
          assert !Clash(before[j], before[j + 1]);
        }
      }
    }
  }

  lemma InvTickets(s: State, s0: Server.State)
    requires Inv(s, s0)
    ensures Tickets(s)
  {
    hide Pipeline, PendingExact;
  }

  lemma NarrowRunsAreSafe(run: seq<State>)
    requires IsExecution(run) && forall k :: 0 <= k < |run| ==> NarrowSpan(run[k])
    ensures IsRun(run)
  {
    hide IsExecution, IsRun, NarrowSpan, DistinctIds;
    forall k | 0 <= k < |run| ensures DistinctIds(run[k]) {
      NarrowIsDistinct(run[k]);
    }
    DistinctRunsAreSafe(run);
  }
}
