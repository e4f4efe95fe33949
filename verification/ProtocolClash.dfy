/** What a clash of transaction ids does, and how one comes about. */
module ProtocolClash {
  import opened Basics
  import opened Protocol
  import Server

  // ---- A future that is lost ----

  /** The future with this ticket is not complete and no reply can lead to it. */
  ghost predicate Lost(s: State, a: nat) {
    && a < s.nextTicket
    && (forall i :: i in s.numbered ==> s.numbered[i].ticket != a)
    && (forall key :: key in s.pending ==> s.pending[key] != a)
    && (s.delivering.Some? ==> s.delivering.value.msg.ticket != a)
    && (forall j :: 0 <= j < |s.completed| ==> s.completed[j].msg.ticket != a)
  }

  lemma CallerKeepsLost(s: State, t: State, i: ThreadId, a: nat)
    requires Lost(s, a) && CallerStepOf(s, t, i)
    ensures Lost(t, a)
  {
    hide KeyOf;
    if req :| TakeId(s, t, i, req) {
    } else if Register(s, t, i) {
    } else if Push(s, t, i) {
    }
  }

  lemma ReceiverKeepsLost(s: State, t: State, a: nat)
    requires Lost(s, a) && ReceiverStep(s, t)
    ensures Lost(t, a)
  {
  }

  /** The client's side of futures is as it was. */
  ghost predicate SameFutures(s: State, t: State) {
    && t.nextTicket == s.nextTicket && t.numbered == s.numbered && t.pending == s.pending
    && t.delivering == s.delivering && t.completed == s.completed
  }

  lemma SameKeepsLost(s: State, t: State, a: nat)
    requires Lost(s, a) && SameFutures(s, t)
    ensures Lost(t, a)
  {
  }

  lemma SenderFrame(s: State, t: State)
    requires SenderStep(s, t)
    ensures SameFutures(s, t)
  {
  }

  lemma ServerFrame(s: State, t: State)
    requires ServerStep(s, t)
    ensures SameFutures(s, t)
  {
  }

  lemma SystemKeepsLost(s: State, t: State, a: nat)
    requires Lost(s, a) && SystemStep(s, t)
    ensures Lost(t, a)
  {
    hide Lost, SenderStep, ServerStep, ReceiverStep, SameFutures;
    if SenderStep(s, t) {
      SenderFrame(s, t);
      SameKeepsLost(s, t, a);
    } else if ServerStep(s, t) {
      ServerFrame(s, t);
      SameKeepsLost(s, t, a);
    } else {
      ReceiverKeepsLost(s, t, a);
    }
  }

  /** In every continuation the future stays lost: it never completes. */
  lemma {:induction false} LostForever(run: seq<State>, a: nat)
    requires run != [] && Lost(run[0], a) && forall k :: 0 <= k < |run| - 1 ==> Next(run[k], run[k + 1])
    ensures Lost(run[|run| - 1], a)
    decreases |run|
  {
    hide Lost, SystemStep, CallerStepOf;
    var k := |run| - 1;
    if k > 0 {
      LostForever(run[..k], a);
      var s, t := run[k - 1], run[k];
      assert Next(s, run[k - 1 + 1]);
      if SystemStep(s, t) {
        SystemKeepsLost(s, t, a);
      } else {
        var i: ThreadId :| CallerStepOf(s, t, i);
        CallerKeepsLost(s, t, i, a);
      }
    }
  }

  lemma OpenIsNotDone(s: State, s0: Server.State, a: nat)
    requires Inv(s, s0) && Open(s, a)
    ensures s.delivering.Some? ==> s.delivering.value.msg.ticket != a
    ensures forall j :: 0 <= j < |s.completed| ==> s.completed[j].msg.ticket != a
    ensures a < s.nextTicket && forall i :: i in s.numbered ==> s.numbered[i].ticket != a
  {
    hide PendingExact, KeyOf;
    MatchedWithinLog(s, s0);
    var done := s.completed + ListOf(s.delivering);
    forall j | 0 <= j < |done| ensures done[j].msg == s.log[j] {
      assert done[j] == Outbound(s)[j];
    }
    assert forall j :: 0 <= j < |s.completed| ==> s.completed[j] == done[j];
    assert s.delivering.Some? ==> s.delivering.value == done[|s.completed|];
  }

  /**
   * From a good state, entering an id loses the future of a request under way exactly when their counters agree
   * in the low 32 bits.
   */
  lemma RegisterLosesIff(s: State, t: State, i: ThreadId, s0: Server.State, a: nat)
    requires Inv(s, s0) && Register(s, t, i) && Open(s, a)
    ensures Lost(t, a) <==> a % TWO32 == s.numbered[i].ticket % TWO32
  {
    hide Open, KeyOf, Pipeline, Tickets;
    OpenIsNotDone(s, s0, a);
    KeyCollision(a, s.numbered[i].ticket);
    assert KeyOf(a) in s.pending && s.pending[KeyOf(a)] == a;
    forall key | key in s.pending && s.pending[key] == a ensures key == KeyOf(a) {
      assert KeyOf(s.pending[key]) == key;
    }
    if KeyOf(a) != KeyOf(s.numbered[i].ticket) {
      assert t.pending[KeyOf(a)] == a;
    }
  }

  // ---- Reaching a clash ----

  ghost predicate Path(run: seq<State>, s: State, t: State) {
    && run != [] && run[0] == s && run[|run| - 1] == t
    && forall k :: 0 <= k < |run| - 1 ==> Next(run[k], run[k + 1])
  }

  ghost predicate Leads(s: State, t: State) {
    exists run :: Path(run, s, t)
  }

  lemma StepLeads(s: State, t: State)
    requires Next(s, t)
    ensures Leads(s, t)
  {
    assert Path([s, t], s, t);
  }

  lemma ThenLeads(s: State, t: State, u: State)
    requires Leads(s, t) && Leads(t, u)
    ensures Leads(s, u)
  {
    hide Next;
    var p :| Path(p, s, t);
    var q :| Path(q, t, u);
    var run := p + q[1..];
    forall k | 0 <= k < |run| - 1 ensures Next(run[k], run[k + 1]) {
      if k < |p| - 1 {
        assert Next(p[k], p[k + 1]);
      } else {
        assert run[k] == q[k - |p| + 1] && run[k + 1] == q[k - |p| + 1 + 1];
      }
    }
    assert Path(run, s, u);
  }

  lemma ThenStep(s: State, t: State, u: State)
    requires Leads(s, t) && Next(t, u)
    ensures Leads(s, u)
  {
    StepLeads(t, u);
    ThenLeads(s, t, u);
  }

  lemma ByCaller(s: State, t: State, i: ThreadId)
    requires CallerStepOf(s, t, i)
    ensures Next(s, t)
  {
  }

  /** Nothing is on its way. */
  ghost predicate Idle(s: State) {
    && s.queue == [] && s.permits == 0 && s.sender.Waiting? && s.toServer == [] && s.serving.None?
    && s.toClient == [] && s.delivering.None? && s.unsignalled == {} && !s.faulted
  }

  function MsgOf(call: Call): Msg {
    Msg(KeyOf(call.ticket), call.ticket, call.req)
  }

  /** The request of thread `i` has been pushed, sent, served and answered; its reply is the next to be received. */
  ghost function Arrived(s: State, i: ThreadId): State
    requires i in s.registered
  {
    var m := MsgOf(s.registered[i]);
    s.(registered := s.registered - {i}, store := Server.StateAfter(s.store, m.req),
       toClient := [Answer(m, Server.ReplyTo(s.store, m.req))], log := s.log + [m])
  }

  lemma Pushes(s: State, i: ThreadId)
    requires Idle(s) && i in s.registered
    ensures var m := MsgOf(s.registered[i]);
      Leads(s, s.(registered := s.registered - {i}, queue := [m], permits := 1, log := s.log + [m]))
  {
    var m := MsgOf(s.registered[i]);
    var s1 := s.(registered := s.registered - {i}, unsignalled := {i}, queue := [m], log := s.log + [m]);
    assert s.queue + [m] == [m] && s.unsignalled + {i} == {i};
    assert Push(s, s1, i);
    ByCaller(s, s1, i);
    StepLeads(s, s1);
    var s2 := s1.(unsignalled := {}, permits := 1);
    assert s1.unsignalled - {i} == {};
    assert Signal(s1, s2, i);
    ByCaller(s1, s2, i);
    ThenStep(s, s1, s2);
    assert s2 == s.(registered := s.registered - {i}, queue := [m], permits := 1, log := s.log + [m]);
  }

  /** The sender takes the one queued message and sends it. */
  lemma Sends(s: State, m: Msg)
    requires s.queue == [m] && s.permits == 1 && s.sender.Waiting? && s.toServer == []
    ensures Leads(s, s.(queue := [], permits := 0, toServer := [m]))
  {
    var s1 := s.(permits := 0, sender := Permitted);
    var s2 := s1.(queue := [], sender := Holding(m));
    var s3 := s2.(sender := Waiting, toServer := [m]);
    assert s1.queue[1..] == [] && s2.toServer + [m] == [m];
    assert SenderStep(s, s1) && SenderStep(s1, s2) && SenderStep(s2, s3);
    StepLeads(s, s1);
    ThenStep(s, s1, s2);
    ThenStep(s, s2, s3);
  }

  /** The server serves the one request on the wire and replies. */
  lemma Serves(s: State, m: Msg)
    requires s.toServer == [m] && s.serving.None? && s.toClient == []
    ensures var a := Answer(m, Server.ReplyTo(s.store, m.req));
      Leads(s, s.(toServer := [], store := Server.StateAfter(s.store, m.req), toClient := [a]))
  {
    hide Server.StateAfter, Server.ReplyTo;
    var a := Answer(m, Server.ReplyTo(s.store, m.req));
    var s1 := s.(toServer := [], store := Server.StateAfter(s.store, m.req), serving := Some(a));
    var s2 := s1.(serving := None, toClient := [a]);
    assert s.toServer[1..] == [] && s1.toClient + [a] == [a];
    assert ServerStep(s, s1) && ServerStep(s1, s2);
    StepLeads(s, s1);
    ThenStep(s, s1, s2);
  }

  lemma Travels(s: State, i: ThreadId)
    requires Idle(s) && i in s.registered
    ensures Leads(s, Arrived(s, i))
  {
    hide Leads, Server.StateAfter, Server.ReplyTo, KeyOf;
    var m := MsgOf(s.registered[i]);
    Pushes(s, i);
    var s1 := s.(registered := s.registered - {i}, queue := [m], permits := 1, log := s.log + [m]);
    Sends(s1, m);
    var s2 := s1.(queue := [], permits := 0, toServer := [m]);
    ThenLeads(s, s1, s2);
    Serves(s2, m);
    var s3 := s2.(toServer := [], store := Server.StateAfter(s2.store, m.req),
                  toClient := [Answer(m, Server.ReplyTo(s2.store, m.req))]);
    ThenLeads(s, s2, s3);
    assert s3 == Arrived(s, i);
  }

  /** The receiver takes the one reply to the future its id leads to, and completes that future. */
  lemma Completes(s: State, a: Answer)
    requires s.toClient == [a] && s.delivering.None? && !s.faulted && a.msg.key in s.pending
    ensures var found := Answer(a.msg.(ticket := s.pending[a.msg.key]), a.reply);
      Leads(s, s.(toClient := [], pending := s.pending - {a.msg.key}, completed := s.completed + [found]))
  {
    var found := Answer(a.msg.(ticket := s.pending[a.msg.key]), a.reply);
    var s1 := s.(toClient := [], pending := s.pending - {a.msg.key}, delivering := Some(found));
    var s2 := s1.(delivering := None, completed := s.completed + [found]);
    assert s.toClient[1..] == [];
    assert ReceiverStep(s, s1) && ReceiverStep(s1, s2);
    StepLeads(s, s1);
    ThenStep(s, s1, s2);
  }

  const STALLED: Server.Request := Server.Read(0)
  const OTHER: Server.Request := Server.Read(1)

  /** Thread 0 has entered id 0 and stands still; the counter is at `n` and all other calls are done. */
  ghost function Stalled(n: nat, store: Server.State, done: seq<Answer>, log: seq<Msg>): State {
    State(n, map[], map[0 := Call(0, STALLED)], {}, map[0 := 0],
          [], 0, Waiting, [], store, None, [], None, done, false, log)
  }

  /** Thread 1 draws the next id and enters it. */
  ghost function Entered(s: State, req: Server.Request): State {
    s.(nextTicket := s.nextTicket + 1, registered := s.registered[1 := Call(s.nextTicket, req)],
       pending := s.pending[KeyOf(s.nextTicket) := s.nextTicket])
  }

  lemma Enters(s: State, req: Server.Request) returns (mid: State)
    requires s.numbered == map[] && 1 !in s.registered && s.unsignalled == {}
    ensures Leads(s, mid) && Register(mid, Entered(s, req), 1) && mid.numbered[1].ticket == s.nextTicket
    ensures mid == s.(nextTicket := s.nextTicket + 1, numbered := map[1 := Call(s.nextTicket, req)])
    ensures Leads(s, Entered(s, req))
  {
    hide KeyOf;
    mid := s.(nextTicket := s.nextTicket + 1, numbered := map[1 := Call(s.nextTicket, req)]);
    assert TakeId(s, mid, 1, req);
    ByCaller(s, mid, 1);
    StepLeads(s, mid);
    assert mid.numbered - {1} == map[];
    assert Register(mid, Entered(s, req), 1);
    ByCaller(mid, Entered(s, req), 1);
    ThenStep(s, mid, Entered(s, req));
  }

  lemma OwnKey(n: nat)
    requires 0 < n < TWO32
    ensures KeyOf(n) != 0
  {
  }

  /** One more call by thread 1, from drawing its id to the completion of its future. */
  lemma OneCall(n: nat, store: Server.State, done: seq<Answer>, log: seq<Msg>) returns (more: Answer, m: Msg)
    requires 0 < n < TWO32
    ensures Leads(Stalled(n, store, done, log), Stalled(n + 1, store, done + [more], log + [m]))
  {
    hide Leads, KeyOf, Server.ReplyTo;
    var s := Stalled(n, store, done, log);
    var _ := Enters(s, OTHER);
    var s1 := Entered(s, OTHER);
    Travels(s1, 1);
    var s2 := Arrived(s1, 1);
    ThenLeads(s, s1, s2);
    m := MsgOf(Call(n, OTHER));
    OwnKey(n);
    var a := s2.toClient[0];
    Completes(s2, a);
    more := Answer(a.msg.(ticket := s2.pending[a.msg.key]), a.reply);
    var s3 := s2.(toClient := [], pending := s2.pending - {a.msg.key}, completed := s2.completed + [more]);
    ThenLeads(s, s2, s3);
    assert s3.pending == map[0 := 0] && s3.registered == map[0 := Call(0, STALLED)];
    assert s3 == Stalled(n + 1, store, done + [more], log + [m]);
  }

  lemma StaysPut(s: State)
    ensures Leads(s, s)
  {
    assert Path([s], s, s);
  }

  /** Thread 1 goes on calling until the counter has run through all ids. */
  lemma {:induction false} ManyCalls(n: nat, store: Server.State, done: seq<Answer>, log: seq<Msg>)
      returns (allDone: seq<Answer>, all: seq<Msg>)
    requires 0 < n <= TWO32 && |done| == |log|
    ensures Leads(Stalled(n, store, done, log), Stalled(TWO32, store, allDone, all)) && |allDone| == |all|
    decreases TWO32 - n
  {
    hide Leads;
    if n == TWO32 {
      allDone, all := done, log;
      StaysPut(Stalled(n, store, done, log));
    } else {
      var more, m := OneCall(n, store, done, log);
      allDone, all := ManyCalls(n + 1, store, done + [more], log + [m]);
      ThenLeads(Stalled(n, store, done, log), Stalled(n + 1, store, done + [more], log + [m]),
                Stalled(TWO32, store, allDone, all));
    }
  }

  /** Thread 0 draws and enters the first id. */
  lemma Starts(store: Server.State) returns (start: State)
    ensures Initial(start) && start.store == store && Leads(start, Stalled(1, store, [], []))
  {
    start := State(0, map[], map[], {}, map[], [], 0, Waiting, [], store, None, [], None, [], false, []);
    var mid := start.(nextTicket := 1, numbered := map[0 := Call(0, STALLED)]);
    var s := Stalled(1, store, [], []);
    assert TakeId(start, mid, 0, STALLED);
    ByCaller(start, mid, 0);
    assert mid.numbered - {0} == map[];
    assert Register(mid, s, 0);
    ByCaller(mid, s, 0);
    StepLeads(start, mid);
    ThenStep(start, mid, s);
  }

  /** After the clash thread 0 goes on: its reply completes the other call's future. */
  lemma WrongCompletion(t: State, done: seq<Answer>) returns (u: State)
    requires Idle(t) && 0 in t.registered && t.registered[0] == Call(0, STALLED)
    requires t.pending == map[0 := TWO32] && t.completed == done && |t.log| == |done|
    ensures Leads(t, u) && Idle(u) && u.pending == map[] && u.registered == t.registered - {0}
    ensures |u.completed| == |u.log| == |done| + 1
    ensures u.log[|done|].ticket == 0 && u.completed[|done|].msg.ticket == TWO32
  {
    hide Leads, Server.ReplyTo;
    Travels(t, 0);
    var s := Arrived(t, 0);
    var a := s.toClient[0];
    Completes(s, a);
    var found := Answer(a.msg.(ticket := s.pending[a.msg.key]), a.reply);
    u := s.(toClient := [], pending := s.pending - {a.msg.key}, completed := s.completed + [found]);
    ThenLeads(t, s, u);
    assert u.pending == map[];
  }

  /** Then thread 1 goes on: the receiver does not know the id of its reply. */
  lemma UnknownReply(u: State, call: Call) returns (last: State)
    requires Idle(u) && 1 in u.registered && u.registered[1] == call && KeyOf(call.ticket) !in u.pending
    ensures Leads(u, last) && last.faulted && last.completed == u.completed && u.log <= last.log
  {
    Travels(u, 1);
    hide Leads, Server.ReplyTo, Server.StateAfter, KeyOf;
    var s := Arrived(u, 1);
    last := s.(faulted := true);
    assert ReceiverStep(s, last);
    ThenStep(u, s, last);
  }

  /**
   * A thread that stands still between entering its id and pushing its message, while another makes 2^32 - 1
   * calls, is enough: the next call's id clashes, the first reply completes the wrong future, and the receiver
   * does not know the id of the second.
   */
  lemma WideSpanFaults(store: Server.State) returns (start: State, mid: State, t: State, last: State)
    ensures Initial(start) && start.store == store && Leads(start, mid)
    ensures ClashOf(mid, t, 1, 0) && Leads(t, last)
    ensures last.faulted
    ensures exists j :: 0 <= j < |last.completed| <= |last.log| && last.completed[j].msg.ticket != last.log[j].ticket
  {
    hide Leads;
    start := Starts(store);
    var done, log := ManyCalls(1, store, [], []);
    var s := Stalled(TWO32, store, done, log);
    ThenLeads(start, Stalled(1, store, [], []), s);
    mid := Enters(s, OTHER);
    ThenLeads(start, s, mid);
    t := Entered(s, OTHER);
    assert Open(mid, 0) by { assert mid.registered[0].ticket == 0; }
    assert ClashOf(mid, t, 1, 0);
    assert t.pending == map[0 := TWO32];
    var u := WrongCompletion(t, done);
    last := UnknownReply(u, Call(TWO32, OTHER));
    ThenLeads(t, u, last);
    assert last.completed[|done|].msg.ticket != last.log[|done|].ticket;
  }
}
