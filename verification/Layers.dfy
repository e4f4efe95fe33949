/** The layers meet: the store that the cache is proved over is the server behind the protocol. */
module Layers {
  import opened Basics
  import opened Bulk
  import Protocol
  import Remote = RemoteStore
  import Server

  /** How objects become bytes and back. */
  datatype Codec<!T> = Codec(serialize: T -> Blob, deserialize: Blob -> T)

  /** A store call as the message the client sends. */
  function Sent<T>(c: Codec<T>, r: Remote.Request<T>): Server.Request {
    match r
    case PutRequest(oid, obj) => Server.Write(oid, c.serialize(obj))
    case GetRequest(oid) => Server.Read(oid)
    case RemoveRequest(oid) => Server.Remove(oid)
  }

  /** The server's reply as the future's answer. */
  function Received<T>(c: Codec<T>, r: Remote.Request<T>, reply: Server.Reply): Remote.Answer<T> {
    match r
    case PutRequest(_, _) => if reply.success then Remote.Done else Remote.MemoryError
    case GetRequest(_) =>
      if reply.success && reply.data != [] then Remote.Found(c.deserialize(reply.data[0])) else Remote.NoSuchId
    case RemoveRequest(_) => Remote.Done
  }

  /** The server's memory seen as objects. */
  ghost function Objects<T>(c: Codec<T>, mem: Server.Memory): map<ObjectId, T> {
    map k | k in mem :: c.deserialize(mem[k])
  }

  ghost function Messages<T>(c: Codec<T>, rs: seq<Remote.Request<T>>): seq<Server.Request> {
    seq(|rs|, i requires 0 <= i < |rs| => Sent(c, rs[i]))
  }

  ghost function Issued<T>(rs: seq<Remote.Request<T>>): seq<Remote.InFlight<T>> {
    seq(|rs|, i requires 0 <= i < |rs| => Remote.InFlight(i, rs[i]))
  }

  /** The server when the `i`-th of the requests reaches it. */
  ghost function Meets<T>(c: Codec<T>, s0: Server.State, rs: seq<Remote.Request<T>>, i: nat): Server.State
    requires i <= |rs|
  {
    Server.Serve(s0, Messages(c, rs[..i]))
  }

  /** `w` serializes as `c` does and accepts the puts the server has memory for. */
  ghost predicate Matches<T(!new)>(w: Remote.World<T>, c: Codec<T>, s0: Server.State, rs: seq<Remote.Request<T>>) {
    && (forall x: T :: w.codec(x) == c.deserialize(c.serialize(x)))
    && (forall i :: 0 <= i < |rs| && rs[i].PutRequest? ==>
          w.accepts(i) == Server.DoWrite(Meets(c, s0, rs, i), rs[i].oid, c.serialize(rs[i].obj)).ok)
  }

  /** One request: the store's map and answer are the server's memory and reply, seen as objects. */
  lemma OneRequest<T(!new)>(w: Remote.World<T>, c: Codec<T>, s: Server.State, r: Remote.Request<T>, n: nat)
    requires forall x: T :: w.codec(x) == c.deserialize(c.serialize(x))
    requires r.PutRequest? ==> w.accepts(n) == Server.DoWrite(s, r.oid, c.serialize(r.obj)).ok
    ensures var x := Remote.InFlight(n, r);
      && Remote.Effect(w, Objects(c, s.mem), x) == Objects(c, Server.StateAfter(s, Sent(c, r)).mem)
      && Remote.Reply(w, Objects(c, s.mem), x) == Received(c, r, Server.ReplyTo(s, Sent(c, r)))
  {
  }

  lemma MeetsNext<T>(c: Codec<T>, s0: Server.State, rs: seq<Remote.Request<T>>, i: nat)
    requires i < |rs|
    ensures Meets(c, s0, rs, i + 1) == Server.StateAfter(Meets(c, s0, rs, i), Sent(c, rs[i]))
  {
    var ms := Messages(c, rs[..i + 1]);
    assert ms[..i] == Messages(c, rs[..i]) && ms[i] == Sent(c, rs[i]);
  }

  lemma MeetsPrefix<T>(c: Codec<T>, s0: Server.State, rs: seq<Remote.Request<T>>, n: nat, i: nat)
    requires i <= n <= |rs|
    ensures Meets(c, s0, rs[..n], i) == Meets(c, s0, rs, i)
  {
    assert rs[..n][..i] == rs[..i];
  }

  lemma MatchesPrefix<T(!new)>(w: Remote.World<T>, c: Codec<T>, s0: Server.State, rs: seq<Remote.Request<T>>, n: nat)
    requires Matches(w, c, s0, rs) && n <= |rs|
    ensures Matches(w, c, s0, rs[..n])
  {
    hide Server.DoWrite, Meets;
    forall i | 0 <= i < n ensures Meets(c, s0, rs[..n], i) == Meets(c, s0, rs, i) {
      MeetsPrefix(c, s0, rs, n, i);
    }
  }

  lemma IssuedLast<T>(rs: seq<Remote.Request<T>>)
    requires rs != []
    ensures var n := |rs| - 1; Issued(rs) == Issued(rs[..n]) + [Remote.InFlight(n, rs[n])]
  {
  }

  /** The answer the store promises to the `i`-th request is the server's reply to it. */
  ghost predicate PromiseKept<T>(w: Remote.World<T>, c: Codec<T>, s0: Server.State, rs: seq<Remote.Request<T>>, i: nat)
    requires i < |rs|
  {
    var promised := Remote.Promised(w, Objects(c, s0.mem), Issued(rs));
    i in promised && promised[i] == Received(c, rs[i], Server.ReplyTo(Meets(c, s0, rs, i), Sent(c, rs[i])))
  }

  lemma PromiseStays<T>(w: Remote.World<T>, c: Codec<T>, s0: Server.State, rs: seq<Remote.Request<T>>, i: nat)
    requires rs != [] && i < |rs| - 1 && PromiseKept(w, c, s0, rs[..|rs| - 1], i)
    ensures PromiseKept(w, c, s0, rs, i)
  {
    hide Remote.Promised, Remote.After, Received, Objects, Server.ReplyTo, Sent, Meets, Issued, Remote.Reply;
    var n := |rs| - 1;
    IssuedLast(rs);
    Remote.ServeLast(w, Objects(c, s0.mem), Issued(rs[..n]), Remote.InFlight(n, rs[n]));
    MeetsPrefix(c, s0, rs, n, i);
  }

  lemma StoreStep<T(!new)>(w: Remote.World<T>, c: Codec<T>, s0: Server.State, rs: seq<Remote.Request<T>>)
    requires Matches(w, c, s0, rs) && rs != []
    requires var before := rs[..|rs| - 1];
      Remote.After(w, Objects(c, s0.mem), Issued(before)) == Objects(c, Meets(c, s0, before, |before|).mem)
    ensures Remote.After(w, Objects(c, s0.mem), Issued(rs)) == Objects(c, Meets(c, s0, rs, |rs|).mem)
    ensures PromiseKept(w, c, s0, rs, |rs| - 1)
  {
    hide Remote.Promised, Remote.After, Remote.Effect, Remote.Reply, Received, Objects, Sent, Meets, Issued;
    hide Server.DoWrite, Server.StateAfter, Server.ReplyTo;
    var n := |rs| - 1;
    IssuedLast(rs);
    Remote.ServeLast(w, Objects(c, s0.mem), Issued(rs[..n]), Remote.InFlight(n, rs[n]));
    MeetsPrefix(c, s0, rs, n, n);
    OneRequest(w, c, Meets(c, s0, rs, n), rs[n], n);
    MeetsNext(c, s0, rs, n);
  }

  lemma StoreStarts<T>(w: Remote.World<T>, c: Codec<T>, s0: Server.State, rs: seq<Remote.Request<T>>)
    requires rs == []
    ensures Remote.After(w, Objects(c, s0.mem), Issued(rs)) == Objects(c, Meets(c, s0, rs, 0).mem)
  {
  }

  /**
   * After any requests, served in order, the store's map is the server's memory seen as objects, and the
   * promised answers are the server's replies.
   */
  lemma {:induction false} StoreIsServer<T(!new)>(w: Remote.World<T>, c: Codec<T>, s0: Server.State,
                                                 rs: seq<Remote.Request<T>>)
    requires Matches(w, c, s0, rs)
    ensures Remote.After(w, Objects(c, s0.mem), Issued(rs)) == Objects(c, Meets(c, s0, rs, |rs|).mem)
    ensures forall i: nat :: i < |rs| ==> PromiseKept(w, c, s0, rs, i)
    decreases |rs|
  {
    hide Remote.After, Objects, Meets, Issued, PromiseKept, Matches;
    if rs == [] {
      StoreStarts(w, c, s0, rs);
    } else {
      var n := |rs| - 1;
      MatchesPrefix(w, c, s0, rs, n);
      StoreIsServer(w, c, s0, rs[..n]);
      StoreStep(w, c, s0, rs);
      forall i: nat | i < n ensures PromiseKept(w, c, s0, rs, i) {
        PromiseStays(w, c, s0, rs, i);
      }
    }
  }

  lemma CompletedAnswer(run: seq<Protocol.State>, i: nat)
    requires Protocol.IsRun(run) && i < |run[|run| - 1].completed|
    ensures var s := run[|run| - 1];
      i < |s.log| && s.completed[i] == Protocol.AnswerAt(run[0].store, s.log, i)
  {
    hide Protocol.IsRun, Protocol.AnswerAt;
    Protocol.ProtocolSafety(run);
  }

  lemma SameLength<T>(log: seq<Protocol.Msg>, c: Codec<T>, rs: seq<Remote.Request<T>>)
    requires Protocol.Requests(log) == Messages(c, rs)
    ensures |log| == |rs|
  {
    assert |Protocol.Requests(log)| == |log| && |Messages(c, rs)| == |rs|;
  }

  lemma SameMessages<T>(log: seq<Protocol.Msg>, c: Codec<T>, rs: seq<Remote.Request<T>>, i: nat)
    requires Protocol.Requests(log) == Messages(c, rs) && i < |log| == |rs|
    ensures Protocol.Requests(log[..i]) == Messages(c, rs[..i]) && log[i].req == Sent(c, rs[i])
  {
    hide Sent;
    forall k | 0 <= k <= i ensures log[k].req == Sent(c, rs[k]) {
      assert Protocol.Requests(log)[k] == Messages(c, rs)[k];
    }
  }

  /**
   * In every interleaving of the protocol, when the requests pushed were the store's, each completed future
   * holds exactly the answer that the cache's store promised when the request was issued.
   */
  lemma FuturesKeepPromises<T(!new)>(run: seq<Protocol.State>, w: Remote.World<T>, c: Codec<T>,
                                     rs: seq<Remote.Request<T>>, i: nat)
    requires Protocol.IsRun(run)
    requires Protocol.Requests(run[|run| - 1].log) == Messages(c, rs)
    requires Matches(w, c, run[0].store, rs)
    requires i < |run[|run| - 1].completed|
    ensures i < |rs|
    ensures var promised := Remote.Promised(w, Objects(c, run[0].store.mem), Issued(rs));
      i in promised && Received(c, rs[i], run[|run| - 1].completed[i].reply) == promised[i]
  {
    var s := run[|run| - 1];
    var s0 := run[0].store;
    hide Protocol.IsRun, Remote.Promised, Received, Objects, Server.ReplyTo, Sent, Matches;
    CompletedAnswer(run, i);
    assert |rs| == |s.log| by { SameLength(s.log, c, rs); }
    SameMessages(s.log, c, rs, i);
    hide Protocol.Requests, Messages;
    StoreIsServer(w, c, s0, rs);
    assert PromiseKept(w, c, s0, rs, i);
  }
}
