/** The TCP server's request handling and its byte accounting. */
module Server {
  import opened Basics
  import opened Bytes
  import opened Bulk

  type Memory = map<ObjectId, Blob>

  datatype State = State(mem: Memory, currSize: u64, poolSize: u64)

  datatype ErrorCode = NoError | ServerMemoryError | NoSuchIdError

  datatype Request =
    | Write(oid: ObjectId, data: Blob)
    | WriteBulk(oids: seq<ObjectId>, objs: seq<Blob>)
    | Read(oid: ObjectId)
    | ReadBulk(oids: seq<ObjectId>)
    | Remove(oid: ObjectId)

  datatype Reply = Reply(success: bool, error: ErrorCode, data: seq<Blob>)

  function SizeOf(mem: Memory, oid: ObjectId): u32 {
    if oid in mem then |mem[oid]| else 0
  }

  // ---- What each request does ----

  datatype Written = Written(state: State, ok: bool)

  /** A single write; the old object's size is given back before the capacity test, whatever the outcome. */
  function DoWrite(s: State, oid: ObjectId, data: Blob): Written {
    var released := if oid in s.mem then Sub64(s.currSize, |s.mem[oid]|) else s.currSize;
    if Add64(released, |data|) > s.poolSize then Written(s.(currSize := released), false)
    else Written(s.(mem := s.mem[oid := data], currSize := Add64(released, |data|)), true)
  }

  /** Single writes in order, up to and including the first rejected one. */
  function DoWrites(s: State, oids: seq<ObjectId>, objs: seq<Blob>): Written
    decreases |oids|
  {
    if oids == [] || objs == [] then Written(s, true)
    else
      var w := DoWrite(s, oids[0], objs[0]);
      if w.ok then DoWrites(w.state, oids[1..], objs[1..]) else w
  }

  function DoRemove(s: State, oid: ObjectId): State {
    if oid in s.mem then s.(mem := s.mem - {oid}, currSize := Sub64(s.currSize, |s.mem[oid]|)) else s
  }

  predicate AllPresent(mem: Memory, oids: seq<ObjectId>) {
    forall i :: 0 <= i < |oids| ==> oids[i] in mem
  }

  function Fetched(mem: Memory, oids: seq<ObjectId>): (r: seq<Blob>)
    requires AllPresent(mem, oids)
    ensures |r| == |oids| && forall i :: 0 <= i < |oids| ==> r[i] == mem[oids[i]]
  {
    seq(|oids|, i requires 0 <= i < |oids| => mem[oids[i]])
  }

  function StateAfter(s: State, r: Request): State {
    match r
    case Write(oid, data) => DoWrite(s, oid, data).state
    case WriteBulk(oids, objs) => DoWrites(s, oids, objs).state
    case Remove(oid) => DoRemove(s, oid)
    case Read(_) => s
    case ReadBulk(_) => s
  }

  /**
   * The reply to a request the server can handle; a bulk write with more ids than objects, or a bulk read whose
   * reply has 2^32 bytes or more, overruns its bytes instead, as `ProcessWriteBulk` and `ProcessReadBulk` say.
   */
  function ReplyTo(s: State, r: Request): Reply {
    match r
    case Write(oid, data) => WriteReply(DoWrite(s, oid, data).ok)
    case WriteBulk(oids, objs) => WriteReply(DoWrites(s, oids, objs).ok)
    case Read(oid) => if oid in s.mem then Reply(true, NoError, [s.mem[oid]]) else Reply(false, NoSuchIdError, [])
    case ReadBulk(oids) =>
      if AllPresent(s.mem, oids) then Reply(true, NoError, Fetched(s.mem, oids)) else Reply(false, NoSuchIdError, [])
    case Remove(oid) => Reply(oid in s.mem, NoError, [])
  }

  function WriteReply(ok: bool): Reply {
    if ok then Reply(true, NoError, []) else Reply(false, ServerMemoryError, [])
  }

  function Serve(s: State, rs: seq<Request>): State {
    if rs == [] then s else StateAfter(Serve(s, rs[..|rs| - 1]), rs[|rs| - 1])
  }

  // ---- Byte accounting ----

  ghost function Total(mem: Memory): nat {
    if mem == map[] then 0
    else
      var oid :| oid in mem;
      |mem[oid]| + Total(mem - {oid})
  }

  lemma {:induction false} TotalWithout(mem: Memory, oid: ObjectId)
    requires oid in mem
    ensures Total(mem) == |mem[oid]| + Total(mem - {oid})
    decreases mem.Keys
  {
    var k :| k in mem && Total(mem) == |mem[k]| + Total(mem - {k});
    if k != oid {
      TotalWithout(mem - {k}, oid);
      TotalWithout(mem - {oid}, k);
      assert mem - {k} - {oid} == mem - {oid} - {k};
    }
  }

  lemma TotalUpdate(mem: Memory, oid: ObjectId, data: Blob)
    ensures Total(mem[oid := data]) == Total(mem) - SizeOf(mem, oid) + |data|
  {
    var mem' := mem[oid := data];
    TotalWithout(mem', oid);
    if oid in mem {
      TotalWithout(mem, oid);
      assert mem' - {oid} == mem - {oid};
    } else {
      assert mem' - {oid} == mem;
    }
  }

  /** The old size a write gives back although it is then rejected. */
  function Overcharge(s: State, oid: ObjectId, data: Blob): u32 {
    if DoWrite(s, oid, data).ok then 0 else SizeOf(s.mem, oid)
  }

  function OverchargeAll(s: State, oids: seq<ObjectId>, objs: seq<Blob>): u32
    decreases |oids|
  {
    if oids == [] || objs == [] then 0
    else
      var w := DoWrite(s, oids[0], objs[0]);
      if w.ok then OverchargeAll(w.state, oids[1..], objs[1..]) else SizeOf(s.mem, oids[0])
  }

  function OverchargeOf(s: State, r: Request): u32 {
    match r
    case Write(oid, data) => Overcharge(s, oid, data)
    case WriteBulk(oids, objs) => OverchargeAll(s, oids, objs)
    case _ => 0
  }

  function Overcharged(s: State, rs: seq<Request>): nat {
    if rs == [] then 0
    else
      var before := rs[..|rs| - 1];
      Overcharged(s, before) + OverchargeOf(Serve(s, before), rs[|rs| - 1])
  }

  ghost predicate SameMod64(a: int, b: int) {
    (a - b) % TWO64 == 0
  }

  lemma SameMod64Add(a: int, b: int, c: int, d: int)
    requires SameMod64(a, b) && SameMod64(c, d)
    ensures SameMod64(a + c, b + d)
  {
    assert (a + c) - (b + d) == (a - b) + (c - d);
  }

  lemma SameMod64Cancel(a: int, c: int, t: int)
    requires SameMod64(a + c, t)
    ensures SameMod64(a, t) <==> SameMod64(c, 0)
  {
  }

  /** From `s` to `t` the counter, plus `d`, moved as the stored bytes did. */
  ghost predicate Balanced(s: State, t: State, d: nat) {
    SameMod64(t.currSize + d - s.currSize, Total(t.mem) - Total(s.mem))
  }

  lemma BalancedSelf(s: State)
    ensures Balanced(s, s, 0)
  {
    hide Total;
  }

  lemma BalancedThen(s: State, t: State, u: State, d: nat)
    requires Balanced(s, t, 0) && Balanced(t, u, d)
    ensures Balanced(s, u, d)
  {
    hide Total;
    SameMod64Add(t.currSize - s.currSize, Total(t.mem) - Total(s.mem),
      u.currSize + d - t.currSize, Total(u.mem) - Total(t.mem));
  }

  /** One write changes the counter and the stored bytes alike, but for what a rejection gave back. */
  lemma WriteBalance(s: State, oid: ObjectId, data: Blob)
    ensures Balanced(s, DoWrite(s, oid, data).state, Overcharge(s, oid, data))
  {
    hide Add64, Sub64, SameMod64;
    TotalUpdate(s.mem, oid, data);
    var prior := SizeOf(s.mem, oid);
    var released := if oid in s.mem then Sub64(s.currSize, prior) else s.currSize;
    Released(s.currSize, prior);
    Stored(s.currSize, released, prior, |data|);
  }

  lemma Released(curr: u64, prior: u32)
    ensures SameMod64(Sub64(curr, prior) + prior - curr, 0) && SameMod64(curr - curr, 0)
  {
  }

  lemma Stored(curr: u64, released: u64, prior: u32, size: u32)
    requires SameMod64(released + prior - curr, 0)
    ensures SameMod64(Add64(released, size) - curr, size - prior)
  {
  }

  lemma {:induction false} WritesBalance(s: State, oids: seq<ObjectId>, objs: seq<Blob>)
    ensures Balanced(s, DoWrites(s, oids, objs).state, OverchargeAll(s, oids, objs))
    decreases |oids|
  {
    hide Balanced, DoWrite;
    if oids == [] || objs == [] {
      BalancedSelf(s);
    } else {
      var w := DoWrite(s, oids[0], objs[0]);
      WriteBalance(s, oids[0], objs[0]);
      if w.ok {
        WritesBalance(w.state, oids[1..], objs[1..]);
        BalancedThen(s, w.state, DoWrites(s, oids, objs).state, OverchargeAll(s, oids, objs));
      }
    }
  }

  lemma RemoveBalance(s: State, oid: ObjectId)
    ensures Balanced(s, DoRemove(s, oid), 0)
  {
    hide SameMod64, Sub64, Total;
    BalancedSelf(s);
    if oid in s.mem {
      TotalWithout(s.mem, oid);
      ReleasedOnly(s.currSize, |s.mem[oid]|);
    }
  }

  lemma ReleasedOnly(curr: u64, prior: u32)
    ensures SameMod64(Sub64(curr, prior) - curr, 0 - prior)
  {
  }

  lemma RequestBalance(s: State, r: Request)
    ensures Balanced(s, StateAfter(s, r), OverchargeOf(s, r))
  {
    hide Balanced, DoWrite, DoRemove;
    match r
    case Write(oid, data) => WriteBalance(s, oid, data);
    case WriteBulk(oids, objs) => WritesBalance(s, oids, objs);
    case Remove(oid) => RemoveBalance(s, oid);
    case _ => BalancedSelf(s);
  }

  /**
   * In every run from an empty server the counter plus everything given back by rejected overwrites is,
   * modulo 2^64, the number of bytes stored. So the counter is right, modulo 2^64, exactly when what was given
   * back is zero modulo 2^64.
   */
  lemma {:induction false} ByteConservation(poolSize: u64, rs: seq<Request>)
    ensures var s0 := State(map[], 0, poolSize);
      var s := Serve(s0, rs);
      && SameMod64(s.currSize + Overcharged(s0, rs), Total(s.mem))
      && (SameMod64(s.currSize, Total(s.mem)) <==> SameMod64(Overcharged(s0, rs), 0))
  {
    hide SameMod64, StateAfter, OverchargeOf;
    var s0 := State(map[], 0, poolSize);
    if rs == [] {
      SameMod64Zero();
    } else {
      var before := rs[..|rs| - 1];
      ByteConservation(poolSize, before);
      var s := Serve(s0, before);
      RequestBalance(s, rs[|rs| - 1]);
      var s' := Serve(s0, rs);
      SameMod64Add(s.currSize + Overcharged(s0, before), Total(s.mem),
        s'.currSize + OverchargeOf(s, rs[|rs| - 1]) - s.currSize, Total(s'.mem) - Total(s.mem));
    }
    SameMod64Cancel(Serve(s0, rs).currSize, Overcharged(s0, rs), Total(Serve(s0, rs).mem));
  }

  lemma SameMod64Zero()
    ensures SameMod64(0, 0)
  {
  }

  ghost predicate Exact(s: State) {
    s.currSize == Total(s.mem) <= s.poolSize
  }

  lemma WriteExact(s: State, oid: ObjectId, data: Blob)
    requires Exact(s) && s.poolSize <= TWO64 - TWO32 && Overcharge(s, oid, data) == 0
    ensures Exact(DoWrite(s, oid, data).state)
  {
    hide Add64, Sub64;
    TotalUpdate(s.mem, oid, data);
    if oid in s.mem {
      TotalWithout(s.mem, oid);
      Sub64Exact(s.currSize, |s.mem[oid]|);
    }
    Add64Exact(s.currSize - SizeOf(s.mem, oid), |data|);
  }

  lemma {:induction false} WritesExact(s: State, oids: seq<ObjectId>, objs: seq<Blob>)
    requires Exact(s) && s.poolSize <= TWO64 - TWO32 && OverchargeAll(s, oids, objs) == 0
    ensures Exact(DoWrites(s, oids, objs).state)
    decreases |oids|
  {
    if oids != [] && objs != [] {
      var w := DoWrite(s, oids[0], objs[0]);
      WriteExact(s, oids[0], objs[0]);
      if w.ok {
        WritesExact(w.state, oids[1..], objs[1..]);
      }
    }
  }

  lemma {:induction false} PoolKept(s: State, oids: seq<ObjectId>, objs: seq<Blob>)
    ensures DoWrites(s, oids, objs).state.poolSize == s.poolSize
    decreases |oids|
  {
    if oids != [] && objs != [] {
      PoolKept(DoWrite(s, oids[0], objs[0]).state, oids[1..], objs[1..]);
    }
  }

  lemma {:induction false} ServePool(s: State, rs: seq<Request>)
    ensures Serve(s, rs).poolSize == s.poolSize
  {
    if rs != [] {
      ServePool(s, rs[..|rs| - 1]);
      var r := rs[|rs| - 1];
      if r.WriteBulk? {
        PoolKept(Serve(s, rs[..|rs| - 1]), r.oids, r.objs);
      }
    }
  }

  /** With no nonempty object lost to a rejected overwrite, the counter is the bytes stored, within the pool. */
  lemma {:induction false} AccountingExact(poolSize: u64, rs: seq<Request>)
    requires poolSize <= TWO64 - TWO32
    requires Overcharged(State(map[], 0, poolSize), rs) == 0
    ensures Exact(Serve(State(map[], 0, poolSize), rs))
  {
    var s0 := State(map[], 0, poolSize);
    if rs != [] {
      var before := rs[..|rs| - 1];
      var r := rs[|rs| - 1];
      AccountingExact(poolSize, before);
      ServePool(s0, before);
      var s := Serve(s0, before);
      match r
      case Write(oid, data) => WriteExact(s, oid, data);
      case WriteBulk(oids, objs) =>
        WritesExact(s, oids, objs);
      case Remove(oid) =>
        if oid in s.mem {
          TotalWithout(s.mem, oid);
        }
      case _ =>
    }
  }

  lemma SmallAndZero(d: u32, x: u64, total: nat)
    requires SameMod64(x + d, total) && x == total
    ensures d == 0
  {
  }

  lemma OverchargedLast(s0: State, rs: seq<Request>)
    requires rs != [] && Overcharged(s0, rs[..|rs| - 1]) == 0
    ensures Overcharged(s0, rs) < TWO32
  {
    hide OverchargeOf, Serve;
  }

  lemma LastIsNotOvercharged(poolSize: u64, rs: seq<Request>)
    requires rs != []
    requires var s0 := State(map[], 0, poolSize);
      Overcharged(s0, rs[..|rs| - 1]) == 0 && Exact(Serve(s0, rs))
    ensures Overcharged(State(map[], 0, poolSize), rs) == 0
  {
    hide SameMod64, Serve, Overcharged, Total;
    var s0 := State(map[], 0, poolSize);
    var s := Serve(s0, rs);
    OverchargedLast(s0, rs);
    ByteConservation(poolSize, rs);
    SmallAndZero(Overcharged(s0, rs), s.currSize, Total(s.mem));
  }

  /** The counter is the bytes stored, within the pool, all through a run exactly when nothing was overcharged. */
  lemma {:induction false} AccountingExactIff(poolSize: u64, rs: seq<Request>)
    requires poolSize <= TWO64 - TWO32
    ensures var s0 := State(map[], 0, poolSize);
      (forall k :: 0 <= k <= |rs| ==> Exact(Serve(s0, rs[..k]))) <==> Overcharged(s0, rs) == 0
    decreases |rs|
  {
    hide SameMod64, StateAfter, OverchargeOf, Exact;
    var s0 := State(map[], 0, poolSize);
    assert rs[..|rs|] == rs;
    if rs == [] {
      AccountingExact(poolSize, rs);
    } else {
      var n := |rs| - 1;
      var before := rs[..n];
      assert forall k :: 0 <= k <= n ==> before[..k] == rs[..k];
      AccountingExactIff(poolSize, before);
      if forall k :: 0 <= k <= |rs| ==> Exact(Serve(s0, rs[..k])) {
        assert forall k :: 0 <= k <= n ==> Exact(Serve(s0, before[..k]));
        assert Exact(Serve(s0, rs[..|rs|]));
        LastIsNotOvercharged(poolSize, rs);
      }
      if Overcharged(s0, rs) == 0 {
        AccountingExact(poolSize, rs);
        forall k | 0 <= k <= |rs| ensures Exact(Serve(s0, rs[..k])) {
          if k <= n {
            assert Exact(Serve(s0, before[..k]));
          }
        }
      }
    }
  }

  /** Which writes are accepted: those with which the other objects fit the pool. */
  lemma WriteAcceptedIff(s: State, oid: ObjectId, data: Blob)
    requires Exact(s) && s.poolSize <= TWO64 - TWO32
    ensures DoWrite(s, oid, data).ok <==> Total(s.mem - {oid}) + |data| <= s.poolSize
  {
    hide Add64, Sub64, Total;
    if oid in s.mem {
      TotalWithout(s.mem, oid);
      Sub64Exact(s.currSize, |s.mem[oid]|);
    } else {
      assert s.mem - {oid} == s.mem;
    }
    Add64Exact(s.currSize - SizeOf(s.mem, oid), |data|);
  }

  /** In every run that overcharged nothing, the next write succeeds exactly when it fits. */
  lemma NextWriteAcceptedIff(poolSize: u64, rs: seq<Request>, oid: ObjectId, data: Blob)
    requires poolSize <= TWO64 - TWO32 && Overcharged(State(map[], 0, poolSize), rs) == 0
    ensures var s := Serve(State(map[], 0, poolSize), rs);
      ReplyTo(s, Write(oid, data)).success <==> Total(s.mem - {oid}) + |data| <= poolSize
  {
    hide Serve, DoWrite, Exact, Overcharged, Total;
    AccountingExact(poolSize, rs);
    ServePool(State(map[], 0, poolSize), rs);
    WriteAcceptedIff(Serve(State(map[], 0, poolSize), rs), oid, data);
  }

  /** How the replies to single requests on one id hang together, error codes included. */
  lemma SingleReplies(s: State, oid: ObjectId, data: Blob)
    ensures ReplyTo(s, Remove(oid)).success <==> ReplyTo(s, Read(oid)).success
    ensures ReplyTo(s, Remove(oid)).error == NoError
    ensures !ReplyTo(StateAfter(s, Remove(oid)), Read(oid)).success
    ensures var read := ReplyTo(s, Read(oid));
      && (read.success <==> oid in s.mem)
      && (read.error == NoSuchIdError <==> !read.success) && (read.error == NoError <==> read.success)
    ensures var write := ReplyTo(s, Write(oid, data));
      && (write.error == ServerMemoryError <==> !write.success) && (write.error == NoError <==> write.success)
      && var after := StateAfter(s, Write(oid, data));
         ReplyTo(after, Read(oid)) == if write.success then Reply(true, NoError, [data]) else ReplyTo(s, Read(oid))
  {
  }

  // ---- Bulk requests are their single requests ----

  /** A bulk read answers with the objects of the single reads, and fails exactly when one of them does. */
  lemma BulkReadIsReads(s: State, oids: seq<ObjectId>)
    ensures StateAfter(s, ReadBulk(oids)) == s
    ensures var reply := ReplyTo(s, ReadBulk(oids));
      && (reply.success <==> forall i :: 0 <= i < |oids| ==> ReplyTo(s, Read(oids[i])).success)
      && (reply.success ==>
            && reply.error == NoError && |reply.data| == |oids|
            && forall i :: 0 <= i < |oids| ==> ReplyTo(s, Read(oids[i])).data == [reply.data[i]])
      && (!reply.success ==> reply.data == [] && reply.error == NoSuchIdError)
  {
    if !AllPresent(s.mem, oids) {
      var i :| 0 <= i < |oids| && oids[i] !in s.mem;
      assert !ReplyTo(s, Read(oids[i])).success;
    }
    forall i | 0 <= i < |oids| && !ReplyTo(s, Read(oids[i])).success ensures !AllPresent(s.mem, oids) {
    }
  }

  /** The single writes of a bulk write. */
  function Writes(oids: seq<ObjectId>, objs: seq<Blob>): seq<Request>
    decreases |oids|
  {
    if oids == [] || objs == [] then [] else [Write(oids[0], objs[0])] + Writes(oids[1..], objs[1..])
  }

  /** Serving from the front. */
  lemma {:induction false} ServeCons(s: State, r: Request, rs: seq<Request>)
    ensures Serve(s, [r] + rs) == Serve(StateAfter(s, r), rs)
    decreases |rs|
  {
    hide StateAfter;
    var all := [r] + rs;
    if rs == [] {
      assert all[..0] == [];
    } else {
      ServeCons(s, r, rs[..|rs| - 1]);
      assert all[..|all| - 1] == [r] + rs[..|rs| - 1];
    }
  }

  lemma ServeNothing(s: State)
    ensures Serve(s, []) == s
  {
  }

  /** How many of the writes are served: all, or those up to and including the first that is rejected. */
  ghost predicate ServedUpTo(s: State, ws: seq<Request>, n: nat) {
    && n <= |ws|
    && (forall i :: 0 <= i < n - 1 ==> ReplyTo(Serve(s, ws[..i]), ws[i]).success)
    && (0 < n < |ws| ==> !ReplyTo(Serve(s, ws[..n - 1]), ws[n - 1]).success)
    && (n == 0 ==> ws == [])
  }

  lemma ServedCons(s: State, w: Request, ws: seq<Request>, n: nat)
    requires ReplyTo(s, w).success && ServedUpTo(StateAfter(s, w), ws, n)
    ensures ServedUpTo(s, [w] + ws, n + 1)
  {
    hide StateAfter, ReplyTo, Serve;
    var t, all := StateAfter(s, w), [w] + ws;
    forall i | 0 <= i < |ws| ensures Serve(s, all[..i + 1]) == Serve(t, ws[..i]) {
      assert all[..i + 1] == [w] + ws[..i];
      ServeCons(s, w, ws[..i]);
    }
    assert all[..0] == [];
    ServeNothing(s);
    forall i | 0 <= i < n ensures ReplyTo(Serve(s, all[..i]), all[i]).success {
      if i > 0 {
        assert Serve(s, all[..i - 1 + 1]) == Serve(t, ws[..i - 1]) && all[i] == ws[i - 1];
      }
    }
    if 0 < n < |ws| {
      assert Serve(s, all[..n - 1 + 1]) == Serve(t, ws[..n - 1]) && all[n] == ws[n - 1];
    }
  }

  lemma ShiftedReplies(s: State, w: Request, ws: seq<Request>)
    requires ReplyTo(s, w).success
    ensures var all := [w] + ws;
      (forall i :: 0 <= i < |all| ==> ReplyTo(Serve(s, all[..i]), all[i]).success) <==>
      (forall i :: 0 <= i < |ws| ==> ReplyTo(Serve(StateAfter(s, w), ws[..i]), ws[i]).success)
  {
    hide StateAfter, ReplyTo, Serve;
    var t, all := StateAfter(s, w), [w] + ws;
    ServeNothing(s);
    assert all[..0] == [];
    forall i | 0 <= i < |ws| ensures Serve(s, all[..i + 1]) == Serve(t, ws[..i]) && all[i + 1] == ws[i] {
      assert all[..i + 1] == [w] + ws[..i];
      ServeCons(s, w, ws[..i]);
    }
    if forall i :: 0 <= i < |ws| ==> ReplyTo(Serve(t, ws[..i]), ws[i]).success {
      forall i | 0 <= i < |all| ensures ReplyTo(Serve(s, all[..i]), all[i]).success {
        if i > 0 {
          assert ReplyTo(Serve(t, ws[..i - 1]), ws[i - 1]).success;
          assert Serve(s, all[..i - 1 + 1]) == Serve(t, ws[..i - 1]);
        }
      }
    }
    if forall i :: 0 <= i < |all| ==> ReplyTo(Serve(s, all[..i]), all[i]).success {
      forall i | 0 <= i < |ws| ensures ReplyTo(Serve(t, ws[..i]), ws[i]).success {
        assert ReplyTo(Serve(s, all[..i + 1]), all[i + 1]).success;
      }
    }
  }

  /** A bulk write does what its single writes do, up to the first rejected one, and succeeds exactly if none is. */
  lemma {:induction false} BulkWriteIsWrites(s: State, oids: seq<ObjectId>, objs: seq<Blob>) returns (n: nat)
    ensures var ws := Writes(oids, objs);
      && ServedUpTo(s, ws, n)
      && StateAfter(s, WriteBulk(oids, objs)) == Serve(s, ws[..n])
      && (ReplyTo(s, WriteBulk(oids, objs)).success <==>
            forall i :: 0 <= i < |ws| ==> ReplyTo(Serve(s, ws[..i]), ws[i]).success)
      && ReplyTo(s, WriteBulk(oids, objs)).error ==
           (if ReplyTo(s, WriteBulk(oids, objs)).success then NoError else ServerMemoryError)
    decreases |oids|
  {
    hide DoWrite, Serve;
    var ws := Writes(oids, objs);
    ServeNothing(s);
    if oids == [] || objs == [] {
      n := 0;
      assert ws[..0] == [];
    } else {
      var w := Write(oids[0], objs[0]);
      var rest := Writes(oids[1..], objs[1..]);
      assert ws == [w] + rest && ws[..0] == [];
      if !ReplyTo(s, w).success {
        n := 1;
        assert ws[..1] == [w] + [];
        ServeCons(s, w, []);
        ServeNothing(StateAfter(s, w));
        assert !ReplyTo(Serve(s, ws[..0]), ws[0]).success;
      } else {
        var t := StateAfter(s, w);
        var m := BulkWriteIsWrites(t, oids[1..], objs[1..]);
        n := m + 1;
        ServedCons(s, w, rest, m);
        assert ws[..n] == [w] + rest[..m];
        ServeCons(s, w, rest[..m]);
        ShiftedReplies(s, w, rest);
      }
    }
  }

  /** A successful bulk write of distinct ids leaves each object under its id and all else as it was. */
  lemma {:induction false} BulkWriteStores(s: State, oids: seq<ObjectId>, objs: seq<Blob>)
    requires |oids| == |objs| && NoDup(oids) && DoWrites(s, oids, objs).ok
    ensures var mem := DoWrites(s, oids, objs).state.mem;
      && (forall i :: 0 <= i < |oids| ==> oids[i] in mem && mem[oids[i]] == objs[i])
      && (forall k :: k !in oids ==> (k in mem <==> k in s.mem) && (k in mem ==> mem[k] == s.mem[k]))
    decreases |oids|
  {
    if oids != [] {
      var w := DoWrite(s, oids[0], objs[0]);
      BulkWriteStores(w.state, oids[1..], objs[1..]);
      assert oids[0] !in oids[1..];
      var mem := DoWrites(s, oids, objs).state.mem;
      forall i | 0 <= i < |oids| ensures oids[i] in mem && mem[oids[i]] == objs[i] {
        if i > 0 {
          assert oids[i] == oids[1..][i - 1];
        }
      }
    }
  }

  function Zeros(n: u32): (r: Blob)
    ensures |r| == n
  {
    seq(n, _ => 0)
  }

  /** A rejected overwrite makes room that is not there: the server then stores more than its pool. */
  lemma RejectedOverwriteOvercommits()
    ensures var s := Serve(State(map[], 0, 10), [Write(1, Zeros(8)), Write(1, Zeros(11)), Write(2, Zeros(10))]);
      Total(s.mem) == 18 > s.poolSize
  {
    var rs := [Write(1, Zeros(8)), Write(1, Zeros(11)), Write(2, Zeros(10))];
    var s0 := State(map[], 0, 10);
    assert rs[..2] == [Write(1, Zeros(8)), Write(1, Zeros(11))];
    assert rs[..2][..1] == [Write(1, Zeros(8))] && rs[..2][..1][..0] == [];
    var s1 := StateAfter(s0, rs[0]);
    var s2 := StateAfter(s1, rs[1]);
    var s3 := StateAfter(s2, rs[2]);
    assert Serve(s0, rs[..2][..1]) == s1;
    assert Serve(s0, rs[..2]) == s2;
    assert Serve(s0, rs) == s3;
    TotalUpdate(s0.mem, 1, Zeros(8));
    assert s2.mem == s1.mem && s2.currSize == 0;
    TotalUpdate(s2.mem, 2, Zeros(10));
  }

  lemma FetchedNone(mem: Memory)
    ensures AllPresent(mem, []) && |EncodeBlobs(Fetched(mem, []))| == 0
  {
  }

  lemma FetchedSize(mem: Memory, oids: seq<ObjectId>, i: nat)
    requires i < |oids| && AllPresent(mem, oids[..i]) && oids[i] in mem
    ensures AllPresent(mem, oids[..i + 1])
    ensures |EncodeBlobs(Fetched(mem, oids[..i + 1]))| == |EncodeBlobs(Fetched(mem, oids[..i]))| + 4 + |mem[oids[i]]|
  {
    assert Fetched(mem, oids[..i + 1]) == Fetched(mem, oids[..i]) + [mem[oids[i]]];
    EncodeBlobsSnoc(Fetched(mem, oids[..i]), mem[oids[i]]);
  }

  lemma AddMod32(a: nat, b: nat, c: nat)
    ensures ((a % TWO32 + b) % TWO32 + c) % TWO32 == (a + b + c) % TWO32
  {
  }

  lemma ReplyGrows(head: seq<Byte>, objs: seq<Blob>, i: nat, blob: Blob)
    requires i < |objs| && objs[i] == blob
    ensures (head + EncodeBlobs(objs[..i])) + (BigEndian(|blob|) + blob) == head + EncodeBlobs(objs[..i + 1])
    ensures |EncodeBlobs(objs[..i + 1])| == |EncodeBlobs(objs[..i])| + 4 + |blob|
  {
    hide EncodeBlobs, BigEndian;
    assert objs[..i + 1] == objs[..i] + [blob];
    EncodeBlobsSnoc(objs[..i], blob);
  }

  // ---- The server object ----

  class TCPServer {
    const poolSize: u64
    var mem: Memory
    var currSize: u64

    constructor (poolSize: u64)
      ensures Now() == State(map[], 0, poolSize)
    {
      this.poolSize := poolSize;
      mem := map[];
      currSize := 0;
    }

    ghost function Now(): State
      reads this
    {
      State(mem, currSize, poolSize)
    }

    method ProcessWrite(oid: ObjectId, data: Blob) returns (success: bool, error: ErrorCode)
      modifies this
      ensures Now() == StateAfter(old(Now()), Write(oid, data))
      ensures Reply(success, error, []) == ReplyTo(old(Now()), Write(oid, data))
    {
      success, error := true, NoError;
      if oid in mem {
        currSize := Sub64(currSize, |mem[oid]|);
      }
      if Add64(currSize, |data|) > poolSize {
        error := ServerMemoryError;
        success := false;
      } else {
        mem := mem[oid := data];
        currSize := Add64(currSize, |data|);
      }
    }

    method ProcessRead(oid: ObjectId) returns (success: bool, error: ErrorCode, data: seq<Blob>)
      ensures Reply(success, error, data) == ReplyTo(Now(), Read(oid))
      ensures Now() == StateAfter(Now(), Read(oid))
    {
      success, error, data := true, NoError, [];
      if oid !in mem {
        success := false;
        error := NoSuchIdError;
      }
      if success {
        data := [mem[oid]];
      }
    }

    method ProcessRemove(oid: ObjectId) returns (success: bool)
      modifies this
      ensures Now() == StateAfter(old(Now()), Remove(oid))
      ensures Reply(success, NoError, []) == ReplyTo(old(Now()), Remove(oid))
    {
      success := false;
      if oid in mem {
        currSize := Sub64(currSize, |mem[oid]|);
        mem := mem - {oid};
        success := true;
      }
    }

    /**
     * The cursor loop over the bytes of a bulk write leaves the store, the counter and the success flag
     * of single writes applied in order up to and including the first rejection. It reads past the end of
     * the bytes exactly when there are more ids than objects and no object is rejected.
     */
    method ProcessWriteBulk(oids: seq<ObjectId>, data: seq<Byte>, ghost objs: seq<Blob>)
      returns (success: bool, error: ErrorCode, overrun: bool)
      requires data == EncodeUnits(objs)
      modifies this
      ensures overrun <==> |oids| > |objs| && ReplyTo(old(Now()), WriteBulk(oids, objs)).success
      ensures !overrun ==> Now() == StateAfter(old(Now()), WriteBulk(oids, objs))
      ensures !overrun ==> Reply(success, error, []) == ReplyTo(old(Now()), WriteBulk(oids, objs))
    {
      hide EncodeUnits, UnitSize, Add64, Sub64;
      success, error, overrun := true, NoError, false;
      var ptr := 0;
      var i := 0;
      assert oids[0..] == oids && objs[0..] == objs && data[0..] == data;
      while i < |oids|
        invariant 0 <= i <= |oids| && i <= |objs| && success && error == NoError && !overrun
        invariant 0 <= ptr <= |data| && data[ptr..] == EncodeUnits(objs[i..])
        invariant DoWrites(Now(), oids[i..], objs[i..]) == DoWrites(old(Now()), oids, objs)
      {
        var oid := oids[i];
        ghost var before := Now();
        UnitsLeft(data, ptr, objs[i..]);
        if oid in mem {
          currSize := Sub64(currSize, |mem[oid]|);
        }
        if ptr == |data| {
          overrun := true;
          return;
        }
        UnitAt(data, ptr, objs[i..]);
        assert oids[i..][1..] == oids[i + 1..] && objs[i..][1..] == objs[i + 1..];
        var objSize := UnitSize(data[ptr..ptr + 8]);
        ptr := ptr + 8;
        if Add64(currSize, objSize) > poolSize {
          error := ServerMemoryError;
          success := false;
          assert Written(Now(), false) == DoWrite(before, oid, objs[i]);
          return;
        }
        mem := mem[oid := data[ptr..ptr + objSize]];
        currSize := Add64(currSize, objSize);
        assert Written(Now(), true) == DoWrite(before, oid, objs[i]);
        ptr := ptr + objSize;
        i := i + 1;
      }
      assert oids[i..] == [];
    }

    /**
     * Two passes: the first adds up the reply's size in 32 bits and fails at the first absent id; the
     * second writes the reply into a buffer of that size, and fills it exactly. It writes past the end of
     * the buffer exactly when the reply has 2^32 bytes or more.
     */
    method ProcessReadBulk(oids: seq<ObjectId>)
      returns (success: bool, error: ErrorCode, data: seq<Byte>, overrun: bool)
      requires |oids| < TWO32
      ensures var reply := ReplyTo(Now(), ReadBulk(oids));
        && success == reply.success && error == reply.error
        && (overrun <==> success && 4 + |EncodeBlobs(reply.data)| >= TWO32)
        && (success && !overrun ==> |reply.data| < TWO32 && data == ReadPayload(reply.data))
      ensures !success ==> data == []
    {
      hide EncodeBlobs, Fetched;
      success, error, data, overrun := true, NoError, [], false;
      FetchedNone(mem);
      assert oids[..0] == [];
      var dataSize: u32 := 4;
      var i := 0;
      while i < |oids|
        invariant 0 <= i <= |oids| && success
        invariant AllPresent(mem, oids[..i])
        invariant dataSize == (4 + |EncodeBlobs(Fetched(mem, oids[..i]))|) % TWO32
      {
        if oids[i] !in mem {
          success, error := false, NoSuchIdError;
          return;
        }
        FetchedSize(mem, oids, i);
        AddMod32(4 + |EncodeBlobs(Fetched(mem, oids[..i]))|, 4, |mem[oids[i]]|);
        dataSize := (dataSize + 4) % TWO32;
        dataSize := (dataSize + |mem[oids[i]]|) % TWO32;
        i := i + 1;
      }
      assert oids[..i] == oids;
      data, overrun := FillReply(oids, dataSize);
    }

    method FillReply(oids: seq<ObjectId>, dataSize: u32) returns (data: seq<Byte>, overrun: bool)
      requires AllPresent(mem, oids) && |oids| < TWO32
      ensures overrun <==> dataSize < 4 + |EncodeBlobs(Fetched(mem, oids))|
      ensures dataSize == 4 + |EncodeBlobs(Fetched(mem, oids))| ==> data == ReadPayload(Fetched(mem, oids))
    {
      hide EncodeBlobs, BigEndian, LittleEndian, Fetched;
      data, overrun := [], false;
      var buffer := new Byte[dataSize];
      if dataSize < 4 {
        return [], true;
      }
      CopyInto(buffer, 0, LittleEndian(|oids|));
      var raw := 4;
      ghost var objs := Fetched(mem, oids);
      EncodeBlobsNil();
      assert objs[..0] == [] && LittleEndian(|oids|) + [] == LittleEndian(|oids|);
      for i := 0 to |oids|
        invariant raw == 4 + |EncodeBlobs(objs[..i])| <= buffer.Length
        invariant buffer[..raw] == LittleEndian(|oids|) + EncodeBlobs(objs[..i])
      {
        var blob := mem[oids[i]];
        EncodeBlobsPrefix(objs, i + 1);
        ReplyGrows(LittleEndian(|oids|), objs, i, blob);
        if raw + 4 + |blob| > dataSize {
          return [], true;
        }
        raw := CopyWithHeader(buffer, raw, BigEndian(|blob|), blob);
      }
      assert objs[..|oids|] == objs;
      data := buffer[..];
      assert raw == dataSize ==> data == buffer[..raw];
    }
  }

  // ---- The bulk calls of the object store, end to end ----

  /**
   * `get_bulk_fast`: the values a single get would return for each id, or the error if one is absent; the server
   * overruns its buffer exactly on replies of 2^32 bytes or more.
   */
  method GetBulkFast<T>(server: TCPServer, oids: seq<ObjectId>, deserialize: Blob -> T)
    returns (r: Option<seq<T>>, overrun: bool)
    requires |oids| < TWO32
    ensures overrun <==>
      AllPresent(server.mem, oids) && 4 + |EncodeBlobs(Fetched(server.mem, oids))| >= TWO32
    ensures !overrun ==> (r.None? <==> exists i :: 0 <= i < |oids| && oids[i] !in server.mem)
    ensures r.Some? ==> |r.value| == |oids| && forall i :: 0 <= i < |oids| ==>
      r.value[i] == deserialize(server.mem[oids[i]])
  {
    var success, _, data, past := server.ProcessReadBulk(oids);
    if !success || past {
      return None, past;
    }
    var res := ParseReadPayload(data, deserialize, Fetched(server.mem, oids));
    return Some(res), false;
  }

  /**
   * `put_bulk_fast`: leaves the server as single puts in order would, up to the first rejected one; the server
   * reads past the message exactly when there are more ids than objects and none is rejected.
   */
  method PutBulkFast<T>(server: TCPServer, oids: seq<ObjectId>, objs: seq<T>, serialize: T -> Blob)
    returns (success: bool, overrun: bool)
    requires |EncodeUnits(MapSeq(serialize, objs))| < TWO64
    modifies server
    ensures overrun <==> |oids| > |objs| && DoWrites(old(server.Now()), oids, MapSeq(serialize, objs)).ok
    ensures !overrun ==> Written(server.Now(), success) == DoWrites(old(server.Now()), oids, MapSeq(serialize, objs))
    ensures success && !overrun && |oids| == |objs| && NoDup(oids) ==>
      forall i :: 0 <= i < |oids| ==> oids[i] in server.mem && server.mem[oids[i]] == serialize(objs[i])
  {
    var blobs := MapSeq(serialize, objs);
    var size := SizeOfUnits(blobs);
    var mem := new Byte[size];
    SerializeUnits(blobs, mem);
    var ok, _, past := server.ProcessWriteBulk(oids, mem[..], blobs);
    if ok && !past && |oids| == |objs| && NoDup(oids) {
      BulkWriteStores(old(server.Now()), oids, blobs);
    }
    return ok, past;
  }
}
