/**
 * Peer fetch: read_from_one and read_from_other_sheeps.  Candidates are
 * enumerated with obj_to_sheep over the node list build_node_list built;
 * a failed connect, a failed exchange or an unexpected result moves on to
 * the next candidate, and a stale/premature-epoch reply rebuilds the list
 * and restarts from candidate 0.
 *
 * Everything the loop learns from outside is an input: obj_to_sheep, as a
 * function of the node list, the oid and the candidate number; and for the
 * p-th build of the node list, the cluster epoch and list it sees and what
 * each candidate answers.  exec_req is represented by its contract on the
 * buffer and *rlen (Stored, RlenAfter).  The source restarts without bound;
 * here the builds are a finite sequence, and a restart wanted after the
 * last one leaves the fetch Waiting.
 */
module PeerFetch {
  import opened SheepProto

  /** The request header read_from_one sends. */
  datatype PeerRequest = PeerRequest(
    opcode: uint32, oid: uint64, epoch: uint32, flags: bv32, dataLength: uint32, offset: uint64)

  /**
   * One candidate's outcome: connect_to failed, or exec_req ran; `failed` is
   * its non-zero return, `result` the reply's result code, `rlen` the value
   * it reports for *rlen and `data` the bytes it received for buf.
   */
  datatype Exchange =
    | ConnectFailed
    | Exchanged(failed: bool, result: uint32, rlen: uint32, data: seq<uint8>)

  /**
   * One build of the node list: the cluster view it was built from, and
   * what the i-th candidate obj_to_sheep picks in it answers.
   */
  datatype Build = Build(view: ClusterView, replies: seq<Exchange>) {
    predicate Valid() {
      |replies| == |view.nodes|
    }
  }

  /**
   * Placement of an oid on a node list: obj_to_sheep(e, nr, oid, i) as a
   * function of (e, oid, i), naming an entry of the list it is given.
   */
  type Placement = place: (seq<NodeEntry>, uint64, nat) -> nat
    | forall nodes: seq<NodeEntry>, oid: uint64, i: nat :: i < |nodes| ==> place(nodes, oid, i) < |nodes|
    witness (nodes: seq<NodeEntry>, oid: uint64, i: nat) => 0

  /** obj_to_sheep, and the builds the fetch may see: the first, then one per restart. */
  datatype FetchEnv = FetchEnv(objToSheep: Placement, builds: seq<Build>)

  predicate WellFormed(env: FetchEnv) {
    |env.builds| > 0 && forall p :: 0 <= p < |env.builds| ==> env.builds[p].Valid()
  }

  /**
   * One pass through the loop body: which candidate, the *rlen it was
   * asked with, what was sent and what came back.
   */
  datatype Attempt = Attempt(pass: nat, index: nat, node: NodeEntry, rlen: uint32, sent: Option<PeerRequest>, reply: Exchange)

  datatype FetchStatus =
    | Fetched    // read_from_one returns 0
    | Exhausted  // read_from_one returns -1
    | Waiting    // a restart was due after the last build: the source is still retrying

  datatype FetchRun = FetchRun(status: FetchStatus, buf: seq<uint8>, rlen: uint32, log: seq<Attempt>)

  predicate IsSuccess(x: Exchange) {
    x.Exchanged? && !x.failed && x.result == SD_RES_SUCCESS
  }

  predicate IsVersionMismatch(x: Exchange) {
    x.Exchanged? && !x.failed && (x.result == SD_RES_OLD_NODE_VER || x.result == SD_RES_NEW_NODE_VER)
  }

  /** Outcomes that move on to the next candidate. */
  predicate IsSkip(x: Exchange) {
    !IsSuccess(x) && !IsVersionMismatch(x)
  }

  function Min(a: int, b: int): int {
    if a <= b then a else b
  }

  /**
   * exec_req's contract on *rlen and buf: it stores at most *rlen bytes at
   * the start of buf and never raises *rlen.  A failed connect stores nothing.
   */
  function Stored(x: Exchange, rlen: uint32): (d: seq<uint8>)
    ensures |d| <= rlen && (x.Exchanged? ==> |d| <= |x.data| && d == x.data[..|d|])
    ensures x.ConnectFailed? ==> d == []
  {
    if x.ConnectFailed? then [] else x.data[..Min(|x.data|, rlen)]
  }

  function RlenAfter(x: Exchange, rlen: uint32): (r: uint32)
    ensures r <= rlen && (x.ConnectFailed? ==> r == rlen)
  {
    if x.ConnectFailed? then rlen else Min(x.rlen, rlen)
  }

  /** The received bytes overwrite the start of the buffer. */
  function Receive(buf: seq<uint8>, data: seq<uint8>): (r: seq<uint8>)
    requires |data| <= |buf|
    ensures |r| == |buf| && r[..|data|] == data && r[|data|..] == buf[|data|..]
    ensures data == [] ==> r == buf
  {
    data + buf[|data|..]
  }

  /** The request sent to a candidate, None when connect_to failed. */
  function Sent(env: FetchEnv, oid: uint64, offset: uint64, p: nat, rlen: uint32, x: Exchange): Option<PeerRequest>
    requires p < |env.builds|
  {
    if x.ConnectFailed? then None
    else Some(PeerRequest(SD_OP_READ_OBJ, oid, env.builds[p].view.epoch, 0, rlen, offset))
  }

  /** Where the enumeration goes after an attempt that neither succeeded nor stopped the fetch. */
  function NextPass(x: Exchange, p: nat): nat {
    if IsVersionMismatch(x) then p + 1 else p
  }

  function NextIndex(x: Exchange, i: nat): nat {
    if IsVersionMismatch(x) then 0 else i + 1
  }

  /** The attempt on candidate `i` of pass `p` while *rlen is `rlen`. */
  function AttemptAt(env: FetchEnv, oid: uint64, offset: uint64, p: nat, i: nat, rlen: uint32): Attempt
    requires WellFormed(env) && p < |env.builds| && i < |env.builds[p].view.nodes|
  {
    var b := env.builds[p];
    var n := env.objToSheep(b.view.nodes, oid, i);
    Attempt(p, i, b.view.nodes[n], rlen, Sent(env, oid, offset, p, rlen, b.replies[i]), b.replies[i])
  }

  /**
   * The fetch from candidate `i` of pass `p` on: the reference behaviour of
   * the read_from_one loop, with `rlen` the current *rlen and `buf` the
   * buffer's current contents.
   */
  ghost function Run(env: FetchEnv, oid: uint64, offset: uint64, p: nat, i: nat, rlen: uint32, buf: seq<uint8>): (r: FetchRun)
    requires WellFormed(env) && p < |env.builds| && i <= |env.builds[p].view.nodes| && rlen <= |buf|
    ensures |r.buf| == |buf| && r.rlen <= rlen
    decreases |env.builds| - p, |env.builds[p].view.nodes| - i
  {
    var b := env.builds[p];
    if i == |b.view.nodes| then FetchRun(Exhausted, buf, rlen, [])
    else
      var x := b.replies[i];
      var a := AttemptAt(env, oid, offset, p, i, rlen);
      var buf', rlen' := Receive(buf, Stored(x, rlen)), RlenAfter(x, rlen);
      if IsSuccess(x) then FetchRun(Fetched, buf', rlen', [a])
      else if IsVersionMismatch(x) && p + 1 == |env.builds| then FetchRun(Waiting, buf', rlen', [a])
      else
        var rest := Run(env, oid, offset, NextPass(x, p), NextIndex(x, i), rlen', buf');
        FetchRun(rest.status, rest.buf, rest.rlen, [a] + rest.log)
  }

  /**
   * What every attempt looks like: the candidate is the one obj_to_sheep
   * picks in the list of its pass, a request is sent exactly when the
   * connect succeeded, the reply is the one that candidate gave, and every
   * request is SD_OP_READ_OBJ for `oid` at `offset` with flags 0 and the
   * epoch of its pass.
   */
  ghost predicate AttemptFits(env: FetchEnv, oid: uint64, offset: uint64, a: Attempt)
    requires WellFormed(env)
  {
    && a.pass < |env.builds|
    && a.index < |env.builds[a.pass].view.nodes|
    && a.node == env.builds[a.pass].view.nodes[env.objToSheep(env.builds[a.pass].view.nodes, oid, a.index)]
    && a.reply == env.builds[a.pass].replies[a.index]
    && (a.sent.None? <==> a.reply.ConnectFailed?)
    && (a.sent.Some? ==>
          && a.sent.value.opcode == SD_OP_READ_OBJ && a.sent.value.oid == oid
          && a.sent.value.epoch == env.builds[a.pass].view.epoch && a.sent.value.flags == 0
          && a.sent.value.offset == offset)
  }

  /** Every attempt of `log` fits, and none comes from a pass before `p`. */
  ghost predicate AllFit(env: FetchEnv, oid: uint64, offset: uint64, p: nat, log: seq<Attempt>)
    requires WellFormed(env)
  {
    forall k :: 0 <= k < |log| ==> p <= log[k].pass && AttemptFits(env, oid, offset, log[k])
  }

  lemma AttemptAtFits(env: FetchEnv, oid: uint64, offset: uint64, p: nat, i: nat, rlen: uint32)
    requires WellFormed(env) && p < |env.builds| && i < |env.builds[p].view.nodes|
    ensures AttemptFits(env, oid, offset, AttemptAt(env, oid, offset, p, i, rlen))
  {
  }

  lemma AllFitCons(env: FetchEnv, oid: uint64, offset: uint64, p: nat, q: nat, a: Attempt, rest: seq<Attempt>)
    requires WellFormed(env) && p <= a.pass && p <= q
    requires AttemptFits(env, oid, offset, a) && AllFit(env, oid, offset, q, rest)
    ensures AllFit(env, oid, offset, p, [a] + rest)
  {
    var log := [a] + rest;
    forall k | 0 <= k < |log|
      ensures p <= log[k].pass && AttemptFits(env, oid, offset, log[k])
    {
      if k > 0 {
        assert log[k] == rest[k - 1];
      }
    }
  }

  lemma {:induction false} RunAttemptsFit(env: FetchEnv, oid: uint64, offset: uint64, p: nat, i: nat, rlen: uint32, buf: seq<uint8>)
    requires WellFormed(env) && p < |env.builds| && i <= |env.builds[p].view.nodes| && rlen <= |buf|
    ensures AllFit(env, oid, offset, p, Run(env, oid, offset, p, i, rlen, buf).log)
    decreases |env.builds| - p, |env.builds[p].view.nodes| - i
  {
    var b := env.builds[p];
    if i < |b.view.nodes| {
      var x := b.replies[i];
      var a := AttemptAt(env, oid, offset, p, i, rlen);
      AttemptAtFits(env, oid, offset, p, i, rlen);
      if !IsSuccess(x) && !(IsVersionMismatch(x) && p + 1 == |env.builds|) {
        var rlen', buf' := RlenAfter(x, rlen), Receive(buf, Stored(x, rlen));
        var rest := Run(env, oid, offset, NextPass(x, p), NextIndex(x, i), rlen', buf');
        RunAttemptsFit(env, oid, offset, NextPass(x, p), NextIndex(x, i), rlen', buf');
        AllFitCons(env, oid, offset, p, NextPass(x, p), a, rest.log);
      } else {
        AllFitCons(env, oid, offset, p, p, a, []);
      }
    }
  }

  /**
   * *rlen threads through `log`, from `rlen` to `final`: the first attempt
   * is made with `rlen`, each later one with what the exchange before it
   * left (a skipped reply lowers it too), every request sent asks for the
   * *rlen of its attempt, none asks for more than `rlen`, and `final` is
   * what the last exchange left.
   */
  predicate Threaded(log: seq<Attempt>, rlen: uint32, final: uint32) {
    && (log != [] ==> log[0].rlen == rlen)
    && (forall k :: 0 <= k < |log| - 1 ==> log[k + 1].rlen == RlenAfter(log[k].reply, log[k].rlen))
    && (forall k :: 0 <= k < |log| ==>
          log[k].rlen <= rlen && (log[k].sent.Some? ==> log[k].sent.value.dataLength == log[k].rlen))
    && final == (if log == [] then rlen else RlenAfter(log[|log| - 1].reply, log[|log| - 1].rlen))
  }

  /** The fetch threads *rlen through its attempts from the *rlen it started with. */
  lemma {:induction false} RunRequestLengths(env: FetchEnv, oid: uint64, offset: uint64, p: nat, i: nat, rlen: uint32, buf: seq<uint8>)
    requires WellFormed(env) && p < |env.builds| && i <= |env.builds[p].view.nodes| && rlen <= |buf|
    ensures var r := Run(env, oid, offset, p, i, rlen, buf);
      Threaded(r.log, rlen, r.rlen)
    decreases |env.builds| - p, |env.builds[p].view.nodes| - i
  {
    var b := env.builds[p];
    if i < |b.view.nodes| {
      var x := b.replies[i];
      var a := AttemptAt(env, oid, offset, p, i, rlen);
      assert a.reply == x && a.rlen == rlen && (a.sent.Some? ==> a.sent.value.dataLength == rlen);
      if !IsSuccess(x) && !(IsVersionMismatch(x) && p + 1 == |env.builds|) {
        var rlen', buf' := RlenAfter(x, rlen), Receive(buf, Stored(x, rlen));
        var rest := Run(env, oid, offset, NextPass(x, p), NextIndex(x, i), rlen', buf');
        RunRequestLengths(env, oid, offset, NextPass(x, p), NextIndex(x, i), rlen', buf');
        ThreadedCons(a, rest.log, rlen, rest.rlen);
      } else {
        ThreadedCons(a, [], rlen, RlenAfter(x, rlen));
      }
    }
  }

  lemma ThreadedCons(a: Attempt, rest: seq<Attempt>, rlen: uint32, final: uint32)
    requires a.rlen == rlen && (a.sent.Some? ==> a.sent.value.dataLength == rlen)
    requires rest == [] ==> final == RlenAfter(a.reply, rlen)
    requires rest != [] ==> Threaded(rest, RlenAfter(a.reply, rlen), final)
    ensures Threaded([a] + rest, rlen, final)
  {
    var log := [a] + rest;
    forall k | 0 <= k < |log| - 1
      ensures log[k + 1].rlen == RlenAfter(log[k].reply, log[k].rlen)
    {
      if k > 0 {
        assert log[k] == rest[k - 1] && log[k + 1] == rest[k];
      }
    }
    forall k | 0 <= k < |log|
      ensures log[k].rlen <= rlen && (log[k].sent.Some? ==> log[k].sent.value.dataLength == log[k].rlen)
    {
      if k > 0 {
        assert log[k] == rest[k - 1];
      }
    }
    if rest != [] {
      assert log[|log| - 1] == rest[|rest| - 1];
    }
  }

  /** The bytes an attempt stored at the start of the buffer. */
  function StoredLength(a: Attempt): nat {
    |Stored(a.reply, a.rlen)|
  }

  /** The longest prefix of the buffer any attempt of `log` wrote. */
  function Reach(log: seq<Attempt>): nat {
    if log == [] then 0
    else var m := Reach(log[1..]); if StoredLength(log[0]) <= m then m else StoredLength(log[0])
  }

  /**
   * The buffer is never cleared: every byte beyond the longest prefix an
   * exchange wrote keeps the value it had when the fetch started.
   */
  lemma {:induction false} RunKeepsUnreached(env: FetchEnv, oid: uint64, offset: uint64, p: nat, i: nat, rlen: uint32, buf: seq<uint8>)
    requires WellFormed(env) && p < |env.builds| && i <= |env.builds[p].view.nodes| && rlen <= |buf|
    ensures var r := Run(env, oid, offset, p, i, rlen, buf);
      forall k :: Reach(r.log) <= k < |buf| ==> r.buf[k] == buf[k]
    decreases |env.builds| - p, |env.builds[p].view.nodes| - i
  {
    var b := env.builds[p];
    if i < |b.view.nodes| {
      var x := b.replies[i];
      var a := AttemptAt(env, oid, offset, p, i, rlen);
      assert a.reply == x && a.rlen == rlen;
      var d := Stored(x, rlen);
      var buf' := Receive(buf, d);
      assert forall k :: |d| <= k < |buf| ==> buf'[k] == buf[k];
      if !IsSuccess(x) && !(IsVersionMismatch(x) && p + 1 == |env.builds|) {
        var rest := Run(env, oid, offset, NextPass(x, p), NextIndex(x, i), RlenAfter(x, rlen), buf');
        RunKeepsUnreached(env, oid, offset, NextPass(x, p), NextIndex(x, i), RlenAfter(x, rlen), buf');
        ReachCons(a, rest.log);
      } else {
        ReachCons(a, []);
      }
    }
  }

  lemma ReachCons(a: Attempt, rest: seq<Attempt>)
    ensures Reach([a] + rest) >= StoredLength(a) && Reach([a] + rest) >= Reach(rest)
  {
    assert ([a] + rest)[1..] == rest;
  }

  /**
   * The order of attempts: a version mismatch moves to candidate 0 of the
   * next (rebuilt) list; anything else but success moves to the next
   * candidate of the same list.
   */
  predicate Follows(a: Attempt, b: Attempt) {
    b.pass == NextPass(a.reply, a.pass) && b.index == NextIndex(a.reply, a.index)
  }

  lemma {:induction false} RunAttemptOrder(env: FetchEnv, oid: uint64, offset: uint64, p: nat, i: nat, rlen: uint32, buf: seq<uint8>)
    requires WellFormed(env) && p < |env.builds| && i <= |env.builds[p].view.nodes| && rlen <= |buf|
    ensures var r := Run(env, oid, offset, p, i, rlen, buf);
      && (r.log == [] <==> i == |env.builds[p].view.nodes|)
      && (r.log != [] ==> r.log[0].pass == p && r.log[0].index == i)
      && (forall k :: 0 <= k < |r.log| - 1 ==> !IsSuccess(r.log[k].reply) && Follows(r.log[k], r.log[k + 1]))
    decreases |env.builds| - p, |env.builds[p].view.nodes| - i
  {
    var b := env.builds[p];
    if i < |b.view.nodes| {
      var x := b.replies[i];
      if !IsSuccess(x) && !(IsVersionMismatch(x) && p + 1 == |env.builds|) {
        var rlen', buf' := RlenAfter(x, rlen), Receive(buf, Stored(x, rlen));
        RunAttemptOrder(env, oid, offset, NextPass(x, p), NextIndex(x, i), rlen', buf');
      }
    }
  }

  /** The last attempt of a non-empty log. */
  function Last(log: seq<Attempt>): Attempt
    requires log != []
  {
    log[|log| - 1]
  }

  lemma LastOfCons(a: Attempt, rest: seq<Attempt>)
    requires rest != []
    ensures Last([a] + rest) == Last(rest)
  {
  }

  /** 0 (Fetched) exactly when the last attempt got SD_RES_SUCCESS. */
  lemma {:induction false} RunFetched(env: FetchEnv, oid: uint64, offset: uint64, p: nat, i: nat, rlen: uint32, buf: seq<uint8>)
    requires WellFormed(env) && p < |env.builds| && i <= |env.builds[p].view.nodes| && rlen <= |buf|
    ensures var r := Run(env, oid, offset, p, i, rlen, buf);
      r.status == Fetched <==> r.log != [] && IsSuccess(Last(r.log).reply)
    decreases |env.builds| - p, |env.builds[p].view.nodes| - i
  {
    var b := env.builds[p];
    if i < |b.view.nodes| {
      var x := b.replies[i];
      if !IsSuccess(x) && !(IsVersionMismatch(x) && p + 1 == |env.builds|) {
        var rlen', buf' := RlenAfter(x, rlen), Receive(buf, Stored(x, rlen));
        var rest := Run(env, oid, offset, NextPass(x, p), NextIndex(x, i), rlen', buf');
        RunFetched(env, oid, offset, NextPass(x, p), NextIndex(x, i), rlen', buf');
        var a := AttemptAt(env, oid, offset, p, i, rlen);
        if rest.log != [] {
          LastOfCons(a, rest.log);
        }
      }
    }
  }

  /**
   * When the fetch succeeds, the bytes the successful reply stored start
   * the buffer and *rlen is what that reply left: the requested length
   * lowered to the reply's.
   */
  lemma {:induction false} RunFetchedData(env: FetchEnv, oid: uint64, offset: uint64, p: nat, i: nat, rlen: uint32, buf: seq<uint8>)
    requires WellFormed(env) && p < |env.builds| && i <= |env.builds[p].view.nodes| && rlen <= |buf|
    ensures var r := Run(env, oid, offset, p, i, rlen, buf);
      r.status == Fetched ==>
        && r.log != [] && Last(r.log).sent.Some? && Last(r.log).sent.value.dataLength <= rlen
        && var d := Stored(Last(r.log).reply, Last(r.log).sent.value.dataLength);
        r.buf[..|d|] == d && r.rlen == RlenAfter(Last(r.log).reply, Last(r.log).sent.value.dataLength)
    decreases |env.builds| - p, |env.builds[p].view.nodes| - i
  {
    var b := env.builds[p];
    if i < |b.view.nodes| {
      var x := b.replies[i];
      if !IsSuccess(x) && !(IsVersionMismatch(x) && p + 1 == |env.builds|) {
        var rlen', buf' := RlenAfter(x, rlen), Receive(buf, Stored(x, rlen));
        var rest := Run(env, oid, offset, NextPass(x, p), NextIndex(x, i), rlen', buf');
        RunFetchedData(env, oid, offset, NextPass(x, p), NextIndex(x, i), rlen', buf');
        var a := AttemptAt(env, oid, offset, p, i, rlen);
        if rest.log != [] {
          LastOfCons(a, rest.log);
        }
      }
    }
  }

  /** Waiting exactly when the last attempt got a version mismatch in the last build. */
  lemma {:induction false} RunWaiting(env: FetchEnv, oid: uint64, offset: uint64, p: nat, i: nat, rlen: uint32, buf: seq<uint8>)
    requires WellFormed(env) && p < |env.builds| && i <= |env.builds[p].view.nodes| && rlen <= |buf|
    ensures var r := Run(env, oid, offset, p, i, rlen, buf);
      r.status == Waiting <==>
        r.log != [] && IsVersionMismatch(Last(r.log).reply) && Last(r.log).pass + 1 == |env.builds|
    decreases |env.builds| - p, |env.builds[p].view.nodes| - i
  {
    var b := env.builds[p];
    if i < |b.view.nodes| {
      var x := b.replies[i];
      if !IsSuccess(x) && !(IsVersionMismatch(x) && p + 1 == |env.builds|) {
        var rlen', buf' := RlenAfter(x, rlen), Receive(buf, Stored(x, rlen));
        var rest := Run(env, oid, offset, NextPass(x, p), NextIndex(x, i), rlen', buf');
        RunWaiting(env, oid, offset, NextPass(x, p), NextIndex(x, i), rlen', buf');
        var a := AttemptAt(env, oid, offset, p, i, rlen);
        if rest.log != [] {
          LastOfCons(a, rest.log);
        }
      }
    }
  }

  /** The attempt leaves no candidate to try: the end of its list, or a restart onto an empty list. */
  ghost predicate ExhaustsList(env: FetchEnv, a: Attempt) {
    || (IsSkip(a.reply) && a.pass < |env.builds| && a.index + 1 == |env.builds[a.pass].view.nodes|)
    || (IsVersionMismatch(a.reply) && a.pass + 1 < |env.builds| && env.builds[a.pass + 1].view.nodes == [])
  }

  /**
   * -1 (Exhausted) only when the candidates of the current list ran out:
   * no attempt was made because the list was empty from candidate i on
   * (nr == 0 included), or the last attempt was skipped at the list's last
   * candidate, or it got a version mismatch and the rebuilt list is empty.
   */
  lemma {:induction false} RunExhausted(env: FetchEnv, oid: uint64, offset: uint64, p: nat, i: nat, rlen: uint32, buf: seq<uint8>)
    requires WellFormed(env) && p < |env.builds| && i <= |env.builds[p].view.nodes| && rlen <= |buf|
    ensures var r := Run(env, oid, offset, p, i, rlen, buf);
      r.status == Exhausted ==>
        || (r.log == [] && i == |env.builds[p].view.nodes|)
        || (r.log != [] && ExhaustsList(env, Last(r.log)))
    decreases |env.builds| - p, |env.builds[p].view.nodes| - i
  {
    var b := env.builds[p];
    if i < |b.view.nodes| {
      var x := b.replies[i];
      if !IsSuccess(x) && !(IsVersionMismatch(x) && p + 1 == |env.builds|) {
        var rlen', buf' := RlenAfter(x, rlen), Receive(buf, Stored(x, rlen));
        var rest := Run(env, oid, offset, NextPass(x, p), NextIndex(x, i), rlen', buf');
        RunExhausted(env, oid, offset, NextPass(x, p), NextIndex(x, i), rlen', buf');
        var a := AttemptAt(env, oid, offset, p, i, rlen);
        if rest.log != [] {
          LastOfCons(a, rest.log);
        }
      }
    }
  }

  /** A run whose attempts are preceded by `log`. */
  function Prefixed(log: seq<Attempt>, r: FetchRun): FetchRun {
    FetchRun(r.status, r.buf, r.rlen, log + r.log)
  }

  /**
   * One iteration of the loop, as the loop sees it: candidate `i` of pass
   * `p` either ends the fetch or hands over to the next candidate with the
   * attempt appended to the log.
   */
  lemma Step(env: FetchEnv, oid: uint64, offset: uint64, p: nat, i: nat, rlen: uint32, buf: seq<uint8>, log: seq<Attempt>)
    requires WellFormed(env) && p < |env.builds| && i < |env.builds[p].view.nodes| && rlen <= |buf|
    ensures var b := env.builds[p];
      var x := b.replies[i];
      var a := AttemptAt(env, oid, offset, p, i, rlen);
      var buf', rlen' := Receive(buf, Stored(x, rlen)), RlenAfter(x, rlen);
      var r := Prefixed(log, Run(env, oid, offset, p, i, rlen, buf));
      && (IsSuccess(x) ==> r == FetchRun(Fetched, buf', rlen', log + [a]))
      && (IsVersionMismatch(x) && p + 1 == |env.builds| ==> r == FetchRun(Waiting, buf', rlen', log + [a]))
      && (!IsSuccess(x) && !(IsVersionMismatch(x) && p + 1 == |env.builds|) ==>
            r == Prefixed(log + [a], Run(env, oid, offset, NextPass(x, p), NextIndex(x, i), rlen', buf')))
  {
    var b := env.builds[p];
    var x := b.replies[i];
    var a := AttemptAt(env, oid, offset, p, i, rlen);
    if !IsSuccess(x) && !(IsVersionMismatch(x) && p + 1 == |env.builds|) {
      var rest := Run(env, oid, offset, NextPass(x, p), NextIndex(x, i), RlenAfter(x, rlen), Receive(buf, Stored(x, rlen)));
      assert log + ([a] + rest.log) == (log + [a]) + rest.log;
    }
  }

  /** Every byte of `buf` outside the slot at `base` is as in `before`. */
  ghost predicate OutsideSlot(buf: array<uint8>, base: nat, before: seq<uint8>)
    reads buf
  {
    && |before| == buf.Length
    && (forall k :: 0 <= k < base && k < buf.Length ==> buf[k] == before[k])
    && (forall k :: base + SD_DATA_OBJ_SIZE <= k < buf.Length ==> buf[k] == before[k])
  }

  /**
   * `whole` is the fetch as a whole, of which the attempts in `log` were
   * made and the rest is the fetch from candidate `i` of pass `p` with
   * *rlen `rlen` and the buffer holding `slot`.
   */
  ghost predicate Remaining(env: FetchEnv, oid: uint64, offset: uint64, whole: FetchRun, log: seq<Attempt>,
                            p: nat, i: nat, rlen: uint32, slot: seq<uint8>)
  {
    && WellFormed(env) && p < |env.builds| && i <= |env.builds[p].view.nodes| && rlen <= |slot|
    && whole == Prefixed(log, Run(env, oid, offset, p, i, rlen, slot))
  }

  /** With no candidate left, the fetch ends Exhausted with the attempts made so far. */
  lemma NoneRemaining(env: FetchEnv, oid: uint64, offset: uint64, whole: FetchRun, log: seq<Attempt>,
                      p: nat, i: nat, rlen: uint32, slot: seq<uint8>)
    requires Remaining(env, oid, offset, whole, log, p, i, rlen, slot) && i == |env.builds[p].view.nodes|
    ensures whole == FetchRun(Exhausted, slot, rlen, log)
  {
    assert log + [] == log;
  }

  /**
   * read_from_one: fetch `oid` at `offset` into the slot
   * buf[base..base+SD_DATA_OBJ_SIZE], asking for `rlen` bytes.  Each turn
   * of the loop is one build of the node list at `again:`; `log` is the
   * sequence of attempts made.
   */
  method ReadFromOne(env: FetchEnv, oid: uint64, rlen: uint32, buf: array<uint8>, base: nat, offset: uint64)
    returns (status: FetchStatus, rlenOut: uint32, ghost log: seq<Attempt>)
    requires WellFormed(env)
    requires base + SD_DATA_OBJ_SIZE <= buf.Length && rlen <= SD_DATA_OBJ_SIZE
    modifies buf
    ensures Run(env, oid, offset, 0, 0, rlen, old(buf[base..base + SD_DATA_OBJ_SIZE]))
      == FetchRun(status, buf[base..base + SD_DATA_OBJ_SIZE], rlenOut, log)
    ensures forall k :: 0 <= k < base ==> buf[k] == old(buf[k])
    ensures forall k :: base + SD_DATA_OBJ_SIZE <= k < buf.Length ==> buf[k] == old(buf[k])
  {
    ghost var whole := Run(env, oid, offset, 0, 0, rlen, buf[base..base + SD_DATA_OBJ_SIZE]);
    ghost var before := buf[..];
    assert [] + whole.log == whole.log;
    var p := 0;
    rlenOut := rlen;
    log := [];
    while true
      invariant p < |env.builds| && rlenOut <= SD_DATA_OBJ_SIZE
      invariant Remaining(env, oid, offset, whole, log, p, 0, rlenOut, buf[base..base + SD_DATA_OBJ_SIZE])
      invariant OutsideSlot(buf, base, before)
      decreases |env.builds| - p
    {
      // again: nr = build_node_list(...)
      var end;
      end, rlenOut, log := TryCandidates(env, oid, offset, p, rlenOut, buf, base, log, whole);
      if end == Found {
        return Fetched, rlenOut, log;
      }
      if end == RanOut {
        return Exhausted, rlenOut, log;
      }
      // sleep(2); goto again
      if p + 1 == |env.builds| {
        return Waiting, rlenOut, log;
      }
      p := p + 1;
    }
  }

  /** How a pass over one node list ends. */
  datatype PassEnd =
    | Found    // a candidate answered SD_RES_SUCCESS
    | Restart  // a candidate reported a version mismatch: goto again
    | RanOut   // the for loop ran past the last candidate

  /**
   * The for loop of read_from_one over the candidates of build `p`: it
   * ends on success, on a version mismatch, or when the list is used up.
   */
  method TryCandidates(env: FetchEnv, oid: uint64, offset: uint64, p: nat, rlen: uint32, buf: array<uint8>, base: nat,
                       ghost log: seq<Attempt>, ghost whole: FetchRun)
    returns (end: PassEnd, rlenOut: uint32, ghost logOut: seq<Attempt>)
    requires WellFormed(env) && p < |env.builds|
    requires base + SD_DATA_OBJ_SIZE <= buf.Length && rlen <= SD_DATA_OBJ_SIZE
    requires Remaining(env, oid, offset, whole, log, p, 0, rlen, buf[base..base + SD_DATA_OBJ_SIZE])
    modifies buf
    ensures rlenOut <= SD_DATA_OBJ_SIZE
    ensures end == Found ==> whole == FetchRun(Fetched, buf[base..base + SD_DATA_OBJ_SIZE], rlenOut, logOut)
    ensures end == RanOut ==> whole == FetchRun(Exhausted, buf[base..base + SD_DATA_OBJ_SIZE], rlenOut, logOut)
    ensures end == Restart && p + 1 == |env.builds| ==>
      whole == FetchRun(Waiting, buf[base..base + SD_DATA_OBJ_SIZE], rlenOut, logOut)
    ensures end == Restart && p + 1 < |env.builds| ==>
      Remaining(env, oid, offset, whole, logOut, p + 1, 0, rlenOut, buf[base..base + SD_DATA_OBJ_SIZE])
    ensures forall before: seq<uint8> :: OutsideSlot(buf, base, before) <== old(OutsideSlot(buf, base, before))
  {
    var nr := |env.builds[p].view.nodes|;
    rlenOut := rlen;
    logOut := log;
    for i := 0 to nr
      invariant rlenOut <= SD_DATA_OBJ_SIZE
      invariant Remaining(env, oid, offset, whole, logOut, p, i, rlenOut, buf[base..base + SD_DATA_OBJ_SIZE])
      invariant forall before: seq<uint8> :: OutsideSlot(buf, base, before) <== old(OutsideSlot(buf, base, before))
    {
      var x;
      x, rlenOut, logOut := Contact(env, oid, offset, p, i, rlenOut, buf, base, logOut, whole);
      if x.Exchanged? && !x.failed {  // neither fd < 0 nor a failed exec_req
        if x.result == SD_RES_SUCCESS {
          return Found, rlenOut, logOut;
        }
        if x.result == SD_RES_OLD_NODE_VER || x.result == SD_RES_NEW_NODE_VER {
          return Restart, rlenOut, logOut;
        }
      }
    }
    NoneRemaining(env, oid, offset, whole, logOut, p, nr, rlenOut, buf[base..base + SD_DATA_OBJ_SIZE]);
    end := RanOut;
  }

  /**
   * One candidate: n = obj_to_sheep(e, nr, oid, i), connect_to e[n],
   * exec_req of the read request, and close.  The reply lands at the start
   * of the slot and *rlen is lowered; a failed connect leaves both
   * untouched.  The attempt is appended to `log`, and the fetch `whole`
   * that was still to come from candidate `i` on is either decided by
   * this reply or continues from the candidate it names.
   */
  method Contact(env: FetchEnv, oid: uint64, offset: uint64, p: nat, i: nat, rlen: uint32, buf: array<uint8>, base: nat,
                 ghost log: seq<Attempt>, ghost whole: FetchRun)
    returns (x: Exchange, rlenOut: uint32, ghost logOut: seq<Attempt>)
    requires WellFormed(env) && p < |env.builds| && i < |env.builds[p].view.nodes|
    requires base + SD_DATA_OBJ_SIZE <= buf.Length && rlen <= SD_DATA_OBJ_SIZE
    requires Remaining(env, oid, offset, whole, log, p, i, rlen, buf[base..base + SD_DATA_OBJ_SIZE])
    modifies buf
    ensures x == env.builds[p].replies[i] && rlenOut == RlenAfter(x, rlen)
    ensures logOut == log + [AttemptAt(env, oid, offset, p, i, rlen)]
    ensures buf[base..base + SD_DATA_OBJ_SIZE] == Receive(old(buf[base..base + SD_DATA_OBJ_SIZE]), Stored(x, rlen))
    ensures IsSuccess(x) ==> whole == FetchRun(Fetched, buf[base..base + SD_DATA_OBJ_SIZE], rlenOut, logOut)
    ensures IsVersionMismatch(x) && p + 1 == |env.builds| ==>
      whole == FetchRun(Waiting, buf[base..base + SD_DATA_OBJ_SIZE], rlenOut, logOut)
    ensures !IsSuccess(x) && !(IsVersionMismatch(x) && p + 1 == |env.builds|) ==>
      Remaining(env, oid, offset, whole, logOut, NextPass(x, p), NextIndex(x, i), rlenOut, buf[base..base + SD_DATA_OBJ_SIZE])
    ensures forall before: seq<uint8> :: OutsideSlot(buf, base, before) <== old(OutsideSlot(buf, base, before))
  {
    ghost var w := buf[base..base + SD_DATA_OBJ_SIZE];
    Step(env, oid, offset, p, i, rlen, w, log);
    logOut := log + [AttemptAt(env, oid, offset, p, i, rlen)];
    x := env.builds[p].replies[i];
    if x.ConnectFailed? {
      assert Receive(w, []) == w;
      return x, rlen, logOut;
    }
    Deliver(Stored(x, rlen), buf, base);
    rlenOut := RlenAfter(x, rlen);
  }

  /** exec_req's copy of the received bytes to the start of the slot. */
  method Deliver(data: seq<uint8>, buf: array<uint8>, base: nat)
    requires |data| <= SD_DATA_OBJ_SIZE && base + SD_DATA_OBJ_SIZE <= buf.Length
    modifies buf
    ensures buf[base..base + SD_DATA_OBJ_SIZE] == Receive(old(buf[base..base + SD_DATA_OBJ_SIZE]), data)
    ensures forall k :: 0 <= k < base ==> buf[k] == old(buf[k])
    ensures forall k :: base + SD_DATA_OBJ_SIZE <= k < buf.Length ==> buf[k] == old(buf[k])
  {
    forall k | 0 <= k < |data| {
      buf[base + k] := data[k];
    }
    assert buf[base..base + SD_DATA_OBJ_SIZE] == Receive(old(buf[base..base + SD_DATA_OBJ_SIZE]), data);
  }

  /** read_from_other_sheeps: a whole object, SD_DATA_OBJ_SIZE bytes from offset 0. */
  method ReadFromOtherSheeps(env: FetchEnv, oid: uint64, buf: array<uint8>, base: nat)
    returns (status: FetchStatus, ghost log: seq<Attempt>)
    requires WellFormed(env) && base + SD_DATA_OBJ_SIZE <= buf.Length
    modifies buf
    ensures var r := Run(env, oid, 0, 0, 0, SD_DATA_OBJ_SIZE, old(buf[base..base + SD_DATA_OBJ_SIZE]));
      status == r.status && log == r.log && buf[base..base + SD_DATA_OBJ_SIZE] == r.buf
    ensures forall k :: 0 <= k < base ==> buf[k] == old(buf[k])
    ensures forall k :: base + SD_DATA_OBJ_SIZE <= k < buf.Length ==> buf[k] == old(buf[k])
  {
    var rlen: uint32 := SD_DATA_OBJ_SIZE;
    var rlenAfter;
    status, rlenAfter, log := ReadFromOne(env, oid, rlen, buf, base, 0);
  }
}
