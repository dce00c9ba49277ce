/**
 * Properties of store_queue_request, stated about its reference behaviour
 * Store.Execute (which Store.ObjectStore.QueueRequest is proved to follow).
 */
module StoreProperties {
  import opened SheepProto
  import opened ObjPath
  import opened Capacity
  import opened PeerFetch
  import opened Store

  /** The inputs Execute is defined on. */
  predicate Admissible(req: ObjRequest, slot: seq<uint8>, env: FetchEnv) {
    |slot| == SD_DATA_OBJ_SIZE && WellFormed(env) && PayloadMatches(req)
  }

  /** The request stopped without touching the directory, the slot or the reply. */
  predicate Untouched(e: Effect, files: Directory, slot: seq<uint8>) {
    e.finished && e.files == files && e.slot == slot && !e.fdOpened
    && e.read.None? && e.data.None? && e.stat.None?
  }

  /** Every path other than `path` is present in `a` exactly when in `b`, with the same file. */
  ghost predicate SameExcept(a: Directory, b: Directory, path: string) {
    forall p :: p != path ==> (p in a <==> p in b) && (p in a ==> a[p] == b[p])
  }

  // ---------------------------------------------------------------------
  // The epoch fence

  /**
   * The fence's verdicts: an empty node list is refused for every opcode,
   * SD_OP_GET_NODE_LIST is exempt from the epoch comparison, and a request
   * passes exactly when the list is non-empty and its epoch is neither
   * before nor after the node's.
   */
  lemma FenceVerdicts(cluster: ClusterView, req: ObjRequest, collab: Collaborators)
    ensures |cluster.nodes| == 0 ==> Fence(cluster, req, collab) == SD_RES_SYSTEM_ERROR
    ensures |cluster.nodes| > 0 && req.opcode != SD_OP_GET_NODE_LIST && collab.before(req.epoch, cluster.epoch)
      ==> Fence(cluster, req, collab) == SD_RES_OLD_NODE_VER
    ensures (|cluster.nodes| > 0 && req.opcode != SD_OP_GET_NODE_LIST && !collab.before(req.epoch, cluster.epoch)
             && collab.after(req.epoch, cluster.epoch)) ==> Fence(cluster, req, collab) == SD_RES_NEW_NODE_VER
    ensures Fence(cluster, req, collab) == SD_RES_SUCCESS <==>
      |cluster.nodes| > 0 && (req.opcode == SD_OP_GET_NODE_LIST
        || (!collab.before(req.epoch, cluster.epoch) && !collab.after(req.epoch, cluster.epoch)))
  {
  }

  /** Every refusal by the fence ends the request with that code and changes nothing. */
  lemma FenceRejectionChangesNothing(files: Directory, objDir: string, cluster: ClusterView, collab: Collaborators,
                                     req: ObjRequest, sys: Syscalls, slot: seq<uint8>, env: FetchEnv)
    requires Admissible(req, slot, env)
    requires Fence(cluster, req, collab) != SD_RES_SUCCESS
    ensures var e := Execute(files, objDir, cluster, collab, req, sys, slot, env);
      Untouched(e, files, slot) && e.ret == Fence(cluster, req, collab)
      && e.ret in {SD_RES_SYSTEM_ERROR, SD_RES_OLD_NODE_VER, SD_RES_NEW_NODE_VER}
  {
  }

  /** Plain unsigned comparison as `before` and `after`. */
  function PlainOrder(isDataObj: uint64 -> bool): Collaborators {
    Collaborators(isDataObj, (a: uint32, b: uint32) => a < b, (a: uint32, b: uint32) => a > b)
  }

  /**
   * With plain comparison the fence lets a request through exactly when
   * its epoch equals the node's (SD_OP_GET_NODE_LIST whatever its epoch),
   * and an older epoch is answered SD_RES_OLD_NODE_VER, a newer one
   * SD_RES_NEW_NODE_VER.
   */
  lemma PlainOrderFence(cluster: ClusterView, req: ObjRequest, isDataObj: uint64 -> bool)
    requires |cluster.nodes| > 0
    ensures Fence(cluster, req, PlainOrder(isDataObj)) == SD_RES_SUCCESS <==>
      req.opcode == SD_OP_GET_NODE_LIST || req.epoch == cluster.epoch
    ensures req.opcode != SD_OP_GET_NODE_LIST && req.epoch < cluster.epoch ==>
      Fence(cluster, req, PlainOrder(isDataObj)) == SD_RES_OLD_NODE_VER
    ensures req.opcode != SD_OP_GET_NODE_LIST && req.epoch > cluster.epoch ==>
      Fence(cluster, req, PlainOrder(isDataObj)) == SD_RES_NEW_NODE_VER
  {
  }

  // ---------------------------------------------------------------------
  // Opening

  /**
   * For the opcodes that open the file, a failing open() ends the request
   * with SD_RES_NO_OBJ for ENOENT and SD_RES_UNKNOWN otherwise, changing
   * nothing; without O_CREAT a missing object is SD_RES_NO_OBJ.
   */
  lemma OpenFailureCodes(files: Directory, objDir: string, cluster: ClusterView, collab: Collaborators,
                         req: ObjRequest, sys: Syscalls, slot: seq<uint8>, env: FetchEnv)
    requires Admissible(req, slot, env)
    requires Fence(cluster, req, collab) == SD_RES_SUCCESS && OpensFile(req.opcode)
    ensures var path := ObjectPath(objDir, req.oid);
      var e := Execute(files, objDir, cluster, collab, req, sys, slot, env);
      && (sys.openErrno.Some? ==>
            Untouched(e, files, slot)
            && e.ret == (if sys.openErrno.value == ENOENT then SD_RES_NO_OBJ else SD_RES_UNKNOWN))
      && ((sys.openErrno.None? && path !in files && req.opcode != SD_OP_CREATE_AND_WRITE_OBJ) ==>
            Untouched(e, files, slot) && e.ret == SD_RES_NO_OBJ)
  {
  }

  // ---------------------------------------------------------------------
  // Creation

  /** The create steps up to seeding ran: the copies check, truncation and the attribute write. */
  predicate CreatePrepared(files: Directory, objDir: string, cluster: ClusterView, collab: Collaborators,
                           req: ObjRequest, sys: Syscalls)
  {
    && Fence(cluster, req, collab) == SD_RES_SUCCESS
    && req.opcode == SD_OP_CREATE_AND_WRITE_OBJ && req.copies != 0
    && sys.openErrno.None? && !sys.truncateFails && !sys.setxattrFails
  }

  /**
   * A create asking for zero copies is refused with SD_RES_INVALID_PARMS
   * after the open: an existing object keeps its bytes and attribute, and
   * a missing one is left behind empty and without an attribute.
   */
  lemma ZeroCopiesRefused(files: Directory, objDir: string, cluster: ClusterView, collab: Collaborators,
                          req: ObjRequest, sys: Syscalls, slot: seq<uint8>, env: FetchEnv)
    requires Admissible(req, slot, env)
    requires Fence(cluster, req, collab) == SD_RES_SUCCESS
    requires req.opcode == SD_OP_CREATE_AND_WRITE_OBJ && req.copies == 0 && sys.openErrno.None?
    ensures var path := ObjectPath(objDir, req.oid);
      var e := Execute(files, objDir, cluster, collab, req, sys, slot, env);
      && e.finished && e.ret == SD_RES_INVALID_PARMS && e.fdOpened && e.slot == slot
      && (path in files ==> e.files == files)
      && (path !in files ==> e.files == files[path := StoredObject([], None)])
  {
  }

  /** The copies attribute the object had before the request; an object open() created has none. */
  function OldCopies(files: Directory, path: string): Option<uint32> {
    if path in files then files[path].copies else None
  }

  /**
   * A failing ftruncate ends the create with SD_RES_EIO and leaves the
   * object as open() left it; a failing fsetxattr ends it with
   * SD_RES_SYSTEM_ERROR and leaves the object truncated to nothing but
   * still under its old attribute.
   */
  lemma TruncateOrXattrFailure(files: Directory, objDir: string, cluster: ClusterView, collab: Collaborators,
                               req: ObjRequest, sys: Syscalls, slot: seq<uint8>, env: FetchEnv)
    requires Admissible(req, slot, env)
    requires Fence(cluster, req, collab) == SD_RES_SUCCESS
    requires req.opcode == SD_OP_CREATE_AND_WRITE_OBJ && req.copies != 0 && sys.openErrno.None?
    requires sys.truncateFails || sys.setxattrFails
    ensures var path := ObjectPath(objDir, req.oid);
      var e := Execute(files, objDir, cluster, collab, req, sys, slot, env);
      && e.finished && e.fdOpened && e.slot == slot
      && (sys.truncateFails ==> e.ret == SD_RES_EIO && e.files == Opened(files, path))
      && (!sys.truncateFails ==>
            e.ret == SD_RES_SYSTEM_ERROR && e.files == files[path := StoredObject([], OldCopies(files, path))])
  {
  }

  /** The object a successful create leaves: `bytes` under the requested copies attribute. */
  function CreatedDirectory(files: Directory, objDir: string, req: ObjRequest, bytes: seq<uint8>): Directory {
    files[ObjectPath(objDir, req.oid) := StoredObject(bytes, Some(req.copies))]
  }

  /** Bytes of the payload the second pwrite64 put down. */
  function PayloadWritten(req: ObjRequest, sys: Syscalls): seq<uint8>
    requires PayloadMatches(req) && IsWrite(req.opcode)
  {
    req.data[..Written(sys.payloadWrite, req.dataLength)]
  }

  function WriteResult(req: ObjRequest, sys: Syscalls): uint32 {
    if U32(Int32(sys.payloadWrite)) != req.dataLength then SD_RES_EIO else SD_RES_SUCCESS
  }

  lemma OverlayOntoEmpty(d: seq<uint8>)
    ensures Overlay([], 0, d) == d
  {
    if d != [] {
      var r := Overlay([], 0, d);
      assert forall k :: 0 <= k < |r| ==> r[k] == d[k];
    }
  }

  /**
   * A created object that is not a data object gets no seed: it holds the
   * payload alone, written at the request's offset of an empty file, under
   * the requested copies attribute.
   */
  lemma CreateNonDataObject(files: Directory, objDir: string, cluster: ClusterView, collab: Collaborators,
                            req: ObjRequest, sys: Syscalls, slot: seq<uint8>, env: FetchEnv)
    requires Admissible(req, slot, env)
    requires CreatePrepared(files, objDir, cluster, collab, req, sys) && !collab.isDataObj(req.oid)
    ensures var e := Execute(files, objDir, cluster, collab, req, sys, slot, env);
      && e.finished && e.ret == WriteResult(req, sys) && e.slot == slot
      && e.files == CreatedDirectory(files, objDir, req, Overlay([], req.offset, PayloadWritten(req, sys)))
  {
    CreateTagsObject(files, ObjectPath(objDir, req.oid), req, sys, collab.isDataObj(req.oid), slot, env);
  }

  /** The object-sized seed of a new data object: the fetched copy with COW, zeros without. */
  ghost function Seed(req: ObjRequest, slot: seq<uint8>, env: FetchEnv): (s: seq<uint8>)
    requires |slot| == SD_DATA_OBJ_SIZE && WellFormed(env)
    ensures |s| == SD_DATA_OBJ_SIZE
  {
    if req.flags & SD_FLAG_CMD_COW != 0 then Run(env, req.cowOid, 0, 0, 0, SD_DATA_OBJ_SIZE, slot).buf
    else Zeros(SD_DATA_OBJ_SIZE)
  }

  /** The seed was obtained: no COW, or a COW fetch that some peer answered with success. */
  ghost predicate SeedObtained(req: ObjRequest, slot: seq<uint8>, env: FetchEnv)
    requires |slot| == SD_DATA_OBJ_SIZE && WellFormed(env)
  {
    req.flags & SD_FLAG_CMD_COW != 0 ==> Run(env, req.cowOid, 0, 0, 0, SD_DATA_OBJ_SIZE, slot).status == Fetched
  }

  /**
   * A created data object whose seed was written in full holds the seed
   * with the payload laid over it at the request's offset, under the
   * requested copies attribute; the slot holds the seed.
   */
  lemma CreateDataObject(files: Directory, objDir: string, cluster: ClusterView, collab: Collaborators,
                         req: ObjRequest, sys: Syscalls, slot: seq<uint8>, env: FetchEnv)
    requires Admissible(req, slot, env)
    requires CreatePrepared(files, objDir, cluster, collab, req, sys) && collab.isDataObj(req.oid)
    requires SeedObtained(req, slot, env) && sys.seedWrite == SD_DATA_OBJ_SIZE
    ensures var e := Execute(files, objDir, cluster, collab, req, sys, slot, env);
      var seed := Seed(req, slot, env);
      && e.finished && e.ret == WriteResult(req, sys) && e.slot == seed
      && e.files == CreatedDirectory(files, objDir, req, Overlay(seed, req.offset, PayloadWritten(req, sys)))
  {
    var path := ObjectPath(objDir, req.oid);
    var tagged := files[path := StoredObject([], Some(req.copies))];
    var seed := Seed(req, slot, env);
    CreateTagsObject(files, path, req, sys, true, slot, env);
    SeedWritten(tagged, path, req, sys, slot, env);
    UpdateTwice(files, path, StoredObject([], Some(req.copies)), StoredObject(seed, Some(req.copies)));
    var seeded := files[path := StoredObject(seed, Some(req.copies))];
    UpdateTwice(files, path, StoredObject(seed, Some(req.copies)),
                StoredObject(Overlay(seed, req.offset, PayloadWritten(req, sys)), Some(req.copies)));
  }

  /** Map update at one key twice keeps the second value. */
  lemma UpdateTwice(m: Directory, k: string, a: StoredObject, b: StoredObject)
    ensures m[k := a][k := b] == m[k := b]
  {
  }

  /**
   * Once the copies check, truncation and the attribute write went
   * through, the object is empty under the requested attribute, and only
   * a data object is seeded.
   */
  lemma CreateTagsObject(files: Directory, path: string, req: ObjRequest, sys: Syscalls,
                         isData: bool, slot: seq<uint8>, env: FetchEnv)
    requires |slot| == SD_DATA_OBJ_SIZE && WellFormed(env)
    requires req.copies != 0 && !sys.truncateFails && !sys.setxattrFails
    ensures var tagged := files[path := StoredObject([], Some(req.copies))];
      CreateOutcome(Opened(files, path), path, req, sys, isData, slot, env)
      == if isData then SeedData(tagged, path, req, sys, slot, env) else Created(true, SD_RES_SUCCESS, tagged, slot)
  {
    var present := Opened(files, path);
    var truncated := present[path := StoredObject([], present[path].copies)];
    var tagged := truncated[path := truncated[path].(copies := Some(req.copies))];
    assert tagged == files[path := StoredObject([], Some(req.copies))];
  }

  /** A seed obtained and written in full replaces the empty object's bytes. */
  lemma SeedWritten(files: Directory, path: string, req: ObjRequest, sys: Syscalls, slot: seq<uint8>, env: FetchEnv)
    requires |slot| == SD_DATA_OBJ_SIZE && WellFormed(env)
    requires path in files && files[path].bytes == []
    requires SeedObtained(req, slot, env) && sys.seedWrite == SD_DATA_OBJ_SIZE
    ensures var seed := Seed(req, slot, env);
      SeedData(files, path, req, sys, slot, env)
      == Created(true, SD_RES_SUCCESS, files[path := files[path].(bytes := seed)], seed)
  {
    var seed := Seed(req, slot, env);
    assert seed[..SD_DATA_OBJ_SIZE] == seed;
    OverlayOntoEmpty(seed);
  }

  /**
   * Without COW the seed is all zeros: every byte of the object outside the
   * payload's range reads as zero.
   */
  lemma ZeroSeededBytes(req: ObjRequest, sys: Syscalls, slot: seq<uint8>, env: FetchEnv, k: nat)
    requires Admissible(req, slot, env) && IsWrite(req.opcode)
    requires req.flags & SD_FLAG_CMD_COW == 0
    requires var w := PayloadWritten(req, sys); k < SD_DATA_OBJ_SIZE && !(req.offset <= k < req.offset + |w|)
    ensures Overlay(Seed(req, slot, env), req.offset, PayloadWritten(req, sys))[k] == 0
  {
  }

  /**
   * A COW fetch that ends without success writes neither seed nor payload:
   * when the candidates ran out the request fails with the raw value 1 and
   * the object is left empty under its attribute; while it waits for a
   * node list the request has not finished.
   */
  lemma CowFetchFailure(files: Directory, objDir: string, cluster: ClusterView, collab: Collaborators,
                        req: ObjRequest, sys: Syscalls, slot: seq<uint8>, env: FetchEnv)
    requires Admissible(req, slot, env)
    requires CreatePrepared(files, objDir, cluster, collab, req, sys) && collab.isDataObj(req.oid)
    requires req.flags & SD_FLAG_CMD_COW != 0
    requires Run(env, req.cowOid, 0, 0, 0, SD_DATA_OBJ_SIZE, slot).status != Fetched
    ensures var e := Execute(files, objDir, cluster, collab, req, sys, slot, env);
      var r := Run(env, req.cowOid, 0, 0, 0, SD_DATA_OBJ_SIZE, slot);
      && e.files == CreatedDirectory(files, objDir, req, [])
      && e.slot == r.buf && e.fdOpened
      && (r.status == Exhausted ==> e.finished && e.ret == RAW_FAILURE)
      && (r.status == Waiting ==> !e.finished)
  {
    CreateTagsObject(files, ObjectPath(objDir, req.oid), req, sys, collab.isDataObj(req.oid), slot, env);
  }

  /**
   * The COW seed is not cleared first.  Whichever candidate answers with
   * success, the seed starts with the bytes that answer stored, and every
   * byte beyond the longest prefix any exchange of the fetch wrote is what
   * the worker's slot held before.
   */
  lemma CowSeedKeepsStaleTail(req: ObjRequest, slot: seq<uint8>, env: FetchEnv)
    requires Admissible(req, slot, env) && req.flags & SD_FLAG_CMD_COW != 0
    requires SeedObtained(req, slot, env)
    ensures var r := Run(env, req.cowOid, 0, 0, 0, SD_DATA_OBJ_SIZE, slot);
      var seed := Seed(req, slot, env);
      && r.log != [] && IsSuccess(Last(r.log).reply) && Last(r.log).rlen <= SD_DATA_OBJ_SIZE
      && var d := Stored(Last(r.log).reply, Last(r.log).rlen);
      && seed[..|d|] == d
      && forall k :: Reach(r.log) <= k < SD_DATA_OBJ_SIZE ==> seed[k] == slot[k]
  {
    RunFetched(env, req.cowOid, 0, 0, 0, SD_DATA_OBJ_SIZE, slot);
    RunFetchedData(env, req.cowOid, 0, 0, 0, SD_DATA_OBJ_SIZE, slot);
    RunRequestLengths(env, req.cowOid, 0, 0, 0, SD_DATA_OBJ_SIZE, slot);
    RunKeepsUnreached(env, req.cowOid, 0, 0, 0, SD_DATA_OBJ_SIZE, slot);
  }

  /**
   * A skipped reply still lowers *rlen: when the first candidate answers
   * SD_RES_NO_OBJ reporting 0 bytes, the next candidate is asked for 0
   * bytes, and its success leaves the seed exactly the slot's old bytes.
   */
  lemma ShrunkRequestKeepsSlot(req: ObjRequest, slot: seq<uint8>, env: FetchEnv)
    requires Admissible(req, slot, env) && req.flags & SD_FLAG_CMD_COW != 0
    requires |env.builds[0].view.nodes| >= 2
    requires env.builds[0].replies[0] == Exchanged(false, SD_RES_NO_OBJ, 0, [])
    requires IsSuccess(env.builds[0].replies[1])
    ensures var r := Run(env, req.cowOid, 0, 0, 0, SD_DATA_OBJ_SIZE, slot);
      && SeedObtained(req, slot, env) && |r.log| == 2
      && r.log[1].sent.Some? && r.log[1].sent.value.dataLength == 0
      && Seed(req, slot, env) == slot
  {
    var x0 := env.builds[0].replies[0];
    assert Stored(x0, SD_DATA_OBJ_SIZE) == [] && RlenAfter(x0, SD_DATA_OBJ_SIZE) == 0;
    assert Receive(slot, []) == slot;
    var x1 := env.builds[0].replies[1];
    assert Stored(x1, 0) == [];
  }

  /**
   * A short seed write ends the create with SD_RES_EIO before the payload
   * is written: the object holds just the bytes of the seed that were
   * written.
   */
  lemma SeedWriteShort(files: Directory, objDir: string, cluster: ClusterView, collab: Collaborators,
                       req: ObjRequest, sys: Syscalls, slot: seq<uint8>, env: FetchEnv)
    requires Admissible(req, slot, env)
    requires CreatePrepared(files, objDir, cluster, collab, req, sys) && collab.isDataObj(req.oid)
    requires SeedObtained(req, slot, env) && 0 <= sys.seedWrite < SD_DATA_OBJ_SIZE
    ensures var e := Execute(files, objDir, cluster, collab, req, sys, slot, env);
      && e.finished && e.ret == SD_RES_EIO
      && e.files == CreatedDirectory(files, objDir, req, Seed(req, slot, env)[..sys.seedWrite])
  {
    var path := ObjectPath(objDir, req.oid);
    var seed := Seed(req, slot, env);
    CreateTagsObject(files, path, req, sys, true, slot, env);
    OverlayOntoEmpty(seed[..sys.seedWrite]);
    UpdateTwice(files, path, StoredObject([], Some(req.copies)), StoredObject(seed[..sys.seedWrite], Some(req.copies)));
  }

  // ---------------------------------------------------------------------
  // Writing and syncing an existing object

  /** The object at the request's path exists and opens. */
  predicate OpensExisting(files: Directory, objDir: string, cluster: ClusterView, collab: Collaborators,
                          req: ObjRequest, sys: Syscalls)
  {
    Fence(cluster, req, collab) == SD_RES_SUCCESS && sys.openErrno.None? && ObjectPath(objDir, req.oid) in files
  }

  /**
   * SD_OP_WRITE_OBJ lays the written part of the payload over the object at
   * the request's offset, keeping its attribute, and succeeds exactly when
   * pwrite64's result, read as an unsigned 32-bit value, equals data_length.
   */
  lemma WriteExisting(files: Directory, objDir: string, cluster: ClusterView, collab: Collaborators,
                      req: ObjRequest, sys: Syscalls, slot: seq<uint8>, env: FetchEnv)
    requires Admissible(req, slot, env) && req.opcode == SD_OP_WRITE_OBJ
    requires OpensExisting(files, objDir, cluster, collab, req, sys)
    ensures var path := ObjectPath(objDir, req.oid);
      var e := Execute(files, objDir, cluster, collab, req, sys, slot, env);
      && e.finished && e.slot == slot && e.fdOpened
      && (e.ret == SD_RES_SUCCESS <==> U32(Int32(sys.payloadWrite)) == req.dataLength)
      && e.ret in {SD_RES_SUCCESS, SD_RES_EIO}
      && e.files == files[path := files[path].(bytes := Overlay(files[path].bytes, req.offset, PayloadWritten(req, sys)))]
  {
  }

  /** A data_length that fits an unsigned 32-bit value survives the trip through `int`. */
  lemma Int32RoundTrip(x: uint32)
    ensures U32(Int32(x)) == x
  {
    if x >= 0x8000_0000 {
      assert Int32(x) == x - TWO_32;
    }
  }

  /** A complete write is reported as a success and stores the whole payload. */
  lemma CompleteWriteSucceeds(files: Directory, objDir: string, cluster: ClusterView, collab: Collaborators,
                              req: ObjRequest, sys: Syscalls, slot: seq<uint8>, env: FetchEnv)
    requires Admissible(req, slot, env) && req.opcode == SD_OP_WRITE_OBJ
    requires OpensExisting(files, objDir, cluster, collab, req, sys)
    requires sys.payloadWrite == req.dataLength
    ensures var path := ObjectPath(objDir, req.oid);
      var e := Execute(files, objDir, cluster, collab, req, sys, slot, env);
      && e.ret == SD_RES_SUCCESS
      && e.files == files[path := files[path].(bytes := Overlay(files[path].bytes, req.offset, req.data))]
  {
    Int32RoundTrip(req.dataLength);
    assert req.data[..req.dataLength] == req.data;
  }

  /**
   * The comparison of pwrite64's `int` result with the unsigned data_length
   * converts -1 to 0xFFFFFFFF: a failing write of that many bytes is
   * reported as a success.
   */
  lemma FailedWriteOfMaximalLength(files: Directory, objDir: string, cluster: ClusterView, collab: Collaborators,
                                   req: ObjRequest, sys: Syscalls, slot: seq<uint8>, env: FetchEnv)
    requires Admissible(req, slot, env) && req.opcode == SD_OP_WRITE_OBJ
    requires OpensExisting(files, objDir, cluster, collab, req, sys)
    requires sys.payloadWrite == -1 && req.dataLength == 0xFFFF_FFFF
    ensures var e := Execute(files, objDir, cluster, collab, req, sys, slot, env);
      e.ret == SD_RES_SUCCESS && e.files == files
  {
    var path := ObjectPath(objDir, req.oid);
    assert files[path := files[path].(bytes := files[path].bytes)] == files;
  }

  /** SD_OP_SYNC_OBJ changes nothing and maps fsync's errno: EIO to SD_RES_EIO, any other to SD_RES_UNKNOWN. */
  lemma SyncResult(files: Directory, objDir: string, cluster: ClusterView, collab: Collaborators,
                   req: ObjRequest, sys: Syscalls, slot: seq<uint8>, env: FetchEnv)
    requires Admissible(req, slot, env) && req.opcode == SD_OP_SYNC_OBJ
    requires OpensExisting(files, objDir, cluster, collab, req, sys)
    ensures var e := Execute(files, objDir, cluster, collab, req, sys, slot, env);
      && e.finished && e.files == files && e.fdOpened
      && e.ret == (match sys.fsyncErrno
                   case None => SD_RES_SUCCESS
                   case Some(errno) => if errno == EIO then SD_RES_EIO else SD_RES_UNKNOWN)
  {
  }

  // ---------------------------------------------------------------------
  // Reading

  /**
   * SD_OP_READ_OBJ never changes the directory.  Without a readable copies
   * attribute it fails with SD_RES_SYSTEM_ERROR and returns no data; a
   * failing pread64 is SD_RES_EIO with no data; otherwise it returns the object's bytes from the
   * offset on (up to data_length and the end of the file), their count as
   * data_length, and the attribute as copies.
   */
  lemma ReadResult(files: Directory, objDir: string, cluster: ClusterView, collab: Collaborators,
                   req: ObjRequest, sys: Syscalls, slot: seq<uint8>, env: FetchEnv)
    requires Admissible(req, slot, env) && req.opcode == SD_OP_READ_OBJ
    requires Fence(cluster, req, collab) == SD_RES_SUCCESS
    ensures var e := Execute(files, objDir, cluster, collab, req, sys, slot, env);
      e.finished && e.files == files && e.slot == slot && e.stat.None?
    ensures var path := ObjectPath(objDir, req.oid);
      var e := Execute(files, objDir, cluster, collab, req, sys, slot, env);
      OpensExisting(files, objDir, cluster, collab, req, sys) ==>
        var obj := files[path];
        && ((sys.getxattrFails || obj.copies.None?) ==>
              e.ret == SD_RES_SYSTEM_ERROR && e.read.None? && e.data.None?)
        && (!sys.getxattrFails && obj.copies.Some? && sys.preadFails ==>
              e.ret == SD_RES_EIO && e.read.None? && e.data.None?)
        && (!sys.getxattrFails && obj.copies.Some? && !sys.preadFails ==>
              var n := PreadCount(|obj.bytes|, req.offset, req.dataLength);
              n < 0x8000_0000 ==>
                && e.ret == SD_RES_SUCCESS
                && e.read == Some(ReadReply(n, obj.copies.value))
                && e.data.Some? && |e.data.value| == n
                && (forall k :: 0 <= k < n ==> e.data.value[k] == obj.bytes[req.offset + k]))
  {
  }

  /**
   * An object created with zero copies on a path that held none has no
   * attribute: a later read of it fails with SD_RES_SYSTEM_ERROR.
   */
  lemma ZeroCopiesObjectUnreadable(files: Directory, objDir: string, cluster: ClusterView, collab: Collaborators,
                                   create: ObjRequest, read: ObjRequest, sys: Syscalls, slot: seq<uint8>, env: FetchEnv)
    requires Admissible(create, slot, env) && Admissible(read, slot, env)
    requires Fence(cluster, create, collab) == SD_RES_SUCCESS && Fence(cluster, read, collab) == SD_RES_SUCCESS
    requires create.opcode == SD_OP_CREATE_AND_WRITE_OBJ && create.copies == 0
    requires read.opcode == SD_OP_READ_OBJ && read.oid == create.oid
    requires sys.openErrno.None? && ObjectPath(objDir, create.oid) !in files
    ensures var after := Execute(files, objDir, cluster, collab, create, sys, slot, env);
      && after.ret == SD_RES_INVALID_PARMS
      && Execute(after.files, objDir, cluster, collab, read, sys, slot, env).ret == SD_RES_SYSTEM_ERROR
  {
    ZeroCopiesRefused(files, objDir, cluster, collab, create, sys, slot, env);
  }

  // ---------------------------------------------------------------------
  // Removal, capacity and the remaining opcodes

  /**
   * SD_OP_REMOVE_OBJ needs no descriptor; it deletes exactly the request's
   * object, and a failing unlink() (a missing object included) is
   * reported as the raw value 1 and changes nothing.
   */
  lemma RemoveResult(files: Directory, objDir: string, cluster: ClusterView, collab: Collaborators,
                     req: ObjRequest, sys: Syscalls, slot: seq<uint8>, env: FetchEnv)
    requires Admissible(req, slot, env) && req.opcode == SD_OP_REMOVE_OBJ
    requires Fence(cluster, req, collab) == SD_RES_SUCCESS
    ensures var path := ObjectPath(objDir, req.oid);
      var e := Execute(files, objDir, cluster, collab, req, sys, slot, env);
      && e.finished && !e.fdOpened && e.slot == slot
      && (sys.unlinkFails || path !in files ==> e.ret == RAW_FAILURE && e.files == files)
      && (!sys.unlinkFails && path in files ==> e.ret == SD_RES_SUCCESS && e.files == files - {path})
  {
  }

  /**
   * SD_OP_STAT_SHEEP reports the free bytes of the filesystem and those
   * bytes less the directory's, exactly when neither overflows 64 bits.
   */
  lemma StatReport(files: Directory, objDir: string, cluster: ClusterView, collab: Collaborators,
                   req: ObjRequest, sys: Syscalls, slot: seq<uint8>, env: FetchEnv)
    requires Admissible(req, slot, env) && req.opcode == SD_OP_STAT_SHEEP
    requires Fence(cluster, req, collab) == SD_RES_SUCCESS
    requires sys.vfs.Some? && sys.listing.Some?
    requires FreeBytes(sys.vfs.value) < TWO_64 && TotalSize(sys.listing.value) <= FreeBytes(sys.vfs.value)
    ensures var e := Execute(files, objDir, cluster, collab, req, sys, slot, env);
      var free := FreeBytes(sys.vfs.value);
      && e.ret == SD_RES_SUCCESS && e.files == files && !e.fdOpened
      && e.stat == Some(StatReply(free, free - TotalSize(sys.listing.value)))
  {
    StoreFreeWithoutWrap(sys.vfs.value, sys.listing.value);
  }

  /** An opcode the executor has no case for passes the fence and does nothing else. */
  lemma OtherOpcodesSucceed(files: Directory, objDir: string, cluster: ClusterView, collab: Collaborators,
                            req: ObjRequest, sys: Syscalls, slot: seq<uint8>, env: FetchEnv)
    requires Admissible(req, slot, env)
    requires Fence(cluster, req, collab) == SD_RES_SUCCESS
    requires !OpensFile(req.opcode) && req.opcode != SD_OP_REMOVE_OBJ && req.opcode != SD_OP_STAT_SHEEP
    ensures var e := Execute(files, objDir, cluster, collab, req, sys, slot, env);
      Untouched(e, files, slot) && e.ret == SD_RES_SUCCESS
  {
  }

  // ---------------------------------------------------------------------
  // The frame

  lemma DispatchFrame(files: Directory, path: string, req: ObjRequest, sys: Syscalls)
    requires OpensFile(req.opcode) ==> path in files
    requires PayloadMatches(req)
    ensures SameExcept(DispatchOutcome(files, path, req, sys).files, files, path)
  {
  }

  lemma CreateFrame(files: Directory, path: string, req: ObjRequest, sys: Syscalls,
                    isData: bool, slot: seq<uint8>, env: FetchEnv)
    requires path in files && |slot| == SD_DATA_OBJ_SIZE && WellFormed(env)
    ensures SameExcept(CreateOutcome(files, path, req, sys, isData, slot, env).files, files, path)
  {
  }

  /**
   * A request changes at most the file named after its oid; with room in
   * the path buffer, requests for different oids name different files.
   */
  lemma {:induction false} OnlyOwnObjectChanges(files: Directory, objDir: string, cluster: ClusterView,
                                                collab: Collaborators, req: ObjRequest, sys: Syscalls,
                                                slot: seq<uint8>, env: FetchEnv)
    requires Admissible(req, slot, env)
    ensures SameExcept(Execute(files, objDir, cluster, collab, req, sys, slot, env).files, files,
                       ObjectPath(objDir, req.oid))
  {
    var path := ObjectPath(objDir, req.oid);
    if Fence(cluster, req, collab) != SD_RES_SUCCESS {
    } else if !OpensFile(req.opcode) {
      DispatchFrame(files, path, req, sys);
    } else if OpenErrno(files, path, req.opcode == SD_OP_CREATE_AND_WRITE_OBJ, sys).None? {
      var present := Opened(files, path);
      assert SameExcept(present, files, path);
      if req.opcode != SD_OP_CREATE_AND_WRITE_OBJ {
        DispatchFrame(present, path, req, sys);
        SameExceptTransitive(DispatchOutcome(present, path, req, sys).files, present, files, path);
      } else {
        var c := CreateOutcome(present, path, req, sys, collab.isDataObj(req.oid), slot, env);
        CreateFrame(present, path, req, sys, collab.isDataObj(req.oid), slot, env);
        SameExceptTransitive(c.files, present, files, path);
        if c.finished && c.ret == SD_RES_SUCCESS {
          DispatchFrame(c.files, path, req, sys);
          SameExceptTransitive(DispatchOutcome(c.files, path, req, sys).files, c.files, files, path);
        }
      }
    }
  }

  lemma SameExceptTransitive(a: Directory, b: Directory, c: Directory, path: string)
    requires SameExcept(a, b, path) && SameExcept(b, c, path)
    ensures SameExcept(a, c, path)
  {
  }

  /** Requests for distinct oids touch distinct files while the directory name leaves room for the hex. */
  lemma DistinctObjectsDistinctFiles(objDir: string, a: uint64, b: uint64)
    requires |objDir| + 1 + 16 <= PATH_CAPACITY && a != b
    ensures ObjectPath(objDir, a) != ObjectPath(objDir, b)
  {
    ObjectPathInjective(objDir, a, b);
  }
}
