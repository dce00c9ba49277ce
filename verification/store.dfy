/**
 * The object-request executor of one node (store_queue_request): the epoch
 * fence, opening the object file, seeding a newly created object, and the
 * per-opcode operation, with the failure codes each step reports.
 *
 * The object directory is a map from path to file; the kernel's answers to
 * the system calls are given as a Syscalls value, so every failure the
 * executor distinguishes can be chosen by the caller of the model.
 */
module Store {
  import opened SheepProto
  import opened ObjPath
  import opened Capacity
  import opened PeerFetch

  /** The fields of an object request the executor reads, and its data buffer. */
  datatype ObjRequest = ObjRequest(
    opcode: uint32,
    oid: uint64,
    cowOid: uint64,
    epoch: uint32,
    flags: bv32,
    copies: uint32,
    dataLength: uint32,
    offset: uint64,
    data: seq<uint8>)

  /** An object file: its bytes and its "user.sheepdog.copies" attribute, when set. */
  datatype StoredObject = StoredObject(bytes: seq<uint8>, copies: Option<uint32>)

  /**
   * What the kernel answers.  `openErrno` is the errno of a failing open();
   * `seedWrite` and `payloadWrite` are the return values of the two pwrite64
   * calls; `fsyncErrno` the errno of a failing fsync(); `vfs` and `listing`
   * what statvfs and the readdir walk see (None when they fail).  When
   * `openErrno` is None, an open() without O_CREAT of a path that is not in
   * the directory still fails, with ENOENT; an unlink() of such a path
   * fails whatever `unlinkFails` says.
   */
  datatype Syscalls = Syscalls(
    openErrno: Option<int>,
    truncateFails: bool,
    setxattrFails: bool,
    seedWrite: int,
    getxattrFails: bool,
    preadFails: bool,
    payloadWrite: int,
    fsyncErrno: Option<int>,
    unlinkFails: bool,
    vfs: Option<StatVfs>,
    listing: Option<seq<DirEntry>>)

  /** Functions of other modules the executor calls: is_data_obj, before and after. */
  datatype Collaborators = Collaborators(
    isDataObj: uint64 -> bool,
    before: (uint32, uint32) -> bool,
    after: (uint32, uint32) -> bool)

  type Directory = map<string, StoredObject>

  predicate OpensFile(opcode: uint32) {
    opcode == SD_OP_CREATE_AND_WRITE_OBJ || opcode == SD_OP_WRITE_OBJ
    || opcode == SD_OP_READ_OBJ || opcode == SD_OP_SYNC_OBJ
  }

  predicate IsWrite(opcode: uint32) {
    opcode == SD_OP_CREATE_AND_WRITE_OBJ || opcode == SD_OP_WRITE_OBJ
  }

  /** A write request carries exactly data_length bytes of payload. */
  predicate PayloadMatches(req: ObjRequest) {
    IsWrite(req.opcode) ==> |req.data| == req.dataLength
  }

  function Zeros(n: nat): (z: seq<uint8>)
    ensures |z| == n && forall k :: 0 <= k < n ==> z[k] == 0
  {
    seq(n, _ => 0)
  }

  /** Bytes a pwrite of `len` bytes put into the file when it returned `ret`. */
  function Written(ret: int, len: nat): (n: nat)
    ensures n <= len
    ensures 0 <= ret <= len ==> n == ret
    ensures ret <= 0 ==> n == 0
  {
    if ret <= 0 then 0 else Min(ret, len)
  }

  /**
   * The file after a pwrite of `d` at `off`: the written range holds `d`,
   * the rest keeps the old bytes, and a hole between the old end and `off`
   * reads as zeros.  Writing nothing leaves the file as it was.
   */
  function Overlay(bytes: seq<uint8>, off: nat, d: seq<uint8>): (r: seq<uint8>)
    ensures d == [] ==> r == bytes
    ensures d != [] ==> |r| == if off + |d| <= |bytes| then |bytes| else off + |d|
    ensures d != [] ==> forall k :: 0 <= k < |r| ==>
      r[k] == if off <= k < off + |d| then d[k - off] else if k < |bytes| then bytes[k] else 0
  {
    if d == [] then bytes
    else
      var padded := if off <= |bytes| then bytes else bytes + Zeros(off - |bytes|);
      padded[..off] + d + (if off + |d| <= |padded| then padded[off + |d|..] else [])
  }

  /** Bytes pread64 returns for `len` bytes at `off` of a file of `size` bytes. */
  function PreadCount(size: nat, off: nat, len: nat): (n: nat)
    ensures n <= len && (n > 0 ==> off + n <= size)
    ensures off + len <= size ==> n == len
  {
    if off >= size then 0 else Min(len, size - off)
  }

  /** The bytes that pread64 copies out of `bytes`. */
  function ReadBytes(bytes: seq<uint8>, off: nat, len: nat): (d: seq<uint8>)
    ensures |d| == PreadCount(|bytes|, off, len)
    ensures forall k :: 0 <= k < |d| ==> d[k] == bytes[off + k]
  {
    var n := PreadCount(|bytes|, off, len);
    if n == 0 then [] else bytes[off..off + n]
  }

  /**
   * The epoch fence: SD_RES_SYSTEM_ERROR before the first node list
   * arrived, then (except for SD_OP_GET_NODE_LIST) SD_RES_OLD_NODE_VER or
   * SD_RES_NEW_NODE_VER when the request's epoch is before or after the
   * node's, and SD_RES_SUCCESS when the request may proceed.
   */
  function Fence(cluster: ClusterView, req: ObjRequest, collab: Collaborators): (r: uint32)
    ensures r in {SD_RES_SUCCESS, SD_RES_SYSTEM_ERROR, SD_RES_OLD_NODE_VER, SD_RES_NEW_NODE_VER}
    ensures r == SD_RES_SUCCESS <==>
      (|cluster.nodes| > 0 && (req.opcode == SD_OP_GET_NODE_LIST
        || (!collab.before(req.epoch, cluster.epoch) && !collab.after(req.epoch, cluster.epoch))))
  {
    if |cluster.nodes| == 0 then SD_RES_SYSTEM_ERROR
    else if req.opcode != SD_OP_GET_NODE_LIST && collab.before(req.epoch, cluster.epoch) then SD_RES_OLD_NODE_VER
    else if req.opcode != SD_OP_GET_NODE_LIST && collab.after(req.epoch, cluster.epoch) then SD_RES_NEW_NODE_VER
    else SD_RES_SUCCESS
  }

  /** The errno with which open() fails, None when it returns a descriptor. */
  function OpenErrno(files: Directory, path: string, create: bool, sys: Syscalls): Option<int> {
    if sys.openErrno.Some? then sys.openErrno
    else if path !in files && !create then Some(ENOENT)
    else None
  }

  /** Result code for a failed open(), by errno. */
  function OpenFailure(errno: int): uint32 {
    if errno == ENOENT then SD_RES_NO_OBJ else SD_RES_UNKNOWN
  }

  /** The directory after a successful open(): O_CREAT makes an empty file without attribute. */
  function Opened(files: Directory, path: string): (f: Directory)
    ensures path in f
  {
    if path in files then files else files[path := StoredObject([], None)]
  }

  datatype Created = Created(finished: bool, ret: uint32, files: Directory, slot: seq<uint8>)

  /**
   * Seeding a new data object: the whole object-sized `seed` is written at
   * offset 0; a short write is SD_RES_EIO.
   */
  function SeedOutcome(files: Directory, path: string, seed: seq<uint8>, sys: Syscalls): (c: Created)
    requires path in files && |seed| == SD_DATA_OBJ_SIZE
    ensures path in c.files
  {
    var obj := files[path];
    var n := Written(sys.seedWrite, SD_DATA_OBJ_SIZE);
    var f := files[path := StoredObject(Overlay(obj.bytes, 0, seed[..n]), obj.copies)];
    Created(true, if Int32(sys.seedWrite) != SD_DATA_OBJ_SIZE then SD_RES_EIO else SD_RES_SUCCESS, f, seed)
  }

  /**
   * The SD_OP_CREATE_AND_WRITE_OBJ steps after open(): refuse zero copies,
   * truncate, record the copies attribute, and for a data object seed the
   * file from the peer copy of `cowOid` (COW flag) or with zeros.  `slot`
   * is the worker's scratch buffer.  `finished` is false while the peer
   * fetch is still waiting for a new node list.
   */
  ghost function CreateOutcome(files: Directory, path: string, req: ObjRequest, sys: Syscalls,
                               isData: bool, slot: seq<uint8>, env: FetchEnv): (c: Created)
    requires path in files && |slot| == SD_DATA_OBJ_SIZE && WellFormed(env)
    ensures path in c.files && |c.slot| == SD_DATA_OBJ_SIZE
    ensures !c.finished ==> isData && req.flags & SD_FLAG_CMD_COW != 0
  {
    if req.copies == 0 then Created(true, SD_RES_INVALID_PARMS, files, slot)
    else if sys.truncateFails then Created(true, SD_RES_EIO, files, slot)
    else
      var truncated := files[path := StoredObject([], files[path].copies)];
      if sys.setxattrFails then Created(true, SD_RES_SYSTEM_ERROR, truncated, slot)
      else
        var tagged := truncated[path := truncated[path].(copies := Some(req.copies))];
        if !isData then Created(true, SD_RES_SUCCESS, tagged, slot)
        else SeedData(tagged, path, req, sys, slot, env)
  }

  /**
   * Filling a new data object: from the peer copy of `cowOid` fetched into
   * the slot when the COW flag is set (a failed fetch is reported as the
   * raw value 1), otherwise from the slot cleared to zeros.
   */
  ghost function SeedData(files: Directory, path: string, req: ObjRequest, sys: Syscalls,
                          slot: seq<uint8>, env: FetchEnv): (c: Created)
    requires path in files && |slot| == SD_DATA_OBJ_SIZE && WellFormed(env)
    ensures path in c.files && |c.slot| == SD_DATA_OBJ_SIZE
    ensures !c.finished ==> req.flags & SD_FLAG_CMD_COW != 0
  {
    if req.flags & SD_FLAG_CMD_COW != 0 then
      var r := Run(env, req.cowOid, 0, 0, 0, SD_DATA_OBJ_SIZE, slot);
      if r.status == Waiting then Created(false, SD_RES_SUCCESS, files, r.buf)
      else if r.status == Exhausted then Created(true, RAW_FAILURE, files, r.buf)
      else SeedOutcome(files, path, r.buf, sys)
    else SeedOutcome(files, path, Zeros(SD_DATA_OBJ_SIZE), sys)
  }

  /** What a successful read reports: the byte count and the copies attribute. */
  datatype ReadReply = ReadReply(dataLength: uint32, copies: uint32)

  /** What a successful SD_OP_STAT_SHEEP reports. */
  datatype StatReply = StatReply(storeSize: uint64, storeFree: uint64)

  datatype Dispatched = Dispatched(
    ret: uint32,
    files: Directory,
    read: Option<ReadReply>,
    data: Option<seq<uint8>>,
    stat: Option<StatReply>)

  function Outcome(ret: uint32, files: Directory): Dispatched {
    Dispatched(ret, files, None, None, None)
  }

  /** The result code of a failed fsync(), by errno. */
  function SyncFailure(errno: int): uint32 {
    if errno == EIO then SD_RES_EIO else SD_RES_UNKNOWN
  }

  /**
   * The per-opcode operation, once the fence passed and (for the opcodes
   * that need one) the file is open at `path`.
   */
  function DispatchOutcome(files: Directory, path: string, req: ObjRequest, sys: Syscalls): (d: Dispatched)
    requires OpensFile(req.opcode) ==> path in files
    requires PayloadMatches(req)
  {
    if req.opcode == SD_OP_REMOVE_OBJ then
      if sys.unlinkFails || path !in files then Outcome(RAW_FAILURE, files)
      else Outcome(SD_RES_SUCCESS, files - {path})
    else if req.opcode == SD_OP_READ_OBJ then
      var obj := files[path];
      if sys.getxattrFails || obj.copies.None? then Outcome(SD_RES_SYSTEM_ERROR, files)
      else if sys.preadFails then Outcome(SD_RES_EIO, files)
      else
        var data := ReadBytes(obj.bytes, req.offset, req.dataLength);
        if Int32(|data|) < 0 then Dispatched(SD_RES_EIO, files, None, Some(data), None)
        else Dispatched(SD_RES_SUCCESS, files, Some(ReadReply(|data|, obj.copies.value)), Some(data), None)
    else if IsWrite(req.opcode) then
      var obj := files[path];
      var n := Written(sys.payloadWrite, req.dataLength);
      var f := files[path := StoredObject(Overlay(obj.bytes, req.offset, req.data[..n]), obj.copies)];
      Outcome(if U32(Int32(sys.payloadWrite)) != req.dataLength then SD_RES_EIO else SD_RES_SUCCESS, f)
    else if req.opcode == SD_OP_SYNC_OBJ then
      Outcome(if sys.fsyncErrno.Some? then SyncFailure(sys.fsyncErrno.value) else SD_RES_SUCCESS, files)
    else if req.opcode == SD_OP_STAT_SHEEP then
      if sys.vfs.None? || sys.listing.None? then Outcome(SD_RES_EIO, files)
      else
        var vs := sys.vfs.value;
        var reply := StatReply(StoreSize(vs), StoreFree(vs, UsedBytes(sys.listing.value)));
        Dispatched(SD_RES_SUCCESS, files, None, None, Some(reply))
    else Outcome(SD_RES_SUCCESS, files)
  }

  /**
   * Everything one request does: whether it finished, the code it ends
   * with, the directory and scratch slot afterwards, whether it opened a
   * descriptor, and what it reported.
   */
  datatype Effect = Effect(
    finished: bool,
    ret: uint32,
    files: Directory,
    slot: seq<uint8>,
    fdOpened: bool,
    read: Option<ReadReply>,
    data: Option<seq<uint8>>,
    stat: Option<StatReply>)

  function Finish(d: Dispatched, slot: seq<uint8>, fdOpened: bool): Effect {
    Effect(true, d.ret, d.files, slot, fdOpened, d.read, d.data, d.stat)
  }

  function Stopped(ret: uint32, files: Directory, slot: seq<uint8>, fdOpened: bool): Effect {
    Effect(true, ret, files, slot, fdOpened, None, None, None)
  }

  /**
   * The reference behaviour of store_queue_request on directory `files`.
   * A descriptor is held only by a request that passed the fence and
   * opens a file, and only a COW create of a data object can be left
   * unfinished (its peer fetch still waiting for a node list).
   */
  ghost function Execute(files: Directory, objDir: string, cluster: ClusterView, collab: Collaborators,
                         req: ObjRequest, sys: Syscalls, slot: seq<uint8>, env: FetchEnv): (e: Effect)
    requires |slot| == SD_DATA_OBJ_SIZE && WellFormed(env) && PayloadMatches(req)
    ensures e.fdOpened ==> OpensFile(req.opcode) && Fence(cluster, req, collab) == SD_RES_SUCCESS
    ensures !e.finished ==>
      && e.fdOpened && req.opcode == SD_OP_CREATE_AND_WRITE_OBJ
      && collab.isDataObj(req.oid) && req.flags & SD_FLAG_CMD_COW != 0
  {
    var path := ObjectPath(objDir, req.oid);
    var fence := Fence(cluster, req, collab);
    if fence != SD_RES_SUCCESS then Stopped(fence, files, slot, false)
    else if !OpensFile(req.opcode) then Finish(DispatchOutcome(files, path, req, sys), slot, false)
    else
      var errno := OpenErrno(files, path, req.opcode == SD_OP_CREATE_AND_WRITE_OBJ, sys);
      if errno.Some? then Stopped(OpenFailure(errno.value), files, slot, false)
      else
        var present := Opened(files, path);
        if req.opcode != SD_OP_CREATE_AND_WRITE_OBJ then Finish(DispatchOutcome(present, path, req, sys), slot, true)
        else
          var c := CreateOutcome(present, path, req, sys, collab.isDataObj(req.oid), slot, env);
          if !c.finished then Effect(false, c.ret, c.files, c.slot, true, None, None, None)
          else if c.ret != SD_RES_SUCCESS then Stopped(c.ret, c.files, c.slot, true)
          else Finish(DispatchOutcome(c.files, path, req, sys), c.slot, true)
  }

  /** The reply header and data buffer of a request (struct sd_obj_rsp / sd_node_rsp, req->data). */
  class Response {
    var result: uint32
    var dataLength: uint32
    var copies: uint32
    var storeSize: uint64
    var storeFree: uint64
    var data: seq<uint8>

    constructor (result: uint32)
      ensures this.result == result && dataLength == 0 && copies == 0
      ensures storeSize == 0 && storeFree == 0 && data == []
    {
      this.result := result;
      dataLength, copies, storeSize, storeFree, data := 0, 0, 0, 0, [];
    }
  }

  /**
   * One node's store: the object directory, the descriptors currently
   * open, and zero_block, which gives each worker an object-sized slot.
   */
  class ObjectStore {
    const objDir: string
    var files: Directory
    var openFds: nat
    const scratch: array<uint8>

    predicate Valid()
      reads this
    {
      scratch.Length == NR_WORKER_THREAD * SD_DATA_OBJ_SIZE
    }

    /** Worker `idx`'s slot of zero_block. */
    function Slot(idx: nat): (s: seq<uint8>)
      requires Valid() && idx < NR_WORKER_THREAD
      reads this, scratch
      ensures |s| == SD_DATA_OBJ_SIZE
    {
      scratch[idx * SD_DATA_OBJ_SIZE..idx * SD_DATA_OBJ_SIZE + SD_DATA_OBJ_SIZE]
    }

    /** A store over directory `dir` holding `existing`, with a zero-filled zero_block. */
    constructor (dir: string, existing: Directory)
      ensures Valid() && fresh(scratch)
      ensures objDir == dir && files == existing && openFds == 0
      ensures forall k :: 0 <= k < scratch.Length ==> scratch[k] == 0
    {
      objDir := dir;
      files := existing;
      openFds := 0;
      scratch := new uint8[NR_WORKER_THREAD * SD_DATA_OBJ_SIZE](_ => 0);
    }

    /** open(path, O_RDWR | (create ? O_CREAT : 0)). */
    method OpenObject(path: string, create: bool, sys: Syscalls) returns (ret: uint32, ok: bool)
      modifies this`files, this`openFds
      ensures var errno := OpenErrno(old(files), path, create, sys);
        && ok == errno.None?
        && ret == (if ok then SD_RES_SUCCESS else OpenFailure(errno.value))
        && files == (if ok then Opened(old(files), path) else old(files))
        && openFds == old(openFds) + (if ok then 1 else 0)
    {
      var errno := OpenErrno(files, path, create, sys);
      if errno.Some? {
        return OpenFailure(errno.value), false;
      }
      if path !in files {
        files := files[path := StoredObject([], None)];
      }
      openFds := openFds + 1;
      return SD_RES_SUCCESS, true;
    }

    /** memset(buf, 0, SD_DATA_OBJ_SIZE) on the slot starting at `base`. */
    method ClearSlot(base: nat)
      requires base + SD_DATA_OBJ_SIZE <= scratch.Length
      modifies scratch
      ensures scratch[base..base + SD_DATA_OBJ_SIZE] == Zeros(SD_DATA_OBJ_SIZE)
      ensures forall k :: 0 <= k < base ==> scratch[k] == old(scratch[k])
      ensures forall k :: base + SD_DATA_OBJ_SIZE <= k < scratch.Length ==> scratch[k] == old(scratch[k])
    {
      forall k | base <= k < base + SD_DATA_OBJ_SIZE {
        scratch[k] := 0;
      }
    }

    /** The SD_OP_CREATE_AND_WRITE_OBJ steps between open() and the per-opcode write. */
    method CreateObject(path: string, req: ObjRequest, sys: Syscalls, isData: bool, idx: nat, env: FetchEnv)
      returns (finished: bool, ret: uint32)
      requires Valid() && idx < NR_WORKER_THREAD && path in files && WellFormed(env)
      modifies this`files, scratch
      ensures var c := CreateOutcome(old(files), path, req, sys, isData, old(Slot(idx)), env);
        finished == c.finished && ret == c.ret && files == c.files && Slot(idx) == c.slot
      ensures forall k :: 0 <= k < idx * SD_DATA_OBJ_SIZE ==> scratch[k] == old(scratch[k])
      ensures forall k :: (idx + 1) * SD_DATA_OBJ_SIZE <= k < scratch.Length ==> scratch[k] == old(scratch[k])
    {
      if req.copies == 0 {
        return true, SD_RES_INVALID_PARMS;
      }
      if sys.truncateFails {
        return true, SD_RES_EIO;
      }
      files := files[path := StoredObject([], files[path].copies)];
      if sys.setxattrFails {
        return true, SD_RES_SYSTEM_ERROR;
      }
      files := files[path := files[path].(copies := Some(req.copies))];
      if !isData {
        return true, SD_RES_SUCCESS;
      }
      finished, ret := SeedObject(path, req, sys, idx, env);
    }

    /** The data-object branch of creation: fill the slot, then write it to the file. */
    method SeedObject(path: string, req: ObjRequest, sys: Syscalls, idx: nat, env: FetchEnv)
      returns (finished: bool, ret: uint32)
      requires Valid() && idx < NR_WORKER_THREAD && path in files && WellFormed(env)
      modifies this`files, scratch
      ensures var c := SeedData(old(files), path, req, sys, old(Slot(idx)), env);
        finished == c.finished && ret == c.ret && files == c.files && Slot(idx) == c.slot
      ensures forall k :: 0 <= k < idx * SD_DATA_OBJ_SIZE ==> scratch[k] == old(scratch[k])
      ensures forall k :: (idx + 1) * SD_DATA_OBJ_SIZE <= k < scratch.Length ==> scratch[k] == old(scratch[k])
    {
      var base := idx * SD_DATA_OBJ_SIZE;
      if req.flags & SD_FLAG_CMD_COW != 0 {
        var status, log := ReadFromOtherSheeps(env, req.cowOid, scratch, base);
        if status == Waiting {
          return false, SD_RES_SUCCESS;
        }
        if status == Exhausted {
          return true, RAW_FAILURE;
        }
      } else {
        ClearSlot(base);
      }
      ret := WriteSeed(path, sys, idx);
      finished := true;
    }

    /** pwrite64(fd, buf, SD_DATA_OBJ_SIZE, 0) of the slot into the new object. */
    method WriteSeed(path: string, sys: Syscalls, idx: nat) returns (ret: uint32)
      requires Valid() && idx < NR_WORKER_THREAD && path in files
      modifies this`files
      ensures var c := SeedOutcome(old(files), path, Slot(idx), sys);
        ret == c.ret && files == c.files
    {
      var base := idx * SD_DATA_OBJ_SIZE;
      var n := Written(sys.seedWrite, SD_DATA_OBJ_SIZE);
      assert scratch[base..base + n] == Slot(idx)[..n];
      files := files[path := StoredObject(Overlay(files[path].bytes, 0, scratch[base..base + n]), files[path].copies)];
      if Int32(sys.seedWrite) != SD_DATA_OBJ_SIZE {
        return SD_RES_EIO;
      }
      return SD_RES_SUCCESS;
    }

    /** The second switch of store_queue_request: the per-opcode operation. */
    method Dispatch(path: string, req: ObjRequest, sys: Syscalls, rsp: Response) returns (ret: uint32)
      requires OpensFile(req.opcode) ==> path in files
      requires PayloadMatches(req)
      modifies this`files, rsp
      ensures var d := DispatchOutcome(old(files), path, req, sys);
        && ret == d.ret && files == d.files
        && rsp.result == old(rsp.result)
        && (d.read.Some? ==> rsp.dataLength == d.read.value.dataLength && rsp.copies == d.read.value.copies)
        && (d.read.None? ==> rsp.dataLength == old(rsp.dataLength) && rsp.copies == old(rsp.copies))
        && rsp.data == (if d.data.Some? then d.data.value else old(rsp.data))
        && (d.stat.Some? ==> rsp.storeSize == d.stat.value.storeSize && rsp.storeFree == d.stat.value.storeFree)
        && (d.stat.None? ==> rsp.storeSize == old(rsp.storeSize) && rsp.storeFree == old(rsp.storeFree))
    {
      ret := SD_RES_SUCCESS;
      if req.opcode == SD_OP_REMOVE_OBJ {
        if sys.unlinkFails || path !in files {
          ret := RAW_FAILURE;
        } else {
          files := files - {path};
        }
      } else if req.opcode == SD_OP_READ_OBJ {
        var obj := files[path];
        if sys.getxattrFails || obj.copies.None? {
          return SD_RES_SYSTEM_ERROR;
        }
        if sys.preadFails {
          return SD_RES_EIO;
        }
        rsp.data := ReadBytes(obj.bytes, req.offset, req.dataLength);
        var count := Int32(|rsp.data|);
        if count < 0 {
          ret := SD_RES_EIO;
        } else {
          rsp.dataLength := count;
          rsp.copies := obj.copies.value;
        }
      } else if IsWrite(req.opcode) {
        var obj := files[path];
        var n := Written(sys.payloadWrite, req.dataLength);
        files := files[path := StoredObject(Overlay(obj.bytes, req.offset, req.data[..n]), obj.copies)];
        if U32(Int32(sys.payloadWrite)) != req.dataLength {
          return SD_RES_EIO;
        }
      } else if req.opcode == SD_OP_SYNC_OBJ {
        if sys.fsyncErrno.Some? {
          ret := SyncFailure(sys.fsyncErrno.value);
        }
      } else if req.opcode == SD_OP_STAT_SHEEP {
        var storeSize, storeFree;
        ret, storeSize, storeFree := StatSheep(sys.vfs, sys.listing);
        if ret == SD_RES_SUCCESS {
          rsp.storeSize, rsp.storeFree := storeSize, storeFree;
        }
      }
    }

    /**
     * store_queue_request for the worker `idx`.  When the request finishes,
     * a failure code is stored in rsp.result (a success leaves it as it
     * was) and the descriptor opened for it is closed again.  When the
     * copy-on-write fetch is still waiting for a node list the request has
     * not finished, and its descriptor is still open.
     */
    method QueueRequest(req: ObjRequest, idx: nat, cluster: ClusterView, collab: Collaborators,
                        sys: Syscalls, env: FetchEnv, rsp: Response) returns (finished: bool)
      requires Valid() && idx < NR_WORKER_THREAD && WellFormed(env) && PayloadMatches(req)
      modifies this`files, this`openFds, scratch, rsp
      ensures var e := Execute(old(files), objDir, cluster, collab, req, sys, old(Slot(idx)), env);
        && finished == e.finished && files == e.files && Slot(idx) == e.slot
        && openFds == old(openFds) + (if e.fdOpened && !e.finished then 1 else 0)
        && rsp.result == (if e.finished && e.ret != SD_RES_SUCCESS then e.ret else old(rsp.result))
        && (e.read.Some? ==> rsp.dataLength == e.read.value.dataLength && rsp.copies == e.read.value.copies)
        && (e.read.None? ==> rsp.dataLength == old(rsp.dataLength) && rsp.copies == old(rsp.copies))
        && rsp.data == (if e.data.Some? then e.data.value else old(rsp.data))
        && (e.stat.Some? ==> rsp.storeSize == e.stat.value.storeSize && rsp.storeFree == e.stat.value.storeFree)
        && (e.stat.None? ==> rsp.storeSize == old(rsp.storeSize) && rsp.storeFree == old(rsp.storeFree))
      ensures forall k :: 0 <= k < idx * SD_DATA_OBJ_SIZE ==> scratch[k] == old(scratch[k])
      ensures forall k :: (idx + 1) * SD_DATA_OBJ_SIZE <= k < scratch.Length ==> scratch[k] == old(scratch[k])
    {
      var ret, fdOpen;
      finished, ret, fdOpen := Serve(req, idx, cluster, collab, sys, env, rsp);
      if !finished {
        // read_from_one is still waiting for the node list timer.
        return;
      }
      // out:
      if ret != SD_RES_SUCCESS {
        rsp.result := ret;
      }
      if fdOpen {
        openFds := openFds - 1;
      }
    }

    /**
     * The body of store_queue_request up to the `out` label: the fence, the
     * open, the creation steps and the per-opcode operation.  Every
     * `goto out` is a return.
     */
    method Serve(req: ObjRequest, idx: nat, cluster: ClusterView, collab: Collaborators,
                 sys: Syscalls, env: FetchEnv, rsp: Response) returns (finished: bool, ret: uint32, fdOpen: bool)
      requires Valid() && idx < NR_WORKER_THREAD && WellFormed(env) && PayloadMatches(req)
      modifies this`files, this`openFds, scratch, rsp
      ensures var e := Execute(old(files), objDir, cluster, collab, req, sys, old(Slot(idx)), env);
        && finished == e.finished && ret == e.ret && fdOpen == e.fdOpened
        && files == e.files && Slot(idx) == e.slot
        && openFds == old(openFds) + (if fdOpen then 1 else 0)
        && rsp.result == old(rsp.result)
        && (e.read.Some? ==> rsp.dataLength == e.read.value.dataLength && rsp.copies == e.read.value.copies)
        && (e.read.None? ==> rsp.dataLength == old(rsp.dataLength) && rsp.copies == old(rsp.copies))
        && rsp.data == (if e.data.Some? then e.data.value else old(rsp.data))
        && (e.stat.Some? ==> rsp.storeSize == e.stat.value.storeSize && rsp.storeFree == e.stat.value.storeFree)
        && (e.stat.None? ==> rsp.storeSize == old(rsp.storeSize) && rsp.storeFree == old(rsp.storeFree))
      ensures forall k :: 0 <= k < idx * SD_DATA_OBJ_SIZE ==> scratch[k] == old(scratch[k])
      ensures forall k :: (idx + 1) * SD_DATA_OBJ_SIZE <= k < scratch.Length ==> scratch[k] == old(scratch[k])
    {
      var path := ObjectPath(objDir, req.oid);
      finished, fdOpen := true, false;
      if |cluster.nodes| == 0 {
        // No SD_OP_GET_NODE_LIST answer has arrived yet.
        return true, SD_RES_SYSTEM_ERROR, false;
      }
      if req.opcode != SD_OP_GET_NODE_LIST {
        if collab.before(req.epoch, cluster.epoch) {
          return true, SD_RES_OLD_NODE_VER, false;
        } else if collab.after(req.epoch, cluster.epoch) {
          return true, SD_RES_NEW_NODE_VER, false;
        }
      }
      if OpensFile(req.opcode) {
        ret, fdOpen := OpenObject(path, req.opcode == SD_OP_CREATE_AND_WRITE_OBJ, sys);
        if !fdOpen {
          return;
        }
        if req.opcode == SD_OP_CREATE_AND_WRITE_OBJ {
          finished, ret := CreateObject(path, req, sys, collab.isDataObj(req.oid), idx, env);
          if !finished || ret != SD_RES_SUCCESS {
            return;
          }
        }
      }
      ret := Dispatch(path, req, sys, rsp);
    }
  }
}
