/**
 * Wire-level types and constants shared by the object store, the peer
 * fetch client and the capacity reporter.
 *
 * The numeric values of the opcodes, result codes, the COW flag bit,
 * SD_DATA_OBJ_SIZE and NR_WORKER_THREAD come from headers that are not
 * part of this model; the values below are stand-ins.  The proofs rely on
 * the codes being pairwise distinct, on NR_WORKER_THREAD being positive,
 * and on SD_DATA_OBJ_SIZE being positive and below 2^31: it must fit the
 * unsigned *rlen and convert to a non-negative C `int`, against which the
 * seed write's return value is compared.
 */
module SheepProto {

  type uint8 = x: int | 0 <= x < 0x100
  type uint16 = x: int | 0 <= x < 0x1_0000
  type uint32 = x: int | 0 <= x < 0x1_0000_0000
  type uint64 = x: int | 0 <= x < 0x1_0000_0000_0000_0000

  const TWO_32: int := 0x1_0000_0000
  const TWO_64: int := 0x1_0000_0000_0000_0000

  datatype Option<+T> = None | Some(value: T)

  // Opcodes of object requests.
  const SD_OP_CREATE_AND_WRITE_OBJ: uint32 := 0x01
  const SD_OP_READ_OBJ: uint32 := 0x02
  const SD_OP_WRITE_OBJ: uint32 := 0x03
  const SD_OP_REMOVE_OBJ: uint32 := 0x04
  const SD_OP_SYNC_OBJ: uint32 := 0x05
  const SD_OP_GET_NODE_LIST: uint32 := 0x82
  const SD_OP_STAT_SHEEP: uint32 := 0x84

  // Result codes.  store_queue_request also reports the raw value 1 for a
  // failed copy-on-write fetch and for a failed unlink.
  const SD_RES_SUCCESS: uint32 := 0x00
  const SD_RES_UNKNOWN: uint32 := 0x01
  const SD_RES_NO_OBJ: uint32 := 0x02
  const SD_RES_EIO: uint32 := 0x03
  const SD_RES_INVALID_PARMS: uint32 := 0x05
  const SD_RES_SYSTEM_ERROR: uint32 := 0x06
  const SD_RES_OLD_NODE_VER: uint32 := 0x41
  const SD_RES_NEW_NODE_VER: uint32 := 0x42
  const RAW_FAILURE: uint32 := 1

  // Request flag carrying "seed the new object from cow_oid".
  const SD_FLAG_CMD_COW: bv32 := 0x02

  // Linux errno values that the executor distinguishes.
  const ENOENT: int := 2
  const EIO: int := 5

  // Size of one stored object, and the number of worker slots, each of
  // which owns one object-sized scratch buffer.
  const SD_DATA_OBJ_SIZE: nat := 0x40_0000
  const NR_WORKER_THREAD: nat := 64

  /** A cluster member as build_node_list lays it out. */
  datatype NodeEntry = NodeEntry(addr: seq<uint8>, port: uint16)

  /** What the membership collaborator exposes: the node's epoch and its node list. */
  datatype ClusterView = ClusterView(epoch: uint32, nodes: seq<NodeEntry>)

  /** Truncation of a mathematical integer to an unsigned 64-bit value. */
  function U64(x: int): (r: uint64)
    ensures 0 <= x < TWO_64 ==> r == x
    ensures -TWO_64 <= x < 0 ==> r == x + TWO_64
  {
    x % TWO_64
  }

  /** Conversion of a C `int` to `uint32_t`, as in a comparison with an unsigned operand. */
  function U32(x: int): (r: uint32)
    ensures 0 <= x < TWO_32 ==> r == x
    ensures -TWO_32 <= x < 0 ==> r == x + TWO_32
  {
    x % TWO_32
  }

  /** Conversion of a 64-bit byte count to C `int` (two's complement, 32 bits). */
  function Int32(x: int): (r: int)
    ensures -0x8000_0000 <= r < 0x8000_0000
    ensures 0 <= x < 0x8000_0000 ==> r == x
    ensures 0x8000_0000 <= x < TWO_32 ==> r < 0
  {
    var m := x % TWO_32;
    if m < 0x8000_0000 then m else m - TWO_32
  }
}
