# Sheepdog object store executor, modelled in Dafny

This project models the object store of a sheepdog storage node (`collie/store.c`).

- **`store_queue_request`** runs one object request on the node. The steps, in order:
  - It names the object file `<obj_dir>/<oid in hex>`.
  - It refuses everything until a node list has arrived.
  - It fences on the request's epoch.
  - It opens the object file.
  - For SD_OP_CREATE_AND_WRITE_OBJ it then checks the copy count, truncates the file and records the copies attribute. A data object is then seeded with a whole object's worth of bytes: zeros, or a copy fetched from a peer (copy-on-write).
  - Finally it performs the opcode's own operation: remove, read, write, sync or the capacity report.
  - A failure code goes into the reply.
- **`read_from_one` / `read_from_other_sheeps`** fetch an object from the peers that hold it. They try candidates in placement order, skip unreachable or failing peers, and start over on a rebuilt node list when a peer reports an epoch mismatch.
- **`stat_sheep`** reports the free space of the filesystem and that space less the bytes already stored, in unsigned 64-bit arithmetic.

## Modules

- `SheepProto` (`sheep_proto.dfy`): fixed-width integers, opcodes, result codes, the cluster view, and the C integer conversions the code relies on.
- `ObjPath` (`obj_path.dfy`): object path naming through a 1024-byte `snprintf` buffer.
- `Capacity` (`capacity.dfy`): `stat_sheep`, as a loop proved against a wrapping fold. The fold is tied to the exact sum.
- `PeerFetch` (`peer_fetch.dfy`): the peer fetch, as a loop that writes into the shared scratch array. It is proved against a recursive reference function `Run`.
- `Store` (`store.dfy`): the executor.
  - `ObjectStore` is a class. It holds the object directory (a map from path to file bytes plus the copies attribute), the count of open descriptors and the `zero_block` scratch array of `NR_WORKER_THREAD` object-sized slots.
  - `Response` is the reply record.
  - Each phase is a method proved against a phase function.
  - `Execute` composes the phases into the reference behaviour of a whole request.
- `StoreProperties` (`store_props.dfy`): what the executor promises, as lemmas about `Execute`.

How the outside world is represented:
- System calls are not executed. The kernel's answers are an input (`Syscalls`): the errno of `open`, whether `ftruncate`/`fsetxattr`/`fgetxattr`/`pread64`/`unlink` fail, the return values of the two `pwrite64` calls, the errno of `fsync`, and what `statvfs` and the directory walk return.
- The collaborators `is_data_obj`, `before` and `after` are function-valued inputs (`Collaborators`).
- `obj_to_sheep`, `build_node_list`, `connect_to` and `exec_req` are represented by a `FetchEnv`. It holds `obj_to_sheep` as a function of the node list, the oid and the candidate number, and for every node-list rebuild the cluster view and each candidate's reply.

## Model

| member | source | states |
|---|---|---|
| ObjPath.ObjectPath | collie/store.c:155 | the object path never exceeds the 1023 characters that fit the buffer |
| ObjPath.ParseHexOfHex | collie/store.c:155 | the hex rendering of an oid parses back to the oid |
| ObjPath.HexLength64 | collie/store.c:155 | a 64-bit oid renders in at most 16 hex digits |
| ObjPath.ObjectPathShape | collie/store.c:155 | with room for 16 digits the path is `dir + "/" + hex(oid)` untruncated, and its last component parses back to the oid |
| ObjPath.ObjectPathInjective | collie/store.c:155 | with room for 16 digits, two oids name the same path exactly when they are equal |
| ObjPath.ObjectPathCollides | collie/store.c:155 | once the directory name fills the buffer, every oid names the same truncated path |
| Capacity.UsedBytesIsTotalModulo | collie/store.c:44-56 | `used` as accumulated with wrapping uint64 additions is the exact sum of the entries' sizes modulo 2^64, skipping "." and ".." and entries whose stat fails |
| Capacity.StoreFreeWithoutWrap | collie/store.c:58-59 | when nothing overflows, store_size is f_frsize*f_bfree and store_free is that product minus the directory's bytes |
| Capacity.StoreFreeWraps | collie/store.c:59 | when the directory holds more than the free space, store_free wraps to 2^64 + free - used, which exceeds store_size |
| Capacity.StatSheep | collie/store.c:27-62 | SD_RES_SUCCESS exactly when statvfs and opendir both succeed, SD_RES_EIO otherwise; on success the two figures are the product and the product minus the exact total, both reduced modulo 2^64 |
| PeerFetch.Stored | collie/store.c:98 | the bytes an exchange puts into the buffer are a prefix of the reply's data, at most the requested length |
| PeerFetch.Receive | collie/store.c:98 | the received bytes overwrite the start of the buffer; the rest is unchanged |
| PeerFetch.RunAttemptsFit | collie/store.c:75-97 | every attempt contacts the candidate obj_to_sheep picks in the node list of its pass and gets that candidate's reply; a request is sent exactly when the connect succeeded, and it is SD_OP_READ_OBJ for the oid at the given offset, with flags 0 and the epoch of its pass |
| PeerFetch.Run | collie/store.c:75-119 | the reference run of the loop from a given candidate: it keeps the buffer's length and never raises *rlen |
| PeerFetch.RunRequestLengths | collie/store.c:93-98 | the first attempt is made with the starting *rlen and each later one with the *rlen the previous exchange left, skipped replies included; every request asks for its attempt's *rlen; the final *rlen is what the last exchange left |
| PeerFetch.RunKeepsUnreached | collie/store.c:98 | the buffer is never cleared: every byte past the longest prefix any exchange wrote keeps its value from before the fetch |
| PeerFetch.RunAttemptOrder | collie/store.c:78-116 | no attempt is made exactly when the list is already exhausted; the first attempt is the next candidate; each later attempt is the next candidate of the same list after a skip, or candidate 0 of the next list after an epoch mismatch; only the last attempt can be a success |
| PeerFetch.RunFetched | collie/store.c:105-107 | the fetch succeeds exactly when the last reply is SD_RES_SUCCESS |
| PeerFetch.RunFetchedData | collie/store.c:98-107 | on success the buffer starts with the successful reply's data, and *rlen is what that reply reported |
| PeerFetch.RunWaiting | collie/store.c:108-112 | the fetch is left waiting exactly when the last reply is an epoch mismatch in the last node list available |
| PeerFetch.RunExhausted | collie/store.c:78-119 | a failed fetch (-1) either had no candidate left (nr == 0 included), or ended with a skip at the last candidate of a list, or restarted after an epoch mismatch onto an empty list |
| PeerFetch.Step | collie/store.c:78-117 | one attempt of the loop advances the reference run by exactly that attempt |
| PeerFetch.ReadFromOne | collie/store.c:64-120 | the `again:` loop's status, final *rlen, attempts and buffer slot are those of `Run` from candidate 0 of the first list; bytes of the array outside the slot are unchanged |
| PeerFetch.TryCandidates | collie/store.c:78-117 | the for loop over one node list ends on success, on an epoch mismatch (restart, or waiting after the last list) or past the last candidate, in agreement with `Run`; only the slot changes |
| PeerFetch.Contact | collie/store.c:79-100 | one candidate: its reply is that candidate's, the received bytes land at the start of the slot, *rlen is lowered, the attempt is logged, and the run either ends here or continues at the candidate `Run` names next |
| PeerFetch.ReadFromOtherSheeps | collie/store.c:122-133 | a whole-object fetch at offset 0 with *rlen = SD_DATA_OBJ_SIZE, with the same guarantees |
| Store.Overlay | collie/store.c:278 | after a pwrite the written range holds the data, other bytes keep their old values, a hole past the old end reads as zeros, and writing nothing changes nothing |
| Store.ReadBytes | collie/store.c:267 | pread64 returns the file's bytes from the offset on, at most the requested count and never past the end |
| Store.Written | collie/store.c:278-279 | a pwrite that returned n bytes put down n bytes, and a failed one put down none |
| Store.Fence | collie/store.c:159-177 | the fence answers success, SD_RES_SYSTEM_ERROR, SD_RES_OLD_NODE_VER or SD_RES_NEW_NODE_VER, and success exactly when the node list is non-empty and the request is SD_OP_GET_NODE_LIST or neither before nor after the node's epoch |
| Store.Execute | collie/store.c:155-307 | the reference behaviour of a whole request; a descriptor is held only by a request that passed the fence and opens a file, and only a COW create of a data object can be left unfinished |
| Store.ObjectStore.OpenObject | collie/store.c:184-195 | open succeeds unless an errno is given or the object is missing without O_CREAT; O_CREAT makes an empty file without attribute; a failure maps ENOENT to SD_RES_NO_OBJ and anything else to SD_RES_UNKNOWN; a success opens one descriptor |
| Store.ObjectStore.ClearSlot | collie/store.c:235 | the worker's slot is all zeros afterwards, and the rest of zero_block is unchanged |
| Store.ObjectStore.CreateObject | collie/store.c:200-244 | follows `CreateOutcome`: zero copies, truncate, attribute, then seeding of data objects; only the worker's slot of zero_block changes |
| Store.ObjectStore.SeedObject | collie/store.c:223-236 | fetches the COW source into the slot, or clears the slot, then writes it; a fetch that ran out of candidates gives the raw value 1 |
| Store.ObjectStore.WriteSeed | collie/store.c:240-244 | the written prefix of the slot becomes the file's start; SD_RES_EIO unless the whole object was written |
| Store.ObjectStore.Dispatch | collie/store.c:249-297 | follows `DispatchOutcome` for the directory, the result code and each reply field; the reply's result code is untouched |
| Store.ObjectStore.Serve | collie/store.c:155-297 | the directory, the slot, the result code, the descriptor opened and the reply fields are those `Execute` gives |
| Store.ObjectStore.QueueRequest | collie/store.c:135-308 | as `Execute`; rsp->result is written only when the request finished with a failure; a finished request has closed every descriptor it opened; zero_block changes only in the worker's own slot |
| StoreProperties.FenceVerdicts | collie/store.c:159-177 | an empty node list is SD_RES_SYSTEM_ERROR for every opcode; otherwise `before` gives SD_RES_OLD_NODE_VER and `after` SD_RES_NEW_NODE_VER except for SD_OP_GET_NODE_LIST; the fence passes exactly when neither applies |
| StoreProperties.FenceRejectionChangesNothing | collie/store.c:159-177 | every fence rejection ends the request with the fence's code and touches no file, no slot and no reply field |
| StoreProperties.PlainOrderFence | collie/store.c:165-177 | with plain unsigned `<` and `>` as before/after, a request passes exactly when its epoch equals the node's or it is SD_OP_GET_NODE_LIST |
| StoreProperties.OpenFailureCodes | collie/store.c:184-195 | a failing open is SD_RES_NO_OBJ for ENOENT, SD_RES_UNKNOWN otherwise, and a missing object without O_CREAT is SD_RES_NO_OBJ; nothing changes |
| StoreProperties.ZeroCopiesRefused | collie/store.c:184-204 | a create with zero copies is SD_RES_INVALID_PARMS; an existing object keeps its bytes and attribute; an absent one is left created, empty and without attribute |
| StoreProperties.TruncateOrXattrFailure | collie/store.c:206-218 | a failing ftruncate is SD_RES_EIO with the object as open left it; a failing fsetxattr is SD_RES_SYSTEM_ERROR with the object truncated to nothing under its old attribute |
| StoreProperties.CreateNonDataObject | collie/store.c:206-284 | a non-data object gets no seed: it holds only the payload at the request's offset, under the requested copies attribute |
| StoreProperties.CreateDataObject | collie/store.c:206-284 | a created data object holds its seed (zeros, or the fetched copy of cow_oid) with the payload laid over it at the offset, under the requested copies attribute |
| StoreProperties.ZeroSeededBytes | collie/store.c:233-236 | without COW, every byte of the new object outside the payload's range is zero |
| StoreProperties.CowFetchFailure | collie/store.c:223-232 | a COW fetch that runs out of candidates gives the raw value 1 with neither seed nor payload written, leaving the object empty under its attribute; a waiting fetch leaves the request unfinished |
| StoreProperties.CowSeedKeepsStaleTail | collie/store.c:223-232 | the slot is not cleared before a COW fetch: whichever candidate succeeds, the seed starts with what its reply stored, and every byte past the longest prefix any exchange wrote is the slot's previous byte |
| StoreProperties.ShrunkRequestKeepsSlot | collie/store.c:95-116 | a skipped SD_RES_NO_OBJ reply reporting 0 bytes lowers *rlen to 0, so the next candidate is asked for 0 bytes and its success leaves the seed equal to the slot's previous contents |
| StoreProperties.SeedWriteShort | collie/store.c:240-244 | a short seed write is SD_RES_EIO, and no payload is written |
| StoreProperties.WriteExisting | collie/store.c:276-284 | a write lays the written part of the payload over the object and keeps its attribute; it succeeds exactly when pwrite64's int result, converted to unsigned, equals data_length |
| StoreProperties.Int32RoundTrip | collie/store.c:278-279 | any 32-bit data_length survives the conversion to int and back |
| StoreProperties.CompleteWriteSucceeds | collie/store.c:278-283 | a write of exactly data_length bytes succeeds and stores the whole payload |
| StoreProperties.FailedWriteOfMaximalLength | collie/store.c:278-283 | a pwrite64 failure (-1) on a request of 0xFFFFFFFF bytes compares equal to data_length and is reported as success |
| StoreProperties.SyncResult | collie/store.c:285-293 | fsync's errno EIO gives SD_RES_EIO and any other errno SD_RES_UNKNOWN; nothing changes |
| StoreProperties.ReadResult | collie/store.c:255-275 | a read never changes the directory; a missing attribute is SD_RES_SYSTEM_ERROR with no data; a failing pread64 is SD_RES_EIO with no data; otherwise data_length is the pread count, copies is the attribute, and the data are the file's bytes from the offset |
| StoreProperties.ZeroCopiesObjectUnreadable | collie/store.c:200-265 | an object left behind by a zero-copies create has no attribute, so a later read of it is SD_RES_SYSTEM_ERROR |
| StoreProperties.RemoveResult | collie/store.c:250-254 | remove deletes exactly the request's object; a failing unlink, including one of a missing object, gives the raw value 1 and changes nothing |
| StoreProperties.StatReport | collie/store.c:294-295 | without overflow the reply carries the free bytes and the free bytes less the stored bytes |
| StoreProperties.OtherOpcodesSucceed | collie/store.c:249-297 | an opcode with no case passes the fence and changes nothing |
| StoreProperties.OnlyOwnObjectChanges | collie/store.c:155-297 | a request adds, changes or removes no file other than the one named after its oid |
| StoreProperties.DistinctObjectsDistinctFiles | collie/store.c:155 | with room in the path buffer, requests for different oids name different files |

## Left out

- `init_store` is not part of this model: creating the object directory, the mount-table scan and the allocation of zero_block. The constructor of `Store.ObjectStore` starts from a zero-filled zero_block.
- The header values of the opcodes, result codes, SD_FLAG_CMD_COW, SD_DATA_OBJ_SIZE and NR_WORKER_THREAD are not part of this model. The constants in `SheepProto` are stand-ins. The proofs use that the codes are distinct, that NR_WORKER_THREAD is positive, and that SD_DATA_OBJ_SIZE is positive and below 2^31 (it fits the unsigned *rlen and converts to a non-negative `int` for the seed-write comparison).
- is_data_obj, before, after, build_node_list and obj_to_sheep are not part of this model. is_data_obj, before and after are function inputs. obj_to_sheep is a function input of which only one thing is assumed: it names an entry of the list it is given. build_node_list is represented by the cluster view of each rebuild.
- PeerFetch.ReadFromOne: the view of the first build is not tied to the cluster view the fence of `store_queue_request` checked. The source reads the node list again at `again:`, and the membership may change in between.
- exec_req is not part of this model. Its effect is assumed through `PeerFetch.Stored` and `PeerFetch.RlenAfter`: it never raises *rlen and writes at most *rlen bytes, at the start of the buffer. RunRequestLengths, RunKeepsUnreached and the slot frame of ReadFromOne rely on that assumption.
- ObjPath.ObjectPath: the 1024-byte `snprintf` buffer is counted in characters of the directory name. This matches the program only for names of one byte per character. A name with multi-byte UTF-8 characters is cut sooner in the program, and then the room condition of ObjectPathInjective and DistinctObjectsDistinctFiles does not guarantee distinct paths.
- Kernel behaviour is an input. The model does not derive any failure from the real semantics of open, ftruncate, xattrs, pread64, pwrite64, fsync, unlink, statvfs or readdir; for example, the rejection of offsets of 2^63 and beyond is one failure the input can choose. The directory walk of `stat_sheep` is an input listing, not the object map.
- The network (`connect_to`, `exec_req`) and the two-second sleep before a restart are outside the model. Each exchange's outcome is part of `FetchEnv`.
- PeerFetch.ReadFromOne: the source restarts after an epoch mismatch with no bound. The model has a finite sequence of node lists and stops with the status `Waiting` when a mismatch arrives in the last one. Properties are proved for every such sequence, not for an unbounded run.
- PeerFetch.ReadFromOne: the node list and epoch are read once per rebuild. Concurrent changes to the cluster in the middle of a pass are not modelled.
- Store.ObjectStore.QueueRequest: when the fetch is `Waiting` the method returns with the descriptor still open, where the source would still be inside the retry loop.
- Store.ObjectStore.Dispatch: a pread64 count of 2^31 or more is converted to a negative `int` and reported as SD_RES_EIO. The limit Linux puts on a single transfer, which keeps counts below that, is not modelled.
- Logging (dprintf/eprintf), the never-closed directory handle and the never-freed node array have no functional effect and are left out.
- Concurrency between workers is left out. Each request runs alone; the only related fact proved is that a request changes zero_block only in its own slot.
- The reply header and the node reply share memory in the source (`rsp` and `nrsp`). `Response` keeps their fields apart, so the overlap of store_size/store_free with the other reply fields is not modelled.
- The object directory is keyed by path rather than by oid, so that the truncation of long paths, where distinct oids collide, is visible.
