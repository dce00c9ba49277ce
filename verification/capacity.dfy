/**
 * The capacity report answered for SD_OP_STAT_SHEEP (stat_sheep): free space
 * of the backing filesystem, less the bytes already held in the object
 * directory, in unsigned 64-bit arithmetic.
 */
module Capacity {
  import opened SheepProto

  /** One readdir entry of the object directory; `size` is None when stat() on it fails. */
  datatype DirEntry = DirEntry(name: string, size: Option<uint64>)

  /** The two statvfs fields the report uses. */
  datatype StatVfs = StatVfs(frsize: uint64, bfree: uint64)

  /** Bytes an entry adds to `used`: nothing for "." and "..", or when stat() fails. */
  function Contribution(e: DirEntry): nat {
    if e.name == "." || e.name == ".." then 0
    else match e.size
      case None => 0
      case Some(s) => s
  }

  /** Exact total of the entries' contributions: the reference for `used`. */
  function TotalSize(es: seq<DirEntry>): nat {
    if es == [] then 0 else TotalSize(es[..|es| - 1]) + Contribution(es[|es| - 1])
  }

  /** `used` as the readdir loop accumulates it, one wrapping uint64 addition per entry. */
  function UsedBytes(es: seq<DirEntry>): uint64 {
    if es == [] then 0 else U64(UsedBytes(es[..|es| - 1]) + Contribution(es[|es| - 1]))
  }

  /** The wrapping accumulation equals the exact total reduced modulo 2^64. */
  lemma {:induction false} UsedBytesIsTotalModulo(es: seq<DirEntry>)
    ensures UsedBytes(es) == TotalSize(es) % TWO_64
  {
    if es != [] {
      var init := es[..|es| - 1];
      UsedBytesIsTotalModulo(init);
      ModAddCongruence(TotalSize(init), Contribution(es[|es| - 1]));
    }
  }

  lemma ModAddCongruence(a: nat, c: nat)
    ensures (a % TWO_64 + c) % TWO_64 == (a + c) % TWO_64
  {
    var q := a / TWO_64;
    assert a == q * TWO_64 + a % TWO_64;
    assert a + c == q * TWO_64 + (a % TWO_64 + c);
  }

  /** Free bytes of the filesystem: block size times free blocks, exactly. */
  function FreeBytes(vs: StatVfs): nat {
    vs.frsize * vs.bfree
  }

  /** `*store_size`: the free bytes as a uint64 product. */
  function StoreSize(vs: StatVfs): uint64 {
    U64(FreeBytes(vs))
  }

  /** `*store_free`: the same product minus `used`, wrapping below zero. */
  function StoreFree(vs: StatVfs, used: uint64): uint64 {
    U64(FreeBytes(vs) - used)
  }

  /**
   * When nothing wraps, the report is exactly (F, F - U) for F the free bytes
   * of the filesystem and U the bytes of the directory's entries.
   */
  lemma StoreFreeWithoutWrap(vs: StatVfs, es: seq<DirEntry>)
    requires FreeBytes(vs) < TWO_64
    requires TotalSize(es) <= FreeBytes(vs)
    ensures StoreSize(vs) == FreeBytes(vs)
    ensures StoreFree(vs, UsedBytes(es)) == FreeBytes(vs) - TotalSize(es)
  {
    UsedBytesIsTotalModulo(es);
    SmallModulo(TotalSize(es));
    SmallModulo(FreeBytes(vs) - UsedBytes(es));
  }

  /** When the directory holds more than the free space, the free figure wraps around. */
  lemma StoreFreeWraps(vs: StatVfs, es: seq<DirEntry>)
    requires FreeBytes(vs) < TotalSize(es) < TWO_64
    ensures StoreFree(vs, UsedBytes(es)) == TWO_64 + FreeBytes(vs) - TotalSize(es)
    ensures StoreFree(vs, UsedBytes(es)) > StoreSize(vs)
  {
    UsedBytesIsTotalModulo(es);
    SmallModulo(TotalSize(es));
    NegativeWraps(FreeBytes(vs), UsedBytes(es));
  }

  lemma SmallModulo(x: int)
    requires 0 <= x < TWO_64
    ensures x % TWO_64 == x && U64(x) == x
  {
  }

  lemma NegativeWraps(f: int, u: int)
    requires 0 <= f < u < TWO_64
    ensures U64(f) == f && U64(f - u) == TWO_64 + f - u > f
  {
  }

  /**
   * stat_sheep: statvfs of the mount, then a readdir walk of the object
   * directory.  `vfs` is None when statvfs fails, `listing` None when
   * opendir fails; either gives SD_RES_EIO.
   */
  method StatSheep(vfs: Option<StatVfs>, listing: Option<seq<DirEntry>>)
    returns (ret: uint32, storeSize: uint64, storeFree: uint64)
    ensures ret == SD_RES_SUCCESS <==> vfs.Some? && listing.Some?
    ensures ret != SD_RES_SUCCESS ==> ret == SD_RES_EIO
    ensures ret == SD_RES_SUCCESS ==>
      && storeSize == FreeBytes(vfs.value) % TWO_64
      && storeFree == (storeSize - TotalSize(listing.value)) % TWO_64
    ensures ret == SD_RES_SUCCESS ==>
      storeSize == StoreSize(vfs.value) && storeFree == StoreFree(vfs.value, UsedBytes(listing.value))
  {
    storeSize, storeFree := 0, 0;
    if vfs.None? {
      return SD_RES_EIO, storeSize, storeFree;
    }
    if listing.None? {
      return SD_RES_EIO, storeSize, storeFree;
    }
    var vs, entries := vfs.value, listing.value;
    var used: uint64 := 0;
    var k := 0;
    while k < |entries|
      invariant k <= |entries|
      invariant used == UsedBytes(entries[..k])
    {
      var d := entries[k];
      assert entries[..k + 1][..k] == entries[..k];
      if d.name == "." || d.name == ".." {
        k := k + 1;
        continue;
      }
      if d.size.None? {
        k := k + 1;
        continue;
      }
      used := U64(used + d.size.value);
      k := k + 1;
    }
    assert entries[..k] == entries;
    storeSize := StoreSize(vs);
    storeFree := StoreFree(vs, used);
    UsedBytesIsTotalModulo(entries);
    ModSubCongruence(FreeBytes(vs), TotalSize(entries));
    ret := SD_RES_SUCCESS;
  }

  lemma ModSubCongruence(a: nat, b: nat)
    ensures (a % TWO_64 - b % TWO_64) % TWO_64 == (a % TWO_64 - b) % TWO_64
    ensures (a - b % TWO_64) % TWO_64 == (a % TWO_64 - b % TWO_64) % TWO_64
  {
    var qa, qb := a / TWO_64, b / TWO_64;
    assert a == qa * TWO_64 + a % TWO_64;
    assert b == qb * TWO_64 + b % TWO_64;
    assert a % TWO_64 - b == (a % TWO_64 - b % TWO_64) - qb * TWO_64;
    assert a - b % TWO_64 == (a % TWO_64 - b % TWO_64) + qa * TWO_64;
  }
}
