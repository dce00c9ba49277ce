/**
 * Naming of on-disk objects: `<obj_dir>/<oid in lower-case hex>`, written
 * with snprintf into a 1024-byte buffer, so at most 1023 characters survive.
 */
module ObjPath {
  import opened SheepProto

  /** Characters snprintf keeps in `char path[1024]` (one byte is the terminator). */
  const PATH_CAPACITY: nat := 1023

  predicate IsHexDigit(c: char) {
    '0' <= c <= '9' || 'a' <= c <= 'f'
  }

  function HexDigit(d: nat): (c: char)
    requires d < 16
    ensures IsHexDigit(c)
  {
    if d < 10 then (48 + d) as char else (87 + d) as char
  }

  function DigitValue(c: char): (d: nat)
    ensures d < 16
  {
    if '0' <= c <= '9' then c as int - 48
    else if 'a' <= c <= 'f' then c as int - 87
    else 0
  }

  /** `%" PRIx64 "`: lower-case hexadecimal, no leading zeros, "0" for zero. */
  function Hex(n: nat): (s: string)
    ensures 1 <= |s|
    ensures forall k :: 0 <= k < |s| ==> IsHexDigit(s[k])
    ensures |s| > 1 ==> s[0] != '0'
  {
    if n < 16 then [HexDigit(n)] else Hex(n / 16) + [HexDigit(n % 16)]
  }

  /** Reads a hexadecimal digit string back; the reference inverse of Hex. */
  function ParseHex(s: string): nat {
    if s == [] then 0 else ParseHex(s[..|s| - 1]) * 16 + DigitValue(s[|s| - 1])
  }

  function Pow16(k: nat): (p: nat)
    ensures p >= 1
  {
    if k == 0 then 1 else 16 * Pow16(k - 1)
  }

  /** snprintf truncation to the buffer's capacity. */
  function Truncate(s: string, cap: nat): (t: string)
    ensures |t| <= cap && |t| <= |s| && t == s[..|t|]
    ensures |s| <= cap ==> t == s
  {
    if |s| <= cap then s else s[..cap]
  }

  /** The path store_queue_request opens or unlinks for `oid`. */
  function ObjectPath(dir: string, oid: uint64): (p: string)
    ensures |p| <= PATH_CAPACITY
  {
    Truncate(dir + "/" + Hex(oid), PATH_CAPACITY)
  }

  lemma {:induction false} DigitRoundTrip(d: nat)
    requires d < 16
    ensures DigitValue(HexDigit(d)) == d
  {
  }

  /** Parsing the rendering gives the number back, so Hex is injective. */
  lemma {:induction false} ParseHexOfHex(n: nat)
    ensures ParseHex(Hex(n)) == n
  {
    var s := Hex(n);
    if n < 16 {
      DigitRoundTrip(n);
      assert s[..0] == [];
    } else {
      ParseHexOfHex(n / 16);
      DigitRoundTrip(n % 16);
      assert s[..|s| - 1] == Hex(n / 16);
    }
  }

  lemma {:induction false} HexLengthBound(n: nat, k: nat)
    requires 1 <= k && n < Pow16(k)
    ensures |Hex(n)| <= k
  {
    if n >= 16 {
      assert Pow16(1) == 16;
      HexLengthBound(n / 16, k - 1);
    }
  }

  /** A 64-bit oid renders in at most 16 hex digits. */
  lemma HexLength64(oid: uint64)
    ensures |Hex(oid)| <= 16
  {
    assert Pow16(1) == 0x10;
    assert Pow16(2) == 0x100;
    assert Pow16(3) == 0x1000;
    assert Pow16(4) == 0x10000;
    assert Pow16(5) == 0x100000;
    assert Pow16(6) == 0x1000000;
    assert Pow16(7) == 0x10000000;
    assert Pow16(8) == 0x100000000;
    assert Pow16(9) == 0x1000000000;
    assert Pow16(10) == 0x10000000000;
    assert Pow16(11) == 0x100000000000;
    assert Pow16(12) == 0x1000000000000;
    assert Pow16(13) == 0x10000000000000;
    assert Pow16(14) == 0x100000000000000;
    assert Pow16(15) == 0x1000000000000000;
    assert Pow16(16) == 0x10000000000000000;
    HexLengthBound(oid, 16);
  }

  /**
   * While the directory name leaves room for 16 hex digits, the path is the
   * untruncated `dir + "/" + hex`, its last component parses back to the
   * oid, and distinct oids name distinct files.
   */
  lemma ObjectPathShape(dir: string, oid: uint64)
    requires |dir| + 1 + 16 <= PATH_CAPACITY
    ensures ObjectPath(dir, oid) == dir + "/" + Hex(oid)
    ensures ParseHex(ObjectPath(dir, oid)[|dir| + 1..]) == oid
  {
    HexLength64(oid);
    var p := ObjectPath(dir, oid);
    assert p[|dir| + 1..] == Hex(oid);
    ParseHexOfHex(oid);
  }

  lemma ObjectPathInjective(dir: string, a: uint64, b: uint64)
    requires |dir| + 1 + 16 <= PATH_CAPACITY
    ensures ObjectPath(dir, a) == ObjectPath(dir, b) <==> a == b
  {
    ObjectPathShape(dir, a);
    ObjectPathShape(dir, b);
  }

  /**
   * Once the directory name fills the buffer, truncation drops the hex part
   * and every oid names the same file.
   */
  lemma ObjectPathCollides(dir: string, a: uint64, b: uint64)
    requires |dir| >= PATH_CAPACITY
    ensures ObjectPath(dir, a) == ObjectPath(dir, b) == dir[..PATH_CAPACITY]
  {
    assert (dir + "/" + Hex(a))[..PATH_CAPACITY] == dir[..PATH_CAPACITY];
    assert (dir + "/" + Hex(b))[..PATH_CAPACITY] == dir[..PATH_CAPACITY];
  }
}
