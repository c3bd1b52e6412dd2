/** The ID checker of vendor/github.com/WillAbides/idcheck/idcheck.go: 16-byte
    IDs whose last byte is a checksum of a salt and the first 15 bytes.

    The checksum is a Pearson-style hash: a fold over the salt followed by
    bytes 0..14, each step looking the accumulator XOR the next byte up in a
    256-entry table. The table is built once by swapping entries of the
    identity permutation, so it is a permutation; that makes every fold step
    injective, which is why a change to one payload byte changes the
    checksum. */
module IdCheck {
  import opened Common

  /** ID length, and the index of the checksum byte. */
  const Length: nat := 16
  const HashByte: nat := Length - 1

  /** Go's byte (uint8). */
  type Byte = x: int | 0 <= x < 256

  function Pow2(n: nat): (p: nat)
    ensures p >= 1
  {
    if n == 0 then 1 else 2 * Pow2(n - 1)
  }

  /** Bitwise XOR of the low n bits of a and b, least significant bit first. */
  function XorBits(a: nat, b: nat, n: nat): (r: nat)
    ensures r < Pow2(n)
  {
    if n == 0 then 0 else (if a % 2 == b % 2 then 0 else 1) + 2 * XorBits(a / 2, b / 2, n - 1)
  }

  /** Go's `^` on two bytes. */
  function Xor(a: Byte, b: Byte): Byte {
    XorBits(a, b, 8)
  }

  lemma {:induction false} XorBitsCommutes(a: nat, b: nat, n: nat)
    ensures XorBits(a, b, n) == XorBits(b, a, n)
  {
    if n > 0 {
      XorBitsCommutes(a / 2, b / 2, n - 1);
    }
  }

  /** XOR with the same value can be undone: equal results mean equal inputs. */
  lemma {:induction false} XorBitsCancels(a: nat, b: nat, d: nat, n: nat)
    requires a < Pow2(n) && b < Pow2(n)
    requires XorBits(a, d, n) == XorBits(b, d, n)
    ensures a == b
  {
    if n > 0 {
      var x, y := (if a % 2 == d % 2 then 0 else 1), (if b % 2 == d % 2 then 0 else 1);
      var ra, rb := XorBits(a / 2, d / 2, n - 1), XorBits(b / 2, d / 2, n - 1);
      assert XorBits(a, d, n) == x + 2 * ra && XorBits(b, d, n) == y + 2 * rb;
      assert x == y && ra == rb;
      Halve(a, n);
      Halve(b, n);
      XorBitsCancels(a / 2, b / 2, d / 2, n - 1);
    }
  }

  /** Dropping the lowest bit of an n-bit number leaves an (n-1)-bit one. */
  lemma Halve(a: nat, n: nat)
    requires n > 0 && a < Pow2(n)
    ensures a == 2 * (a / 2) + a % 2 && a / 2 < Pow2(n - 1)
  {
  }

  /** a ^ a == 0 */
  lemma {:induction false} XorBitsSelf(a: nat, n: nat)
    ensures XorBits(a, a, n) == 0
  {
    if n > 0 {
      XorBitsSelf(a / 2, n - 1);
    }
  }

  /** a ^ 0 == a */
  lemma {:induction false} XorBitsZero(a: nat, n: nat)
    requires a < Pow2(n)
    ensures XorBits(a, 0, n) == a
  {
    if n > 0 {
      Halve(a, n);
      XorBitsZero(a / 2, n - 1);
    }
  }

  /** XOR with all ones complements: a ^ (2^n - 1) == 2^n - 1 - a. */
  lemma {:induction false} XorBitsOnes(a: nat, n: nat)
    requires a < Pow2(n)
    ensures XorBits(a, Pow2(n) - 1, n) == Pow2(n) - 1 - a
  {
    if n > 0 {
      var p := Pow2(n - 1);
      var ones := Pow2(n) - 1;
      assert ones == 2 * (p - 1) + 1;
      assert ones % 2 == 1 && ones / 2 == p - 1;
      Halve(a, n);
      XorBitsOnes(a / 2, n - 1);
      assert XorBits(a, ones, n) == (if a % 2 == 1 then 0 else 1) + 2 * (p - 1 - a / 2);
    }
  }

  /** XOR with a fixed byte is injective, on either side. */
  lemma XorInjective(x: Byte, y: Byte, d: Byte)
    requires x != y
    ensures Xor(x, d) != Xor(y, d)
    ensures Xor(d, x) != Xor(d, y)
  {
    XorBitsCommutes(x, d, 8);
    XorBitsCommutes(y, d, 8);
    if Xor(x, d) == Xor(y, d) {
      XorBitsCancels(x, y, d, 8);
    }
  }

  lemma Pow2Eight()
    ensures Pow2(8) == 256
  {
    assert Pow2(4) == 16;
  }

  /** Xor on bytes: x ^ x is 0, x ^ 0 is x, and x ^ 0xff is the complement
      of x, as on sample values. */
  lemma XorSamples(x: Byte)
    ensures Xor(x, x) == 0 && Xor(x, 0) == x && Xor(x, 0xff) == 0xff - x
    ensures Xor(0x0f, 0xff) == 0xf0 && Xor(0xa5, 0xa5) == 0 && Xor(0x5a, 0) == 0x5a
  {
    Pow2Eight();
    XorBitsSelf(x, 8);
    XorBitsZero(x, 8);
    XorBitsOnes(x, 8);
    XorBitsOnes(0x0f, 8);
    XorBitsSelf(0xa5, 8);
    XorBitsZero(0x5a, 8);
  }

  /** The table calculateHash looks bytes up in: 256 entries. */
  type Table = t: seq<Byte> | |t| == 256 witness Identity()

  function Identity(): (t: seq<Byte>)
    ensures |t| == 256 && forall n :: 0 <= n < 256 ==> t[n] == n
  {
    seq(256, n requires 0 <= n < 256 => n)
  }

  predicate Distinct(t: seq<Byte>) {
    forall i, j :: 0 <= i < j < |t| ==> t[i] != t[j]
  }

  /** A rearrangement of 0..255 in which no value repeats. */
  predicate IsPermutation(t: seq<Byte>) {
    |t| == 256 && Distinct(t) && multiset(t) == multiset(Identity())
  }

  /** Swapping two entries keeps the multiset of values and distinctness. */
  lemma SwapKeepsPermutation(t: seq<Byte>, i: nat, j: nat)
    requires i < |t| && j < |t|
    ensures multiset(t[i := t[j]][j := t[i]]) == multiset(t)
    ensures Distinct(t) ==> Distinct(t[i := t[j]][j := t[i]])
  {
    var u := t[i := t[j]][j := t[i]];
    if Distinct(t) {
      forall a, b | 0 <= a < b < |u| ensures u[a] != u[b] {
        var a' := if a == i then j else if a == j then i else a;
        var b' := if b == i then j else if b == j then i else b;
        assert u[a] == t[a'] && u[b] == t[b'] && a' != b';
      }
    }
  }

  /** The hashTable initialiser: the identity, then, for each of the primes
      2, 3, 5, 7 and 11, every entry n swapped with entry n / prime. */
  method BuildHashTable() returns (vals: array<Byte>)
    ensures fresh(vals) && vals.Length == 256
    ensures IsPermutation(vals[..])
  {
    vals := new Byte[256];
    for n := 0 to 256
      invariant forall k :: 0 <= k < n ==> vals[k] == Identity()[k]
    {
      vals[n] := n;
    }
    assert vals[..] == Identity();
    assert Distinct(vals[..]);
    var primes := [2, 3, 5, 7, 11];
    for p := 0 to |primes|
      invariant IsPermutation(vals[..])
    {
      var i := primes[p];
      for n := 0 to 256
        invariant IsPermutation(vals[..])
      {
        Swap(vals, n, n / i);
      }
    }
  }

  /** vals[i], vals[j] = vals[j], vals[i] */
  method Swap(vals: array<Byte>, i: nat, j: nat)
    requires i < vals.Length && j < vals.Length
    requires IsPermutation(vals[..])
    modifies vals
    ensures vals[..] == old(vals[..])[i := old(vals[j])][j := old(vals[i])]
    ensures IsPermutation(vals[..])
  {
    ghost var before := vals[..];
    SwapKeepsPermutation(before, i, j);
    var tmp := vals[i];
    vals[i] := vals[j];
    vals[j] := tmp;
    assert vals[..] == before[i := before[j]][j := before[i]];
  }

  /** Every byte value appears in a permutation table. */
  lemma PermutationCoversEveryByte(t: seq<Byte>, v: Byte)
    requires IsPermutation(t)
    ensures exists i :: 0 <= i < 256 && t[i] == v
  {
    assert Identity()[v] == v;
    assert v in multiset(Identity());
    assert v in multiset(t);
    assert v in t;
  }

  /** hsh = hashTable[hsh ^ d] for each byte d, in order. */
  function Fold(table: Table, h: Byte, data: seq<Byte>): Byte
    decreases |data|
  {
    if data == [] then h else Fold(table, table[Xor(h, data[0])], data[1..])
  }

  /** The checksum of an ID under a salt: the fold from 0 over the salt and
      then bytes 0..14; the checksum byte itself is not an input. */
  function Checksum(table: Table, salt: seq<Byte>, id: seq<Byte>): Byte
    requires |id| == Length
  {
    Fold(table, 0, salt + id[..HashByte])
  }

  /** ValidID's condition: byte 15 equals the checksum. */
  predicate IsValid(table: Table, salt: seq<Byte>, id: seq<Byte>)
    requires |id| == Length
  {
    id[HashByte] == Checksum(table, salt, id)
  }

  /** Folding over a concatenation folds over the parts in turn. */
  lemma {:induction false} FoldAppend(table: Table, h: Byte, a: seq<Byte>, b: seq<Byte>)
    ensures Fold(table, h, a + b) == Fold(table, Fold(table, h, a), b)
    decreases |a|
  {
    if a != [] {
      assert (a + b)[0] == a[0] && (a + b)[1..] == a[1..] + b;
      FoldAppend(table, table[Xor(h, a[0])], a[1..], b);
    } else {
      assert a + b == b;
    }
  }

  /** Distinct entries of an injective table. */
  lemma LookupInjective(table: Table, x: Byte, y: Byte)
    requires Distinct(table) && x != y
    ensures table[x] != table[y]
  {
    if x < y {
      assert table[x] != table[y];
    } else {
      assert table[y] != table[x];
    }
  }

  /** With an injective table, different starting values fold to different
      results over the same bytes. */
  lemma {:induction false} FoldInjective(table: Table, h1: Byte, h2: Byte, data: seq<Byte>)
    requires Distinct(table)
    requires h1 != h2
    ensures Fold(table, h1, data) != Fold(table, h2, data)
    decreases |data|
  {
    if data != [] {
      var d := data[0];
      XorInjective(h1, h2, d);
      LookupInjective(table, Xor(h1, d), Xor(h2, d));
      FoldInjective(table, table[Xor(h1, d)], table[Xor(h2, d)], data[1..]);
    }
  }

  /** Changing any one byte of the folded data changes the result. */
  lemma OneByteChangesFold(table: Table, h: Byte, data: seq<Byte>, k: nat, v: Byte)
    requires Distinct(table)
    requires k < |data| && v != data[k]
    ensures Fold(table, h, data) != Fold(table, h, data[k := v])
  {
    var changed := data[k := v];
    assert data == data[..k] + [data[k]] + data[k + 1..];
    assert changed == data[..k] + [v] + data[k + 1..];
    FoldAppend(table, h, data[..k] + [data[k]], data[k + 1..]);
    FoldAppend(table, h, data[..k] + [v], data[k + 1..]);
    FoldAppend(table, h, data[..k], [data[k]]);
    FoldAppend(table, h, data[..k], [v]);
    var g := Fold(table, h, data[..k]);
    XorInjective(data[k], v, g);
    LookupInjective(table, Xor(g, data[k]), Xor(g, v));
    assert Fold(table, g, [data[k]]) == table[Xor(g, data[k])];
    assert Fold(table, g, [v]) == table[Xor(g, v)];
    FoldInjective(table, table[Xor(g, data[k])], table[Xor(g, v)], data[k + 1..]);
  }

  /** A valid ID with one of bytes 0..14 changed is no longer valid. */
  lemma SingleByteChangeIsDetected(table: Table, salt: seq<Byte>, id: seq<Byte>, k: nat, v: Byte)
    requires IsPermutation(table)
    requires |id| == Length && IsValid(table, salt, id)
    requires k < HashByte && v != id[k]
    ensures !IsValid(table, salt, id[k := v])
  {
    var changed := id[k := v];
    assert (salt + changed[..HashByte]) == (salt + id[..HashByte])[|salt| + k := v];
    OneByteChangesFold(table, 0, salt + id[..HashByte], |salt| + k, v);
  }

  /** A changed checksum byte is detected too. */
  lemma ChecksumByteChangeIsDetected(table: Table, salt: seq<Byte>, id: seq<Byte>, v: Byte)
    requires |id| == Length && IsValid(table, salt, id)
    requires v != id[HashByte]
    ensures !IsValid(table, salt, id[HashByte := v])
  {
    assert id[HashByte := v][..HashByte] == id[..HashByte];
  }

  /** What a 16-byte buffer holds after a read that filled its first |read|
      bytes: the read bytes, then the zeros `make` put there. */
  function Filled(read: seq<Byte>): (b: seq<Byte>)
    requires |read| <= Length
    ensures |b| == Length && b[..|read|] == read
    ensures forall k :: |read| <= k < Length ==> b[k] == 0
  {
    read + seq(Length - |read|, _ => 0)
  }

  /** An idChecker: the salt hashed in front of every ID, and the hash
      table. The reader that supplies new IDs' bytes is a parameter of
      NewID. */
  class IdChecker {
    const table: Table
    var salt: seq<Byte>

    /** newIDChecker with the Salt option (no option is the empty salt). */
    constructor (salt: seq<Byte>)
      ensures this.salt == salt && IsPermutation(table)
    {
      var vals := BuildHashTable();
      table := vals[..];
      this.salt := salt;
    }

    method SetSalt(salt: seq<Byte>)
      modifies this
      ensures this.salt == salt
    {
      this.salt := salt;
    }

    /** calculateHash: fold over salt ++ id[:15]. */
    method CalculateHash(id: array<Byte>) returns (hsh: Byte)
      requires id.Length == Length
      ensures hsh == Checksum(table, salt, id[..])
    {
      var data := salt + id[..HashByte];
      assert id[..][..HashByte] == id[..HashByte];
      hsh := 0;
      for i := 0 to |data|
        invariant Fold(table, hsh, data[i..]) == Fold(table, 0, data)
      {
        assert data[i..][1..] == data[i + 1..];
        hsh := table[Xor(hsh, data[i])];
      }
    }

    /** setHash: only byte 15 changes, and the ID is then valid. */
    method SetHash(id: array<Byte>)
      requires id.Length == Length
      modifies id
      ensures id[..HashByte] == old(id[..HashByte])
      ensures id[HashByte] == Checksum(table, salt, old(id[..]))
      ensures IsValid(table, salt, id[..])
    {
      ghost var before := id[..];
      var hsh := CalculateHash(id);
      id[HashByte] := hsh;
      assert id[..][..HashByte] == before[..HashByte];
    }

    /** ValidID */
    method ValidID(id: array<Byte>) returns (ok: bool)
      requires id.Length == Length
      ensures ok <==> IsValid(table, salt, id[..])
    {
      var hsh := CalculateHash(id);
      ok := id[HashByte] == hsh;
    }

    /** NewID: read into a 16-byte buffer (the byte count is ignored, so
        bytes the reader did not fill stay zero), copy the first 15 bytes
        into a new ID and set its checksum. A read error yields no ID. */
    method NewID(read: seq<Byte>, readError: Option<Error>) returns (id: array?<Byte>, err: Option<Error>)
      requires |read| <= Length
      ensures readError.Some? ==> id == null && err == readError
      ensures readError.None? ==>
                && err == None && id != null && fresh(id) && id.Length == Length
                && id[..HashByte] == Filled(read)[..HashByte]
                && IsValid(table, salt, id[..])
    {
      var idBytes := new Byte[Length];
      for k := 0 to Length
        invariant forall j :: 0 <= j < k ==> idBytes[j] == Filled(read)[j]
      {
        idBytes[k] := if k < |read| then read[k] else 0;
      }
      if readError.Some? {
        return null, readError;
      }
      id := new Byte[Length];
      for k := 0 to HashByte
        invariant forall j :: 0 <= j < Length ==> idBytes[j] == Filled(read)[j]
        invariant forall j :: 0 <= j < k ==> id[j] == Filled(read)[j]
      {
        id[k] := idBytes[k];
      }
      assert id[..HashByte] == Filled(read)[..HashByte];
      SetHash(id);
      err := None;
    }
  }

  /** FromBase64 after decoding: a decoding error is passed on, a decoded
      string of any length but 16 is rejected, and otherwise the ID holds
      exactly the decoded bytes. */
  function FromDecoded(decoded: seq<Byte>, decodeError: Option<Error>): (r: Result<seq<Byte>>)
    ensures r.Ok? <==> decodeError.None? && |decoded| == Length
    ensures r.Ok? ==> r.value == decoded
    ensures decodeError.Some? ==> r == Err(decodeError.value)
    ensures decodeError.None? && |decoded| != Length ==> r == Err(WrongLength)
  {
    if decodeError.Some? then Err(decodeError.value)
    else if |decoded| != Length then Err(WrongLength)
    else Ok(decoded)
  }
}
