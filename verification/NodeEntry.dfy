/**
 The packed node entry: [role 1][writing key 32][balance 16][license 4][stake 16].
 Some setters write into the buffer they are given, others fill a fresh copy, and
 decoding hands out views that share the buffer.
 */
module NodeEntry {
  import opened Bytes
  import opened Records

  const NODE_ENTRY_SIZE: nat := 69

  /** Part of a buffer, sharing its bytes (Buffer.subarray). */
  datatype View = View(buf: array<byte>, off: nat, len: nat) {
    predicate Fits() {
      off + len <= buf.Length
    }

    function Bytes(): (s: seq<byte>)
      requires Fits()
      reads buf
      ensures |s| == len
    {
      buf[off..off + len]
    }
  }

  // ---------- roles ----------

  function RoleByte(role: Role): byte {
    match role
    case Reader => 0x0
    case Whitelisted => 0x1
    case Writer => 0x3
    case Indexer => 0x7
  }

  predicate IsNodeRoleValid(mask: int) {
    mask == 0x0 || mask == 0x1 || mask == 0x3 || mask == 0x7
  }

  function RoleOf(mask: int): Role
    requires IsNodeRoleValid(mask)
  {
    if mask == 0x0 then Reader else if mask == 0x1 then Whitelisted else if mask == 0x3 then Writer else Indexer
  }

  /** role & WHITELISTED_MASK, role & WRITER_MASK, role & INDEXER_MASK. */
  predicate HasMask(mask: byte, bit: nat)
    requires bit == 1 || bit == 2 || bit == 4
  {
    (mask / bit) % 2 == 1
  }

  /** The flags of a node object, added bit by bit to the mask. */
  method CalculateNodeRole(isWhitelisted: bool, isWriter: bool, isIndexer: bool) returns (role: byte)
    ensures HasMask(role, 1) == isWhitelisted && HasMask(role, 2) == isWriter && HasMask(role, 4) == isIndexer
    ensures IsNodeRoleValid(role) <==> (isIndexer ==> isWriter) && (isWriter ==> isWhitelisted)
  {
    role := 0;
    if isWhitelisted { role := role + 1; }
    if isWriter { role := role + 2; }
    if isIndexer { role := role + 4; }
  }

  // ---------- the record a buffer stands for ----------

  /** The bytes are a node entry: right size and one of the four role masks. */
  ghost predicate WellFormed(b: seq<byte>) {
    |b| == NODE_ENTRY_SIZE && IsNodeRoleValid(b[0])
  }

  ghost function Decoded(b: seq<byte>): Entry
    requires WellFormed(b)
  {
    Entry(RoleOf(b[0]), b[1..33], BE(b[33..49]), BE(b[49..53]), BE(b[53..69]))
  }

  /** A record whose fields fit their places in the buffer. */
  ghost predicate InRange(e: Entry) {
    e.balance < Pow256(16) && e.license < Pow256(4) && e.stake < Pow256(16)
  }

  ghost function Packed(e: Entry): (b: seq<byte>)
    ensures |b| == NODE_ENTRY_SIZE
  {
    [RoleByte(e.role)] + e.wk + ToBE(e.balance, 16) + ToBE(e.license, 4) + ToBE(e.stake, 16)
  }

  lemma PackedDecodes(e: Entry)
    requires InRange(e)
    ensures WellFormed(Packed(e)) && Decoded(Packed(e)) == e
  {
    var b := Packed(e);
    assert b[33..49] == ToBE(e.balance, 16) && b[49..53] == ToBE(e.license, 4) && b[53..69] == ToBE(e.stake, 16);
    ToBERoundTrip(e.balance, 16);
    ToBERoundTrip(e.license, 4);
    ToBERoundTrip(e.stake, 16);
    SmallMod(e.balance, Pow256(16));
    SmallMod(e.license, Pow256(4));
    SmallMod(e.stake, Pow256(16));
    assert b[1..33] == e.wk;
  }

  lemma SmallMod(v: nat, p: nat)
    requires v < p
    ensures v % p == v
  {
    DivModUnique(v, p, 0, v);
  }

  lemma DecodedPacks(b: seq<byte>)
    requires WellFormed(b)
    ensures InRange(Decoded(b)) && Packed(Decoded(b)) == b
  {
    BEBound(b[33..49]);
    BEBound(b[49..53]);
    BEBound(b[53..69]);
    BERoundTrip(b[33..49]);
    BERoundTrip(b[49..53]);
    BERoundTrip(b[53..69]);
    assert b == [b[0]] + b[1..33] + b[33..49] + b[49..53] + b[53..69];
  }

  // ---------- init, encode, decode ----------

  function IsBufferValid(b: array?<byte>, size: nat): bool {
    b != null && b.Length == size
  }

  method Copy(source: seq<byte>, target: array<byte>, offset: nat)
    requires offset + |source| <= target.Length
    modifies target
    ensures target[..] == old(target[..offset]) + source + old(target[offset + |source|..])
  {
    forall i | 0 <= i < |source| {
      target[offset + i] := source[i];
    }
  }

  /** A fresh entry; an invalid input gives the empty buffer. */
  method Init(writingKey: seq<byte>, role: int, balance: seq<byte>, license: seq<byte>, stakedBalance: seq<byte>)
    returns (nodeEntry: array<byte>)
    ensures fresh(nodeEntry)
    ensures var ok := |writingKey| == 32 && |balance| == 16 && IsNodeRoleValid(role) && |license| == 4
                      && |stakedBalance| == 16;
            && (!ok ==> nodeEntry.Length == 0)
            && (ok ==> WellFormed(nodeEntry[..])
                       && Decoded(nodeEntry[..])
                          == Entry(RoleOf(role), writingKey, BE(balance), BE(license), BE(stakedBalance)))
  {
    if |writingKey| != 32 || |balance| != 16 || !IsNodeRoleValid(role) || |license| != 4 || |stakedBalance| != 16 {
      nodeEntry := new byte[0];
      return;
    }
    nodeEntry := new byte[NODE_ENTRY_SIZE](_ => 0);
    nodeEntry[0] := role;
    var offset := 1;
    Copy(writingKey, nodeEntry, offset);
    offset := offset + 32;
    Copy(balance, nodeEntry, offset);
    offset := offset + 16;
    Copy(license, nodeEntry, offset);
    offset := offset + 4;
    Copy(stakedBalance, nodeEntry, offset);
    assert nodeEntry[..] == [role as byte] + writingKey + balance + license + stakedBalance;
    assert nodeEntry[..][1..33] == writingKey && nodeEntry[..][33..49] == balance;
    assert nodeEntry[..][49..53] == license && nodeEntry[..][53..69] == stakedBalance;
  }

  datatype Node = Node(wk: View, isWhitelisted: bool, isWriter: bool, isIndexer: bool,
                       balance: View, license: View, stakedBalance: View) {
    /** The views lie in one buffer at the places of the layout. */
    predicate Over(buf: array<byte>) {
      && buf.Length == NODE_ENTRY_SIZE
      && wk == View(buf, 1, 32) && balance == View(buf, 33, 16)
      && license == View(buf, 49, 4) && stakedBalance == View(buf, 53, 16)
    }
  }

  /** Packs a node object; an invalid one gives the empty buffer. */
  method Encode(wk: seq<byte>, isWhitelisted: bool, isWriter: bool, isIndexer: bool,
                balance: seq<byte>, license: seq<byte>, stakedBalance: seq<byte>)
    returns (entry: array<byte>)
    ensures fresh(entry)
    ensures var ok := |wk| == 32 && |balance| == 16 && |license| == 4 && |stakedBalance| == 16
                      && (isIndexer ==> isWriter) && (isWriter ==> isWhitelisted);
            && (!ok ==> entry.Length == 0)
            && (ok ==> WellFormed(entry[..])
                       && Decoded(entry[..])
                          == Entry(if isIndexer then Indexer else if isWriter then Writer
                                   else if isWhitelisted then Whitelisted else Reader,
                                   wk, BE(balance), BE(license), BE(stakedBalance)))
  {
    var nodeRole := CalculateNodeRole(isWhitelisted, isWriter, isIndexer);
    entry := Init(wk, nodeRole, balance, license, stakedBalance);
  }

  /** Decoding allocates nothing: the fields are views of the buffer itself. */
  method Decode(nodeEntry: array?<byte>) returns (node: Option<Node>)
    ensures node.None? <==> nodeEntry == null || nodeEntry.Length != NODE_ENTRY_SIZE
    ensures node.Some? ==> node.value.Over(nodeEntry)
    ensures node.Some? && WellFormed(nodeEntry[..]) ==>
              var e := Decoded(nodeEntry[..]);
              && node.value.wk.Bytes() == e.wk
              && BE(node.value.balance.Bytes()) == e.balance
              && BE(node.value.license.Bytes()) == e.license
              && BE(node.value.stakedBalance.Bytes()) == e.stake
              && node.value.isWhitelisted == !e.role.Reader?
              && node.value.isWriter == e.role.IsActive()
              && node.value.isIndexer == e.role.Indexer?
  {
    if !IsBufferValid(nodeEntry, NODE_ENTRY_SIZE) {
      return None;
    }
    var role := nodeEntry[0];
    ghost var b := nodeEntry[..];
    assert nodeEntry[1..33] == b[1..33] && nodeEntry[33..49] == b[33..49];
    assert nodeEntry[49..53] == b[49..53] && nodeEntry[53..69] == b[53..69];
    return Some(Node(View(nodeEntry, 1, 32), HasMask(role, 1), HasMask(role, 2), HasMask(role, 4),
                     View(nodeEntry, 33, 16), View(nodeEntry, 49, 4), View(nodeEntry, 53, 16)));
  }

  // ---------- role tests ----------

  method IsWhitelisted(nodeEntry: array?<byte>) returns (r: bool)
    ensures r == (IsBufferValid(nodeEntry, NODE_ENTRY_SIZE) && HasMask(nodeEntry[0], 1))
    ensures IsBufferValid(nodeEntry, NODE_ENTRY_SIZE) && WellFormed(nodeEntry[..]) ==>
              r == !Decoded(nodeEntry[..]).role.Reader?
  {
    r := IsBufferValid(nodeEntry, NODE_ENTRY_SIZE) && HasMask(nodeEntry[0], 1);
  }

  method IsWriter(nodeEntry: array?<byte>) returns (r: bool)
    ensures !IsBufferValid(nodeEntry, NODE_ENTRY_SIZE) ==> !r
    ensures IsBufferValid(nodeEntry, NODE_ENTRY_SIZE) && WellFormed(nodeEntry[..]) ==>
              r == Decoded(nodeEntry[..]).role.IsActive()
  {
    var w := IsWhitelisted(nodeEntry);
    if !w { return false; }
    r := HasMask(nodeEntry[0], 2);
  }

  method IsIndexer(nodeEntry: array?<byte>) returns (r: bool)
    ensures !IsBufferValid(nodeEntry, NODE_ENTRY_SIZE) ==> !r
    ensures IsBufferValid(nodeEntry, NODE_ENTRY_SIZE) && WellFormed(nodeEntry[..]) ==>
              r == Decoded(nodeEntry[..]).role.Indexer?
  {
    if !IsBufferValid(nodeEntry, NODE_ENTRY_SIZE) { return false; }
    var w := IsWriter(nodeEntry);
    if !w { return false; }
    r := HasMask(nodeEntry[0], 4);
  }

  // ---------- setters ----------

  /** A fresh copy with another role byte; the given buffer is left alone. */
  method SetRole(nodeEntry: array?<byte>, nodeRole: int) returns (r: array?<byte>)
    ensures r == null <==> !IsNodeRoleValid(nodeRole) || !IsBufferValid(nodeEntry, NODE_ENTRY_SIZE)
    ensures r != null ==> fresh(r) && r.Length == NODE_ENTRY_SIZE && r[..] == nodeEntry[..][0 := nodeRole]
    ensures r != null && WellFormed(nodeEntry[..]) ==>
              WellFormed(r[..]) && Decoded(r[..]) == Decoded(nodeEntry[..]).(role := RoleOf(nodeRole))
  {
    if !IsNodeRoleValid(nodeRole) || !IsBufferValid(nodeEntry, NODE_ENTRY_SIZE) {
      return null;
    }
    var copy := new byte[NODE_ENTRY_SIZE](_ => 0);
    Copy(nodeEntry[..], copy, 0);
    copy[0] := nodeRole;
    ghost var b := nodeEntry[..];
    assert copy[..] == b[0 := nodeRole];
    assert copy[..][1..33] == b[1..33] && copy[..][33..49] == b[33..49];
    assert copy[..][49..53] == b[49..53] && copy[..][53..69] == b[53..69];
    r := copy;
  }

  /** Writes the key into the buffer given. */
  method SetWritingKey(nodeEntry: array?<byte>, writingKey: seq<byte>) returns (r: array?<byte>)
    modifies nodeEntry
    ensures r == if IsBufferValid(nodeEntry, NODE_ENTRY_SIZE) && |writingKey| == 32 then nodeEntry else null
    ensures r == null && nodeEntry != null ==> nodeEntry[..] == old(nodeEntry[..])
    ensures r != null ==> nodeEntry[..] == old(nodeEntry[..1]) + writingKey + old(nodeEntry[33..])
    ensures r != null && old(WellFormed(nodeEntry[..])) ==>
              WellFormed(nodeEntry[..]) && Decoded(nodeEntry[..]) == old(Decoded(nodeEntry[..])).(wk := writingKey)
  {
    if !IsBufferValid(nodeEntry, NODE_ENTRY_SIZE) || |writingKey| != 32 {
      return null;
    }
    ghost var b := nodeEntry[..];
    Copy(writingKey, nodeEntry, 1);
    SameFields(b, nodeEntry[..], 1, 33);
    assert nodeEntry[..][1..33] == writingKey;
    r := nodeEntry;
  }

  /** Fields outside the overwritten range keep their bytes. */
  lemma SameFields(b: seq<byte>, b': seq<byte>, lo: nat, hi: nat)
    requires |b| == |b'| == NODE_ENTRY_SIZE && lo <= hi <= NODE_ENTRY_SIZE
    requires b'[..lo] == b[..lo] && b'[hi..] == b[hi..]
    ensures lo > 0 ==> b'[0] == b[0]
    ensures hi <= 1 || lo >= 33 ==> b'[1..33] == b[1..33]
    ensures hi <= 33 || lo >= 49 ==> b'[33..49] == b[33..49]
    ensures hi <= 49 || lo >= 53 ==> b'[49..53] == b[49..53]
    ensures hi <= 53 ==> b'[53..69] == b[53..69]
  {
    assert forall i {:trigger b'[i]} :: 0 <= i < lo ==> b'[i] == b'[..lo][i] && b[i] == b[..lo][i];
    assert forall i {:trigger b'[i]} :: hi <= i < NODE_ENTRY_SIZE ==> b'[i] == b'[hi..][i - hi] && b[i] == b[hi..][i - hi];
  }

  /** Writes the balance into the buffer given. */
  method SetBalance(nodeEntry: array?<byte>, balance: seq<byte>) returns (r: array?<byte>)
    modifies nodeEntry
    ensures r == if IsBufferValid(nodeEntry, NODE_ENTRY_SIZE) && |balance| == 16 then nodeEntry else null
    ensures r == null && nodeEntry != null ==> nodeEntry[..] == old(nodeEntry[..])
    ensures r != null ==> nodeEntry[..] == old(nodeEntry[..33]) + balance + old(nodeEntry[49..])
    ensures r != null && old(WellFormed(nodeEntry[..])) ==>
              WellFormed(nodeEntry[..]) && Decoded(nodeEntry[..]) == old(Decoded(nodeEntry[..])).(balance := BE(balance))
  {
    if !IsBufferValid(nodeEntry, NODE_ENTRY_SIZE) || |balance| != 16 {
      return null;
    }
    ghost var b := nodeEntry[..];
    Copy(balance, nodeEntry, 33);
    SameFields(b, nodeEntry[..], 33, 49);
    assert nodeEntry[..][33..49] == balance;
    r := nodeEntry;
  }

  /** Writes the licence into the buffer given. */
  method SetLicense(nodeEntry: array?<byte>, license: seq<byte>) returns (r: array?<byte>)
    modifies nodeEntry
    ensures r == if IsBufferValid(nodeEntry, NODE_ENTRY_SIZE) && |license| == 4 then nodeEntry else null
    ensures r == null && nodeEntry != null ==> nodeEntry[..] == old(nodeEntry[..])
    ensures r != null ==> nodeEntry[..] == old(nodeEntry[..49]) + license + old(nodeEntry[53..])
    ensures r != null && old(WellFormed(nodeEntry[..])) ==>
              WellFormed(nodeEntry[..]) && Decoded(nodeEntry[..]) == old(Decoded(nodeEntry[..])).(license := BE(license))
  {
    if !IsBufferValid(nodeEntry, NODE_ENTRY_SIZE) || |license| != 4 {
      return null;
    }
    ghost var b := nodeEntry[..];
    Copy(license, nodeEntry, 49);
    SameFields(b, nodeEntry[..], 49, 53);
    assert nodeEntry[..][49..53] == license;
    r := nodeEntry;
  }

  /** A fresh copy with another stake; the given buffer is left alone. */
  method SetStakedBalance(nodeEntry: array?<byte>, stakedBalance: seq<byte>) returns (r: array?<byte>)
    ensures r == null <==> !IsBufferValid(nodeEntry, NODE_ENTRY_SIZE) || |stakedBalance| != 16
    ensures r != null ==> fresh(r) && r.Length == NODE_ENTRY_SIZE && r[..] == nodeEntry[..53] + stakedBalance
    ensures r != null && WellFormed(nodeEntry[..]) ==>
              WellFormed(r[..]) && Decoded(r[..]) == Decoded(nodeEntry[..]).(stake := BE(stakedBalance))
  {
    if !IsBufferValid(nodeEntry, NODE_ENTRY_SIZE) || |stakedBalance| != 16 {
      return null;
    }
    var copy := new byte[NODE_ENTRY_SIZE](_ => 0);
    Copy(nodeEntry[..], copy, 0);
    Copy(stakedBalance, copy, 53);
    ghost var b := nodeEntry[..];
    assert copy[..53] == b[..53];
    SameFields(b, copy[..], 53, 69);
    assert copy[..][53..69] == stakedBalance;
    r := copy;
  }

  /** Writes role and key into the buffer given; the key may be a view of that buffer. */
  method SetRoleAndWriterKey(nodeEntry: array?<byte>, nodeRole: int, writingKey: View) returns (r: array?<byte>)
    requires writingKey.Fits()
    modifies nodeEntry
    ensures var ok := IsNodeRoleValid(nodeRole) && writingKey.len == 32 && IsBufferValid(nodeEntry, NODE_ENTRY_SIZE);
            && r == (if ok then nodeEntry else null)
            && (!ok && nodeEntry != null ==> nodeEntry[..] == old(nodeEntry[..]))
            && (ok && old(WellFormed(nodeEntry[..])) && (writingKey.buf == nodeEntry ==> writingKey.off > 0) ==>
                WellFormed(nodeEntry[..])
                && Decoded(nodeEntry[..])
                   == old(Decoded(nodeEntry[..])).(role := RoleOf(nodeRole), wk := old(writingKey.Bytes())))
  {
    if !IsNodeRoleValid(nodeRole) || writingKey.len != 32 || !IsBufferValid(nodeEntry, NODE_ENTRY_SIZE) {
      return null;
    }
    ghost var b, key := nodeEntry[..], writingKey.Bytes();
    nodeEntry[0] := nodeRole;
    Copy(writingKey.Bytes(), nodeEntry, 1);
    assert nodeEntry[..][33..] == b[33..];
    SameFields(b, nodeEntry[..], 0, 33);
    if writingKey.buf != nodeEntry || writingKey.off > 0 {
      assert nodeEntry[..][1..33] == key;
    }
    r := nodeEntry;
  }
}
