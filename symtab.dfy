/**
 * The symbol-table loader and address resolver of libc/runtime/getsymboltable.c:
 * locating `.symtab` in the zip central directory appended to the executable,
 * copying or inflating it into an anonymous mapping, the lazily built,
 * try-lock guarded process-wide singleton, and the binary search that maps an
 * address to the index of the symbol whose range contains it.
 */
module SymbolTables {
  import opened Wrappers

  /** The reserved name of the embedded symbol table inside the zip. */
  const SymtabName: string := ".symtab"
  /** Mapping granularity that `_mapanon` sizes are rounded up to (FRAMESIZE). */
  const FrameSize: nat := 0x10000
  /** Zip compression methods understood by the loader. */
  const CompressionNone: nat := 0
  const CompressionDeflate: nat := 8
  /** Unsigned 32-bit arithmetic wraps modulo this. */
  const Two32: int := 0x1_0000_0000

  /** An unsigned 32-bit value. */
  type U32 = x: int | 0 <= x < 0x1_0000_0000

  // ---------------------------------------------------------------------------
  // The zip image, as the ZIP_* accessors see it
  // ---------------------------------------------------------------------------

  /** A central-directory record: its file name, the size of the whole record
      header (fixed part, name, extra field and comment) and the offset of the
      matching local-file header. */
  datatype CFile = CFile(name: string, hdrSize: nat, lfileOffset: nat)

  /** A local-file entry: compression method, sizes and the stored bytes. */
  datatype LFile = LFile(compressionMethod: nat, compressedSize: nat,
                         uncompressedSize: nat, content: seq<byte>)

  /** The mapped zip: where the central directory starts, how many records it
      has, and the records found at each offset of the image. */
  datatype Zipos = Zipos(cdirOffset: nat, cdirRecords: nat,
                         cfiles: map<nat, CFile>, lfiles: map<nat, LFile>)

  /** Starting at offset c, n records can be walked, each record's own header
      size giving the offset of the next. */
  ghost predicate Walkable(z: Zipos, c: nat, n: nat)
    decreases n
  {
    n == 0 || (c in z.cfiles && Walkable(z, c + z.cfiles[c].hdrSize, n - 1))
  }

  /** The offsets of the n records reached from c. */
  ghost function Offsets(z: Zipos, c: nat, n: nat): (offs: seq<nat>)
    requires Walkable(z, c, n)
    ensures |offs| == n
    ensures forall o :: o in offs ==> o in z.cfiles
    decreases n
  {
    if n == 0 then [] else [c] + Offsets(z, c + z.cfiles[c].hdrSize, n - 1)
  }

  /** A zip the loader may read: its directory can be walked, every record
      points at a local-file entry, and a stored entry holds at least as many
      bytes as its uncompressed size (what memcpy reads). */
  ghost predicate ValidZip(z: Zipos)
  {
    && Walkable(z, z.cdirOffset, z.cdirRecords)
    && (forall c :: c in z.cfiles ==> z.cfiles[c].lfileOffset in z.lfiles)
    && (forall o :: o in z.lfiles && z.lfiles[o].compressionMethod == CompressionNone ==>
          z.lfiles[o].uncompressedSize <= |z.lfiles[o].content|)
  }

  /** The offsets of all central-directory records, in directory order. */
  ghost function Directory(z: Zipos): seq<nat>
    requires Walkable(z, z.cdirOffset, z.cdirRecords)
  {
    Offsets(z, z.cdirOffset, z.cdirRecords)
  }

  predicate IsSymtab(f: CFile)
  {
    f.name == SymtabName
  }

  /** Linear reference: the offset of the first of the n records walked from
      c that is named `.symtab`. */
  ghost function FindFrom(z: Zipos, c: nat, n: nat): (r: Option<nat>)
    requires Walkable(z, c, n)
    ensures r.Some? ==> r.value in z.cfiles && IsSymtab(z.cfiles[r.value])
    decreases n
  {
    if n == 0 then None
    else if IsSymtab(z.cfiles[c]) then Some(c)
    else FindFrom(z, c + z.cfiles[c].hdrSize, n - 1)
  }

  /** The first `.symtab` record of the directory, if any. */
  ghost function FirstSymtab(z: Zipos): Option<nat>
    requires Walkable(z, z.cdirOffset, z.cdirRecords)
  {
    FindFrom(z, z.cdirOffset, z.cdirRecords)
  }

  /** FindFrom finds nothing exactly when no record of the walk (whose
      offsets are offs) is named `.symtab`, and otherwise the record at the
      first such position. */
  lemma {:induction false} FindFromIsFirst(z: Zipos, c: nat, n: nat, offs: seq<nat>)
    requires Walkable(z, c, n) && offs == Offsets(z, c, n)
    ensures FindFrom(z, c, n).None? <==>
              forall j :: 0 <= j < n ==> !IsSymtab(z.cfiles[offs[j]])
    ensures FindFrom(z, c, n).Some? ==>
              exists j :: 0 <= j < n && offs[j] == FindFrom(z, c, n).value
                          && IsSymtab(z.cfiles[offs[j]])
                          && forall i :: 0 <= i < j ==> !IsSymtab(z.cfiles[offs[i]])
    decreases n
  {
    if n > 0 {
      var next: nat, m: nat := c + z.cfiles[c].hdrSize, n - 1;
      var rest := Offsets(z, next, m);
      assert offs == [c] + rest;
      if !IsSymtab(z.cfiles[c]) {
        FindFromIsFirst(z, next, m, rest);
        assert FindFrom(z, c, n) == FindFrom(z, next, m);
        if FindFrom(z, c, n).Some? {
          var j :| 0 <= j < m && rest[j] == FindFrom(z, next, m).value
                   && IsSymtab(z.cfiles[rest[j]])
                   && forall i :: 0 <= i < j ==> !IsSymtab(z.cfiles[rest[i]]);
          assert offs[j + 1] == rest[j];
          assert forall i :: 0 < i <= j ==> offs[i] == rest[i - 1];
        } else {
          forall j | 0 < j < n ensures !IsSymtab(z.cfiles[offs[j]]) {
            assert offs[j] == rest[j - 1];
          }
        }
      } else {
        assert offs[0] == c;
      }
    }
  }

  /** FindSymtabInZip: walks the n central-directory records, stepping by each
      record's own header size, and returns the offset of the first one named
      `.symtab`, or -1. */
  method FindSymtabInZip(z: Zipos) returns (r: int)
    requires Walkable(z, z.cdirOffset, z.cdirRecords)
    ensures r == match FirstSymtab(z) case None => -1 case Some(c) => c
  {
    var c: nat := z.cdirOffset;
    var i := 0;
    while i < z.cdirRecords
      invariant 0 <= i <= z.cdirRecords
      invariant Walkable(z, c, z.cdirRecords - i)
      invariant FirstSymtab(z) == FindFrom(z, c, z.cdirRecords - i)
    {
      var f := z.cfiles[c];
      // the source compares the length, then 4, 2 and 1 name bytes
      if |f.name| == 7 && f.name[..4] == ".sym" && f.name[4..6] == "ta" && f.name[6] == 'b' {
        assert f.name == f.name[..4] + f.name[4..6] + [f.name[6]];
        return c;
      }
      i, c := i + 1, c + f.hdrSize;
    }
    r := -1;
  }

  // ---------------------------------------------------------------------------
  // Loading the entry into an anonymous mapping
  // ---------------------------------------------------------------------------

  /** An anonymous mapping: its address and its bytes (its length is |bytes|). */
  datatype Mapping = Mapping(addr: nat, bytes: seq<byte>)

  /** What the loader asks of the memory manager: an anonymous mapping of some
      size (which gives an address or fails), or the release of one. */
  datatype MemOp = MapAnon(size: nat, result: Option<nat>) | Munmap(addr: nat, size: nat)

  /** ROUNDUP(n, FRAMESIZE): the least multiple of the frame size that is
      at least n. */
  function RoundUpToFrame(n: nat): (r: nat)
    ensures r % FrameSize == 0 && n <= r < n + FrameSize
  {
    (n + 0xFFFF) / 0x10000 * 0x10000
  }

  /** The first len bytes of data, the rest of a fresh mapping being zero. */
  function Fill(data: seq<byte>, len: nat): (r: seq<byte>)
    ensures |r| == len
    ensures forall i :: 0 <= i < len && i < |data| ==> r[i] == data[i]
    ensures forall i :: |data| <= i < len ==> r[i] == 0
  {
    seq(len, i requires 0 <= i < len => if i < |data| then data[i] else 0)
  }

  /** Every successful mapping in ops is released again later in ops. */
  ghost predicate Released(ops: seq<MemOp>)
  {
    forall i :: 0 <= i < |ops| && ops[i].MapAnon? && ops[i].result.Some? ==>
      exists j :: i < j < |ops| && ops[j] == Munmap(ops[i].result.value, ops[i].size)
  }

  /** The inflater: given the output capacity, the compressed bytes and the
      input bound, it yields the decoded bytes or fails. */
  type Inflater = (nat, seq<byte>, nat) -> Option<seq<byte>>

  /** What GetSymbolTableFromZip computes: the loaded mapping (or none) and
      the memory operations it performed. */
  ghost function ZipMapping(z: Zipos, mapAddr: Option<nat>, inflate: Inflater):
    (res: (Option<Mapping>, seq<MemOp>))
    requires ValidZip(z)
    // no `.symtab` record: nothing is mapped
    ensures FirstSymtab(z).None? ==> res == (None, [])
    // a table is only ever returned from a successful mapping of the rounded size
    ensures res.0.Some? ==>
              && FirstSymtab(z).Some?
              && mapAddr == Some(res.0.value.addr)
              && var lf := z.lfiles[z.cfiles[FirstSymtab(z).value].lfileOffset];
                 && |res.0.value.bytes| == RoundUpToFrame(lf.uncompressedSize)
                 && lf.compressionMethod in {CompressionNone, CompressionDeflate}
    // with a `.symtab` record, the first operation asks for the rounded-up size
    ensures FirstSymtab(z).Some? ==>
              var lf := z.lfiles[z.cfiles[FirstSymtab(z).value].lfileOffset];
              |res.1| >= 1 && res.1[0] == MapAnon(RoundUpToFrame(lf.uncompressedSize), mapAddr)
    // a stored entry loads whenever the mapping succeeds
    ensures FirstSymtab(z).Some? && mapAddr.Some? ==>
              var lf := z.lfiles[z.cfiles[FirstSymtab(z).value].lfileOffset];
              lf.compressionMethod == CompressionNone ==> res.0.Some?
    // a stored entry is copied: the first `size` bytes equal its content
    ensures res.0.Some? ==>
              var lf := z.lfiles[z.cfiles[FirstSymtab(z).value].lfileOffset];
              lf.compressionMethod == CompressionNone ==>
                res.0.value.bytes[..lf.uncompressedSize] == lf.content[..lf.uncompressedSize]
    // a deflated entry is inflated with the local header's compressed size as
    // the input bound, and loading succeeds exactly when mapping and inflating do
    ensures FirstSymtab(z).Some? ==>
              var lf := z.lfiles[z.cfiles[FirstSymtab(z).value].lfileOffset];
              lf.compressionMethod == CompressionDeflate ==>
                (res.0.Some? <==>
                   (mapAddr.Some? && inflate(lf.uncompressedSize, lf.content, lf.compressedSize).Some?))
    // an inflated entry holds what the inflater produced, up to the entry's size
    ensures res.0.Some? ==>
              var lf := z.lfiles[z.cfiles[FirstSymtab(z).value].lfileOffset];
              var out := inflate(lf.uncompressedSize, lf.content, lf.compressedSize);
              lf.compressionMethod == CompressionDeflate && out.Some? ==>
                var m := if |out.value| <= lf.uncompressedSize then |out.value| else lf.uncompressedSize;
                res.0.value.bytes[..m] == out.value[..m]
    // a failure never leaks the mapping
    ensures res.0.None? ==> Released(res.1)
    // a loaded table stays mapped: its one operation is the mapping itself
    ensures res.0.Some? ==>
              var lf := z.lfiles[z.cfiles[FirstSymtab(z).value].lfileOffset];
              res.1 == [MapAnon(RoundUpToFrame(lf.uncompressedSize), mapAddr)]
  {
    match FirstSymtab(z)
    case None => (None, [])
    case Some(cf) =>
      var lf := z.lfiles[z.cfiles[cf].lfileOffset];
      var size := lf.uncompressedSize;
      var size2 := RoundUpToFrame(size);
      match mapAddr
      case None => (None, [MapAnon(size2, None)])
      case Some(addr) =>
        var mapped := [MapAnon(size2, Some(addr))];
        var failed := mapped + [Munmap(addr, size2)];
        assert failed[1] == Munmap(addr, size2);
        if lf.compressionMethod == CompressionNone then
          (Some(Mapping(addr, Fill(lf.content[..size], size2))), mapped)
        else if lf.compressionMethod == CompressionDeflate then
          match inflate(size, lf.content, lf.compressedSize)
          case None => (None, failed)
          case Some(out) =>
            (Some(Mapping(addr, Fill(if |out| <= size then out else out[..size], size2))), mapped)
        else
          (None, failed)
  }

  /** GetSymbolTableFromZip: finds `.symtab`, maps its rounded-up size, then
      copies (stored) or inflates (deflate) it; any other method, or a failed
      inflate, unmaps and yields nothing. mapAddr is what `_mapanon` returns. */
  method GetSymbolTableFromZip(z: Zipos, mapAddr: Option<nat>, inflate: Inflater)
    returns (res: Option<Mapping>, ops: seq<MemOp>)
    requires ValidZip(z)
    ensures (res, ops) == ZipMapping(z, mapAddr, inflate)
  {
    res, ops := None, [];
    var cf := FindSymtabInZip(z);
    if cf != -1 {
      var lf := z.lfiles[z.cfiles[cf].lfileOffset];
      var size := lf.uncompressedSize;
      var size2 := RoundUpToFrame(size);
      ops := [MapAnon(size2, mapAddr)];
      if mapAddr.Some? {
        var addr := mapAddr.value;
        if lf.compressionMethod == CompressionNone {
          res := Some(Mapping(addr, Fill(lf.content[..size], size2)));
        } else if lf.compressionMethod == CompressionDeflate {
          var out := inflate(size, lf.content, lf.compressedSize);
          if out.None? {
            ops := ops + [Munmap(addr, size2)];
          } else {
            var data := if |out.value| <= size then out.value else out.value[..size];
            res := Some(Mapping(addr, Fill(data, size2)));
          }
        } else {
          ops := ops + [Munmap(addr, size2)];
        }
      }
    }
  }

  // ---------------------------------------------------------------------------
  // The symbol table and the singleton
  // ---------------------------------------------------------------------------

  /** One symbol: the inclusive address range [x, y], relative to the table's
      address base, both unsigned 32-bit. */
  datatype Symbol = Symbol(x: U32, y: U32)

  /** The table header as laid out in the loaded bytes. */
  datatype Header = Header(addrBase: int, namesOffset: nat, nameBaseOffset: nat,
                           symbols: seq<Symbol>)

  /** A loaded table: where it lives, its header, and the two pointers
      (`names`, `name_base`) the loader fills in. */
  datatype SymbolTable = SymbolTable(addr: nat, header: Header, names: int, nameBase: int)

  /** How the environment answers the loader's questions: whether the zip
      reader is linked and gives a zip, what `_mapanon` returns, the inflater,
      the header the loaded bytes describe, and the inputs of the debug-binary
      fallback (pledge, located path, and what opening it yields). */
  datatype Loader = Loader(
    zipos: Option<Zipos>,
    mapAddr: Option<nat>,
    inflate: Inflater,
    overlay: seq<byte> -> Header,
    rpathPledged: bool,
    debugBinary: Option<string>,
    openSymbolTable: string -> Option<SymbolTable>)

  ghost predicate ValidLoader(ld: Loader)
  {
    ld.zipos.Some? ==> ValidZip(ld.zipos.value)
  }

  /** A table read from the zip, with `names` and `name_base` set to the table
      base plus their offsets. */
  function Publish(m: Mapping, overlay: seq<byte> -> Header): (t: SymbolTable)
    ensures t.addr == m.addr && t.header == overlay(m.bytes)
    ensures t.names - t.addr == t.header.namesOffset
    ensures t.nameBase - t.addr == t.header.nameBaseOffset
  {
    var h := overlay(m.bytes);
    SymbolTable(m.addr, h, m.addr + h.namesOffset, m.addr + h.nameBaseOffset)
  }

  /** GetSymbolTableFromElf: only with the rpath promise and a located debug
      binary is the binary opened. */
  function GetSymbolTableFromElf(ld: Loader): (t: Option<SymbolTable>)
    ensures t.Some? ==> ld.rpathPledged && ld.debugBinary.Some?
    ensures t.Some? ==> t == ld.openSymbolTable(ld.debugBinary.value)
  {
    if ld.rpathPledged && ld.debugBinary.Some? then ld.openSymbolTable(ld.debugBinary.value)
    else None
  }

  /** The memory operations of the zip attempt. */
  ghost function ZipOps(ld: Loader): seq<MemOp>
    requires ValidLoader(ld)
  {
    if ld.zipos.Some? then ZipMapping(ld.zipos.value, ld.mapAddr, ld.inflate).1 else []
  }

  /** The table a first build produces: the zip source first, the debug
      binary only when the zip gave nothing. */
  ghost function Construct(ld: Loader): (t: Option<SymbolTable>)
    requires ValidLoader(ld)
    ensures ld.zipos.Some? && ZipMapping(ld.zipos.value, ld.mapAddr, ld.inflate).0.Some? ==>
              t == Some(Publish(ZipMapping(ld.zipos.value, ld.mapAddr, ld.inflate).0.value, ld.overlay))
    ensures (ld.zipos.None? || ZipMapping(ld.zipos.value, ld.mapAddr, ld.inflate).0.None?) ==>
              t == GetSymbolTableFromElf(ld)
  {
    var fromZip := if ld.zipos.Some? then ZipMapping(ld.zipos.value, ld.mapAddr, ld.inflate).0 else None;
    if fromZip.Some? then Some(Publish(fromZip.value, ld.overlay)) else GetSymbolTableFromElf(ld)
  }

  /** The process-wide state of getsymboltable.c: the `__symtab` singleton,
      the `g_lock` try-lock, the `__isworker` flag and a log of the memory
      operations performed on its behalf. */
  class SymbolTableService {
    var symtab: Option<SymbolTable>
    var locked: bool
    var isWorker: bool
    var log: seq<MemOp>

    constructor (worker: bool)
      ensures symtab == None && !locked && isWorker == worker && log == []
    {
      symtab, locked, isWorker, log := None, false, worker, [];
    }

    /** GetSymbolTable: fails fast when the lock is held, builds the table at
        most once (never in a worker), and releases the lock it took. */
    method GetSymbolTable(ld: Loader) returns (r: Option<SymbolTable>)
      requires ValidLoader(ld)
      modifies this
      ensures isWorker == old(isWorker) && locked == old(locked)
      ensures old(locked) ==> r == None && symtab == old(symtab) && log == old(log)
      ensures !old(locked) && (old(symtab).Some? || isWorker) ==>
                r == symtab == old(symtab) && log == old(log)
      ensures !old(locked) && old(symtab).None? && !isWorker ==>
                r == symtab == Construct(ld) && log == old(log) + ZipOps(ld)
    {
      if locked {
        return None;
      }
      locked := true;
      if symtab.None? && !isWorker {
        if ld.zipos.Some? {
          var m, ops := GetSymbolTableFromZip(ld.zipos.value, ld.mapAddr, ld.inflate);
          log := log + ops;
          if m.Some? {
            symtab := Some(Publish(m.value, ld.overlay));
          }
        }
        if symtab.None? {
          symtab := GetSymbolTableFromElf(ld);
        }
      }
      locked := false;
      r := symtab;
    }

    /** Once a call has built a table, a later call that gets the lock
        returns the very same table and builds nothing. */
    method GetSymbolTableTwice(ld: Loader, ld2: Loader) returns (r1: Option<SymbolTable>, r2: Option<SymbolTable>)
      requires ValidLoader(ld) && ValidLoader(ld2) && !locked
      modifies this
      ensures r1.Some? ==> r2 == r1 && symtab == r1
      ensures !old(isWorker) && old(symtab).None? ==> r1 == Construct(ld)
    {
      r1 := GetSymbolTable(ld);
      ghost var logAfterFirst := log;
      r2 := GetSymbolTable(ld2);
      assert r1.Some? ==> log == logAfterFirst;
    }

    /** The table `__get_symbol` searches: t, or `__symtab` when t is null. */
    function Chosen(t: Option<SymbolTable>): (c: Option<SymbolTable>)
      reads this
      ensures c.None? <==> t.None? && symtab.None?
      ensures t.Some? ==> c == t
    {
      if t.Some? then t else symtab
    }

    /** `__get_symbol`: binary search for the first symbol whose end is at
        least the 32-bit key `a - addr_base`, then a containment check. The
        unsigned index found, idx, is returned through the C `int`, so r is
        its 32-bit two's-complement reading. */
    method GetSymbol(t: Option<SymbolTable>, a: int) returns (r: int, ghost idx: int)
      requires Chosen(t).Some? ==> |Chosen(t).value.header.symbols| < Two32
      ensures Chosen(t).None? ==> r == -1 && idx == -1
      ensures Chosen(t).Some? ==>
                var syms := Chosen(t).value.header.symbols;
                var k := Key(a, Chosen(t).value.header.addrBase);
                && (idx == -1 || (0 <= idx < |syms| && Contains(syms[idx], k)))
                && (SortedByEnd(syms) ==> idx == Lookup(syms, k))
                && r == (if idx == -1 then -1 else Int32Of(idx))
    {
      var tt := if t.Some? then t else symtab;
      if tt.None? {
        return -1, -1;
      }
      var syms := tt.value.header.symbols;
      var n := |syms|;
      var k := (a - tt.value.header.addrBase) % Two32;
      var l, h := 0, n;
      while l < h
        invariant 0 <= l <= h <= n
        invariant SortedByEnd(syms) ==> forall i :: 0 <= i < l ==> syms[i].y < k
        invariant SortedByEnd(syms) ==> forall i :: h <= i < n ==> syms[i].y >= k
      {
        var m := Midpoint(l, h);
        if syms[m].y < k {
          l := m + 1;
        } else {
          h := m;
        }
      }
      if SortedByEnd(syms) {
        LowerBoundIs(syms, k, l);
      }
      if l < n && syms[l].x <= k && k <= syms[l].y {
        r, idx := Int32Of(l), l;
      } else {
        r, idx := -1, -1;
      }
    }
  }

  /** The conversion of an unsigned 32-bit value to the C `int` it is
      returned as: the same bits read as two's complement. */
  function Int32Of(u: int): (r: int)
    requires 0 <= u < Two32
    ensures -Two32 / 2 <= r < Two32 / 2
    ensures (r - u) % Two32 == 0
  {
    if u < Two32 / 2 then u else u - Two32
  }

  /** An index below 2^31 comes back as itself, so a caller can tell it from
      the -1 of a miss; the index 0xFFFFFFFF comes back as -1, a hit that
      reads as a miss, and every index from 2^31 up comes back negative. */
  lemma IndexAsInt(u: int)
    requires 0 <= u < Two32
    ensures Int32Of(u) == u <==> u < Two32 / 2
    ensures Int32Of(u) == -1 <==> u == Two32 - 1
    ensures Int32Of(u) >= 0 <==> u < Two32 / 2
  {
  }

  /** The search key: `a - addr_base` truncated to an unsigned 32-bit value,
      so an address below the base wraps around instead of being rejected. */
  function Key(a: int, addrBase: int): (k: int)
    ensures 0 <= k < Two32
    ensures (k - (a - addrBase)) % Two32 == 0
  {
    (a - addrBase) % Two32
  }

  /** The midpoint of a non-empty search window [l, h), computed without the
      32-bit wrap-around of the source's `(l + r) >> 1` (see MidpointAsWritten). */
  function Midpoint(l: nat, h: nat): (m: nat)
    requires l < h
    ensures l <= m < h
  {
    (l + h) / 2
  }

  /** The midpoint as the source computes it, in unsigned 32-bit arithmetic. */
  function MidpointAsWritten(l: nat, h: nat): (m: nat)
    requires l < h < Two32
    ensures m < Two32 / 2
  {
    ((l + h) % Two32) / 2
  }

  /** With a window high in a table of more than 2^31 entries the as-written
      midpoint falls below the window, so the search can move backwards. */
  lemma MidpointAsWrittenLeavesWindow()
    ensures MidpointAsWritten(0x8000_0000, 0xFFFF_FFFF) < 0x8000_0000
  {
  }

  /** Below that size both midpoints agree. */
  lemma MidpointAgreesForSmallTables(l: nat, h: nat)
    requires l < h <= Two32 / 2
    ensures MidpointAsWritten(l, h) == Midpoint(l, h)
  {
  }

  predicate Contains(s: Symbol, k: int)
  {
    s.x <= k <= s.y
  }

  /** Entries sorted by non-decreasing range end (what the search relies on). */
  ghost predicate SortedByEnd(syms: seq<Symbol>)
  {
    forall i, j :: 0 <= i < j < |syms| ==> syms[i].y <= syms[j].y
  }

  /** Entries sorted by both range ends, each range well formed. */
  ghost predicate Ordered(syms: seq<Symbol>)
  {
    && SortedByEnd(syms)
    && (forall i, j :: 0 <= i < j < |syms| ==> syms[i].x <= syms[j].x)
    && (forall i :: 0 <= i < |syms| ==> syms[i].x <= syms[i].y)
  }

  /** Linear reference: the first index whose range end is at least k. */
  function LowerBound(syms: seq<Symbol>, k: int): (i: nat)
    ensures i <= |syms|
  {
    if syms == [] then 0
    else if syms[0].y >= k then 0
    else 1 + LowerBound(syms[1..], k)
  }

  /** Linear reference for `__get_symbol`: the lower bound if it contains k. */
  function Lookup(syms: seq<Symbol>, k: int): int
  {
    var i := LowerBound(syms, k);
    if i < |syms| && Contains(syms[i], k) then i else -1
  }

  /** An index l with every end before it below k, and the end at l (if any)
      at least k, is LowerBound. */
  lemma {:induction false} LowerBoundIs(syms: seq<Symbol>, k: int, l: nat)
    requires l <= |syms|
    requires forall i :: 0 <= i < l ==> syms[i].y < k
    requires l < |syms| ==> syms[l].y >= k
    ensures LowerBound(syms, k) == l
  {
    if l > 0 {
      assert syms[0].y < k;
      LowerBoundIs(syms[1..], k, l - 1);
    }
  }

  /** LowerBound is the first index whose end reaches k. */
  lemma {:induction false} LowerBoundIsFirst(syms: seq<Symbol>, k: int)
    ensures forall i :: 0 <= i < LowerBound(syms, k) ==> syms[i].y < k
    ensures LowerBound(syms, k) < |syms| ==> syms[LowerBound(syms, k)].y >= k
  {
    if syms != [] && syms[0].y < k {
      LowerBoundIsFirst(syms[1..], k);
      forall i | 0 < i < LowerBound(syms, k) ensures syms[i].y < k {
        assert syms[i] == syms[1..][i - 1];
      }
    }
  }

  /** On an ordered table the lookup is exact: it misses exactly when no
      range contains k, and otherwise returns the least index whose range
      contains k. */
  lemma LookupExact(syms: seq<Symbol>, k: int)
    requires Ordered(syms)
    ensures Lookup(syms, k) == -1 <==> forall i :: 0 <= i < |syms| ==> !Contains(syms[i], k)
    ensures Lookup(syms, k) != -1 ==>
              && 0 <= Lookup(syms, k) < |syms|
              && Contains(syms[Lookup(syms, k)], k)
              && forall i :: 0 <= i < Lookup(syms, k) ==> !Contains(syms[i], k)
  {
    LowerBoundIsFirst(syms, k);
    var lb := LowerBound(syms, k);
    if exists j :: 0 <= j < |syms| && Contains(syms[j], k) {
      var j :| 0 <= j < |syms| && Contains(syms[j], k);
      assert lb <= j;
      assert syms[lb].x <= syms[j].x;
    }
  }
}
