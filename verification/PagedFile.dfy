/** Regular files of the temporary file system: bytes in 4K pages, and the flat file that they are. */
module PagedFile {
  import opened Common
  import RadixTree
  import R = Radix

  type Byte = x: nat | x < 256

  type Page = p: seq<Byte> | |p| == 0x1000 witness seq(0x1000, _ => 0)

  const ZERO_PAGE: Page := seq(0x1000, _ => 0)

  const U64: nat := 0x1_0000_0000_0000_0000

  /** The keys of the radix tree of a file. */
  const KEYS: nat := RadixTree.Pow(512, 8)

  /** The pages that exist, by page number. */
  type Pages = map<nat, Page>

  /** Byte `i` of the flat file; a page that does not exist is zero. */
  function At(pages: Pages, i: nat): Byte {
    if i / PAGE_SIZE in pages then pages[i / PAGE_SIZE][i % PAGE_SIZE] else 0
  }

  /** How much of `size` bytes from `off` on lies in the page of `off`. */
  function Chunk(off: nat, size: nat): (n: nat)
    requires size > 0
    ensures 0 < n <= size && off % PAGE_SIZE + n <= PAGE_SIZE
    ensures n == size || (off + n) % PAGE_SIZE == 0
  {
    if off % PAGE_SIZE + size > PAGE_SIZE then PAGE_SIZE - off % PAGE_SIZE else size
  }

  /** memcpy into a page. */
  function CopyIn(page: Page, off: nat, data: seq<Byte>): (r: Page)
    requires off + |data| <= PAGE_SIZE
    ensures forall j :: 0 <= j < PAGE_SIZE ==> r[j] == if off <= j < off + |data| then data[j - off] else page[j]
  {
    page[..off] + data + page[off + |data|..]
  }

  /** One page written: the bytes of the chunk change, and no other byte of the file. */
  lemma WriteChunk(pages: Pages, cur: nat, data: seq<Byte>, i: nat)
    requires 0 < |data| && cur % PAGE_SIZE + |data| <= PAGE_SIZE
    ensures var page := if cur / PAGE_SIZE in pages then pages[cur / PAGE_SIZE] else ZERO_PAGE;
            At(pages[cur / PAGE_SIZE := CopyIn(page, cur % PAGE_SIZE, data)], i)
            == if cur <= i < cur + |data| then data[i - cur] else At(pages, i)
  {
    SamePage(cur, |data|, i);
  }

  lemma SamePage(cur: nat, n: nat, i: nat)
    requires cur % PAGE_SIZE + n <= PAGE_SIZE
    ensures cur <= i < cur + n
            <==> i / PAGE_SIZE == cur / PAGE_SIZE && cur % PAGE_SIZE <= i % PAGE_SIZE < cur % PAGE_SIZE + n
    ensures cur <= i < cur + n ==> i % PAGE_SIZE - cur % PAGE_SIZE == i - cur
  {
  }

  /** memcpy out of a page: the bytes of the file there. */
  lemma ReadChunk(pages: Pages, cur: nat, n: nat, i: nat)
    requires cur % PAGE_SIZE + n <= PAGE_SIZE && cur / PAGE_SIZE in pages && cur <= i < cur + n
    ensures pages[cur / PAGE_SIZE][cur % PAGE_SIZE..cur % PAGE_SIZE + n][i - cur] == At(pages, i)
  {
    SamePage(cur, n, i);
  }

  /** The size that tfs_file_write leaves: it compares the byte count, not the end of the range, with the old size. */
  function NewSize(size: nat, n: nat): nat {
    if n > size then n else size
  }

  /** That is the end of the file exactly when the write starts at 0 or stays inside the file. */
  lemma SizeIsEnd(size: nat, offset: nat, n: nat)
    requires offset <= size
    ensures NewSize(size, n) == (if offset + n > size then offset + n else size) <==> offset == 0 || offset + n <= size
  {
  }

  /** Appending three bytes to a file of five leaves its size at five. */
  lemma AppendForgotten()
    ensures NewSize(5, 3) == 5 && 5 + 3 > 5
  {
  }

  /** Where a read of `count` bytes from `offset` on is to end. */
  function ReadEnd(size: nat, offset: nat, count: nat): nat {
    if offset + count > size then size else offset + count
  }

  /** How many bytes tfs_file_read sets out to copy: the sum that it compares with the size has 64 bits. */
  function ReadLength(size: nat, offset: nat, count: nat): nat
    requires offset <= size
  {
    if (offset + count) % U64 > size then size - offset else count
  }

  /** The sum wraps round to a number that is not more than the size. */
  predicate Wraps(size: nat, offset: nat, count: nat) {
    offset + count >= U64 && offset + count - U64 <= size
  }

  /** That many bytes end where they are to end exactly if the sum does not wrap round so. */
  lemma LengthExact(size: nat, offset: nat, count: nat)
    requires offset <= size < U64 && count < U64
    ensures offset + ReadLength(size, offset, count) == ReadEnd(size, offset, count) <==> !Wraps(size, offset, count)
    ensures Wraps(size, offset, count) ==> offset + ReadLength(size, offset, count) > size
  {
    if offset + count >= U64 {
      assert (offset + count) % U64 == offset + count - U64;
    }
  }

  /** Reading 2^64 - 1 bytes from byte 5 of a file of ten is not cut off. */
  lemma NotCutOff()
    ensures Wraps(10, 5, U64 - 1) && ReadLength(10, 5, U64 - 1) == U64 - 1
  {
  }

  /** No read of the file that does not wrap copies from a page that does not exist, exactly when all pages up to the
      size exist. */
  lemma AllReadsSafe(pages: Pages, size: nat)
    requires size < U64
    ensures (forall offset: nat, count: nat :: offset <= size && !Wraps(size, offset, count) ==>
               Present(pages, offset, ReadEnd(size, offset, count)))
            <==> Present(pages, 0, size)
  {
    if forall offset: nat, count: nat :: offset <= size && !Wraps(size, offset, count) ==>
               Present(pages, offset, ReadEnd(size, offset, count)) {
      assert Present(pages, 0, ReadEnd(size, 0, size));
    }
  }

  /** The address under `k`, 0 if there is none. */
  function AddressOf(addr: map<nat, nat>, k: nat): nat {
    if k in addr then addr[k] else 0
  }

  /** The radix tree is the map `addr` from page numbers to addresses. */
  ghost predicate Indexed(radix: R.Radix, addr: map<nat, nat>)
    reads radix
  {
    && radix.Valid() && radix.base == 512 && radix.levels == 8 && (forall k :: k in addr ==> k < KEYS)
    && forall k: nat {:trigger radix.Value(k)} :: k < KEYS ==> radix.Value(k) == AddressOf(addr, k)
  }

  /** The memory at these addresses is what the pages of the file are, and no two share an address. */
  ghost predicate Stored(mem: map<nat, Page>, next: nat, addr: map<nat, nat>, pages: Pages) {
    && next > 0 && addr.Keys == pages.Keys
    && (forall k :: k in addr ==> 0 < addr[k] < next && addr[k] in mem && mem[addr[k]] == pages[k])
    && (forall j, k :: j in addr && k in addr && addr[j] == addr[k] ==> j == k)
  }

  lemma StoredAdd(mem: map<nat, Page>, next: nat, addr: map<nat, nat>, pages: Pages, no: nat)
    requires Stored(mem, next, addr, pages) && no !in pages
    ensures Stored(mem[next := ZERO_PAGE], next + 1, addr[no := next], pages[no := ZERO_PAGE])
  {
  }

  lemma StoredCopy(mem: map<nat, Page>, next: nat, addr: map<nat, nat>, pages: Pages, no: nat, p: Page)
    requires Stored(mem, next, addr, pages) && no in pages
    ensures Stored(mem[addr[no] := p], next, addr, pages[no := p])
  {
  }

  /** radix_add on the map that the tree is. */
  method AddAddress(radix: R.Radix, ghost addr: map<nat, nat>, no: nat, page: nat)
    requires Indexed(radix, addr) && no < KEYS
    modifies radix
    ensures Indexed(radix, addr[no := page])
  {
    radix.Add(no, page);
  }

  /** Bytes [lo, hi) of the file are now those of `data`, the others are what they were. */
  ghost predicate Changed(p0: Pages, p1: Pages, lo: nat, hi: nat, data: seq<Byte>) {
    forall i: nat :: At(p1, i) == if lo <= i < hi && i - lo < |data| then data[i - lo] else At(p0, i)
  }

  /** The pages of the bytes [lo, hi) came to those that there were. */
  ghost predicate Added(p0: Pages, p1: Pages, lo: nat, hi: nat)
    requires lo <= hi
  {
    forall k: nat :: k in p1 <==> k in p0 || Covers(lo, hi - lo, k)
  }

  lemma PageChanged(p0: Pages, p1: Pages, cur: nat, next: nat, no: nat, off: nat, data: seq<Byte>)
    requires no == cur / PAGE_SIZE && off == cur % PAGE_SIZE && next == cur + |data|
             && 0 < |data| && off + |data| <= PAGE_SIZE
    requires no in p1 && p1 == if no in p0 then p0 else p0[no := ZERO_PAGE]
    ensures Changed(p0, p1[no := CopyIn(p1[no], off, data)], cur, next, data)
  {
    var page := CopyIn(p1[no], off, data);
    assert p1[no := page] == p0[no := page];
    forall i: nat
      ensures At(p1[no := page], i) == if cur <= i < cur + |data| then data[i - cur] else At(p0, i)
    {
      WriteChunk(p0, cur, data, i);
    }
  }

  lemma ChangedMore(p0: Pages, p1: Pages, p2: Pages, lo: nat, cur: nat, next: nat, data: seq<Byte>)
    requires lo <= cur <= next && next - lo <= |data| && Changed(p0, p1, lo, cur, data)
    requires Changed(p1, p2, cur, next, data[cur - lo..next - lo])
    ensures Changed(p0, p2, lo, next, data)
  {
  }

  lemma AddedMore(p0: Pages, p1: Pages, p2: Pages, lo: nat, cur: nat, next: nat)
    requires lo <= cur < next && cur % PAGE_SIZE + (next - cur) <= PAGE_SIZE && (cur == lo || cur % PAGE_SIZE == 0)
    requires Added(p0, p1, lo, cur) && p2.Keys == p1.Keys + {cur / PAGE_SIZE}
    ensures Added(p0, p2, lo, next)
  {
    forall k: nat
      ensures k in p2 <==> k in p0 || Covers(lo, next - lo, k)
    {
      CoversMore(lo, cur, next - cur, k);
      assert k in p2 <==> k in p2.Keys;
      assert k in p1 <==> k in p1.Keys;
    }
  }

  /** A write leaves a hole below the size exactly if there was one that it did not fill. */
  lemma NoHole(p0: Pages, p1: Pages, size: nat, offset: nat, n: nat)
    requires Added(p0, p1, offset, offset + n) && offset <= size
    ensures Present(p1, 0, NewSize(size, n)) <==>
            forall k: nat :: Covers(0, NewSize(size, n), k) ==> k in p0 || Covers(offset, n, k)
    ensures Present(p0, 0, size) ==> Present(p1, 0, NewSize(size, n))
  {
    PresentCovers(p1, NewSize(size, n));
    PresentCovers(p0, size);
    CoversGrown(size, offset, n);
  }

  class Inode {
    /** The addresses of the pages, by page number. */
    const radix: R.Radix
    /** The memory that calloc gives to pages, by address, and the next address that it returns. */
    var mem: map<nat, Page>
    var nextPage: nat
    var size: nat
    ghost var addr: map<nat, nat>
    ghost var pages: Pages

    /** The pages of the file are those that the radix tree leads to. */
    ghost predicate Linked()
      reads this, radix
    {
      Indexed(radix, addr) && Stored(mem, nextPage, addr, pages) && size < U64
    }

    /** All pages up to the size exist. */
    ghost predicate Valid()
      reads this
    {
      Present(pages, 0, size)
    }

    /** new_reg. */
    constructor ()
      ensures Linked() && Valid() && pages == map[] && size == 0 && fresh(radix)
    {
      radix := new R.Radix(512, 8);
      mem, nextPage, addr, pages, size := map[], 1, map[], map[], 0;
    }

    /** A file from tfs_mknod: it has a size and no pages. */
    constructor Mknod(len: nat)
      requires 0 < len < U64
      ensures Linked() && pages == map[] && size == len && !Valid() && fresh(radix)
    {
      radix := new R.Radix(512, 8);
      mem, nextPage, addr, pages, size := map[], 1, map[], map[], len;
      new;
      assert PageNo(0) !in pages;
    }

    /** tfs_file_write. */
    method Write(offset: nat, data: seq<Byte>) returns (n: nat)
      requires Linked() && offset <= size && offset + |data| < U64
      modifies this`mem, this`nextPage, this`size, this`addr, this`pages, radix
      ensures Linked() && n == |data| && size == NewSize(old(size), |data|)
      ensures Changed(old(pages), pages, offset, offset + |data|, data)
              && Added(old(pages), pages, offset, offset + |data|)
      ensures Valid() <==> forall k: nat :: Covers(0, size, k) ==> k in old(pages) || Covers(offset, |data|, k)
      ensures old(Valid()) ==> Valid()
    {
      var end := WriteBytes(offset, data);
      if end - offset > size {
        size := end - offset;
      }
      n := end - offset;
      NoHole(old(pages), pages, old(size), offset, |data|);
    }

    /** Its loop. */
    method WriteBytes(offset: nat, data: seq<Byte>) returns (cur: nat)
      requires Linked() && offset + |data| < U64
      modifies this`mem, this`nextPage, this`addr, this`pages, radix
      ensures Linked() && cur == offset + |data|
      ensures Changed(old(pages), pages, offset, cur, data) && Added(old(pages), pages, offset, cur)
    {
      ghost var pages0, end := pages, offset + |data|;
      cur := offset;
      var left: nat := |data|;
      while left > 0
        invariant Linked() && offset <= cur && cur + left == end
        invariant left > 0 ==> cur == offset || cur % PAGE_SIZE == 0
        invariant Changed(pages0, pages, offset, cur, data) && Added(pages0, pages, offset, cur)
      {
        var to := Chunk(cur, left);
        var next := cur + to;
        ghost var pages1, whole := pages, next % PAGE_SIZE == 0;
        assert to == left || whole;
        WritePage(cur, next, data[cur - offset..next - offset]);
        ChangedMore(pages0, pages1, pages, offset, cur, next, data);
        AddedMore(pages0, pages1, pages, offset, cur, next);
        cur := next;
        left := left - to;
      }
    }

    /** The body of the loop of tfs_file_write: finds or adds the page and copies into it. */
    method WritePage(cur: nat, ghost next: nat, data: seq<Byte>)
      requires Linked() && 0 < |data| && cur % PAGE_SIZE + |data| <= PAGE_SIZE && next == cur + |data| < U64
      modifies this`mem, this`nextPage, this`addr, this`pages, radix
      ensures Linked() && pages.Keys == old(pages).Keys + {cur / PAGE_SIZE}
      ensures Changed(old(pages), pages, cur, next, data)
    {
      var no, off := cur / PAGE_SIZE, cur % PAGE_SIZE;
      PageKey(cur);
      var page := FindOrAdd(no);
      PageChanged(old(pages), pages, cur, next, no, off, data);
      CopyTo(no, page, off, data);
    }

    /** The address of page `no`, which is added if it is missing. */
    method FindOrAdd(no: nat) returns (page: nat)
      requires Linked() && no < KEYS
      modifies this`mem, this`nextPage, this`addr, this`pages, radix
      ensures Linked() && no in addr && page == addr[no] && no in pages
      ensures pages == if no in old(pages) then old(pages) else old(pages)[no := ZERO_PAGE]
    {
      page := radix.Get(no);
      assert page == AddressOf(addr, no);
      if page == 0 {
        page := AddPage(no);
      }
    }

    /** calloc and radix_add. */
    method AddPage(no: nat) returns (page: nat)
      requires Linked() && no < KEYS && no !in pages
      modifies this`mem, this`nextPage, this`addr, this`pages, radix
      ensures Linked() && pages == old(pages)[no := ZERO_PAGE] && no in addr && page == addr[no]
    {
      page := nextPage;
      StoredAdd(mem, nextPage, addr, pages, no);
      AddAddress(radix, addr, no, page);
      mem := mem[page := ZERO_PAGE];
      nextPage := nextPage + 1;
      addr := addr[no := page];
      pages := pages[no := ZERO_PAGE];
    }

    /** memcpy into the page at address `page`. */
    method CopyTo(no: nat, page: nat, off: nat, data: seq<Byte>)
      requires Linked() && no in addr && no in pages && page == addr[no] && off + |data| <= PAGE_SIZE
      modifies this`mem, this`pages
      ensures Linked() && pages == old(pages)[no := CopyIn(old(pages)[no], off, data)]
    {
      StoredCopy(mem, nextPage, addr, pages, no, CopyIn(pages[no], off, data));
      mem := mem[page := CopyIn(mem[page], off, data)];
      pages := pages[no := CopyIn(pages[no], off, data)];
    }

    /** The body of the loop of tfs_file_read. */
    method ReadPage(cur: nat, n: nat) returns (part: Option<seq<Byte>>)
      requires Linked() && cur < U64 && cur % PAGE_SIZE + n <= PAGE_SIZE
      ensures part.Some? <==> PageNo(cur) in pages
      ensures part.Some? ==> |part.value| == n && forall i: nat :: cur <= i < cur + n ==>
                part.value[i - cur] == At(pages, i)
    {
      var no, off := cur / PAGE_SIZE, cur % PAGE_SIZE;
      PageKey(cur);
      var page := radix.Get(no);
      assert page == AddressOf(addr, no);
      if page == 0 {
        return None;
      }
      part := Some(mem[page][off..off + n]);
      forall i: nat | cur <= i < cur + n
        ensures part.value[i - cur] == At(pages, i)
      {
        ReadChunk(pages, cur, n, i);
      }
    }

    /** tfs_file_read; None stands for a copy from a page that does not exist or beyond the size. */
    method Read(offset: nat, count: nat) returns (r: Option<seq<Byte>>)
      requires Linked() && offset <= size && count < U64
      ensures r.Some? <==> !Wraps(size, offset, count) && Present(pages, offset, ReadEnd(size, offset, count))
      ensures Valid() && !Wraps(size, offset, count) ==> r.Some?
      ensures r.Some? ==> |r.value| == ReadEnd(size, offset, count) - offset
      ensures r.Some? ==> forall i: nat :: offset <= i < offset + |r.value| ==> r.value[i - offset] == At(pages, i)
    {
      var left := ReadLength(size, offset, count);
      LengthExact(size, offset, count);
      if offset + left > size {
        return None;
      }
      ghost var end := offset + left;
      var cur: nat := offset;
      var buff: seq<Byte> := [];
      while left > 0
        invariant offset <= cur && cur + left == end && |buff| == cur - offset && Present(pages, offset, cur)
        invariant forall i: nat :: offset <= i < cur ==> buff[i - offset] == At(pages, i)
      {
        var to := Chunk(cur, left);
        var part := ReadPage(cur, to);
        if part.None? {
          return None;
        }
        PresentMore(pages, offset, cur, to);
        buff := buff + part.value;
        left := left - to;
        cur := cur + to;
      }
      return Some(buff);
    }

    /** What was written is read back, as far as the size admits. */
    method WriteRead(offset: nat, data: seq<Byte>) returns (r: Option<seq<Byte>>)
      requires Linked() && offset <= size && offset + |data| < U64
      modifies this`mem, this`nextPage, this`size, this`addr, this`pages, radix
      ensures Linked() && (offset == 0 || offset + |data| <= old(size) ==> r == Some(data))
      ensures offset <= size && r == Some(if offset + |data| <= size then data else data[..size - offset])
    {
      var n := Write(offset, data);
      CoversAll(pages, offset, |data|);
      r := Read(offset, |data|);
      assert Present(pages, offset, ReadEnd(size, offset, |data|));
      forall j | 0 <= j < |r.value|
        ensures r.value[j] == data[j]
      {
        assert r.value[j] == At(pages, offset + j);
      }
      assert r.value == if offset + |data| <= size then data else data[..size - offset];
    }
  }

  /** The first read of a file that tfs_mknod has made copies from a page that does not exist. */
  method NewFileRead(len: nat, count: nat) returns (r: Option<seq<Byte>>)
    requires 0 < len < U64 && 0 < count < U64
    ensures r == None
  {
    var inode := new Inode.Mknod(len);
    r := inode.Read(0, count);
    assert PageNo(0) !in inode.pages;
  }

  /** The number of a page is a key. */
  lemma PageKey(cur: nat)
    requires cur < U64
    ensures cur / PAGE_SIZE < KEYS
  {
    var p := RadixTree.Pow(512, 4);
    assert p == 0x10_0000_0000;
    assert RadixTree.Pow(512, 8) == 512 * (512 * (512 * (512 * p)));
  }

  /** Page `k` has some of the `n` bytes from `off` on. */
  predicate Covers(off: nat, n: nat, k: nat) {
    n > 0 && off / PAGE_SIZE <= k <= (off + n - 1) / PAGE_SIZE
  }

  lemma CoversMore(lo: nat, cur: nat, n: nat, k: nat)
    requires lo <= cur && 0 < n && cur % PAGE_SIZE + n <= PAGE_SIZE && (cur == lo || cur % PAGE_SIZE == 0)
    ensures Covers(lo, cur + n - lo, k) <==> Covers(lo, cur - lo, k) || k == cur / PAGE_SIZE
  {
  }

  lemma PresentCovers(pages: Pages, size: nat)
    ensures Present(pages, 0, size) <==> forall k: nat :: Covers(0, size, k) ==> k in pages
  {
    if Present(pages, 0, size) {
      forall k: nat | Covers(0, size, k)
        ensures k in pages
      {
        assert PageNo(k * PAGE_SIZE) == k && k * PAGE_SIZE < size;
      }
    }
    if forall k: nat :: Covers(0, size, k) ==> k in pages {
      forall i: nat | i < size
        ensures PageNo(i) in pages
      {
        assert Covers(0, size, PageNo(i));
      }
    }
  }

  /** A write that begins inside the file leaves no hole below the new size. */
  lemma CoversGrown(size: nat, off: nat, n: nat)
    requires off <= size
    ensures forall k: nat :: Covers(0, NewSize(size, n), k) ==> Covers(0, size, k) || Covers(off, n, k)
  {
  }

  lemma CoversAll(pages: Pages, off: nat, n: nat)
    requires forall k: nat :: Covers(off, n, k) ==> k in pages
    ensures Present(pages, off, off + n)
  {
    forall i: nat | off <= i < off + n
      ensures PageNo(i) in pages
    {
      assert Covers(off, n, PageNo(i));
    }
  }

  function PageNo(i: nat): nat {
    i / PAGE_SIZE
  }

  /** The pages for the bytes [lo, hi) exist. */
  ghost predicate Present(pages: Pages, lo: nat, hi: nat) {
    forall i: nat :: lo <= i < hi ==> PageNo(i) in pages
  }

  lemma PresentMore(pages: Pages, lo: nat, cur: nat, n: nat)
    requires lo <= cur && cur % PAGE_SIZE + n <= PAGE_SIZE && cur / PAGE_SIZE in pages && Present(pages, lo, cur)
    ensures Present(pages, lo, cur + n)
  {
    forall i: nat | lo <= i < cur + n
      ensures PageNo(i) in pages
    {
      SamePage(cur, n, i);
    }
  }
}
