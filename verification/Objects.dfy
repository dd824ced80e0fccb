/**
 Reading one page of a stored object: the Range header that names it, and the
 bounded read of the whole object that checks it before any byte is served.
 */
module Objects {
  import opened Framing

  const LIMIT64: nat := 0x1_0000_0000_0000_0000

  type UInt64 = x: int | 0 <= x < LIMIT64

  const DASH: Byte := 45
  const BYTES_UNIT: Bytes := [98, 121, 116, 101, 115, 61] // "bytes="

  datatype Limits = Limits(page: UInt64, verification: UInt64) {
    /** ObjectLimits.Validate. */
    predicate Accepted() { page != 0 && page <= 0x10_0000 && page <= verification <= 0x400_0000 }
  }

  /** ObjectLimits.Validate: each check in its turn. */
  method Validate(l: Limits) returns (ok: bool)
    ensures ok <==> l.Accepted()
  {
    if l.page == 0 || l.page > 1_048_576 { return false; }
    ok := l.verification >= l.page && l.verification <= 64 * 1_048_576;
  }

  // ---------------------------------------------------------------- the range

  datatype Answer = Serve(start: UInt64, end: UInt64, partial: bool) | Refuse(status: nat)

  predicate Digits(s: Bytes) { s != [] && forall i :: 0 <= i < |s| ==> 48 <= s[i] <= 57 }

  /** Where the first dash stands, or the length if there is none. */
  function FirstDash(s: Bytes): (k: nat)
    ensures k <= |s| && DASH !in s[..k] && (k < |s| ==> s[k] == DASH)
  {
    if s == [] || s[0] == DASH then 0
    else
      var k := FirstDash(s[1..]) + 1;
      assert s[..k] == [s[0]] + s[1..][..k - 1];
      k
  }

  function ObjectRange(values: seq<Bytes>, size: UInt64, maxPage: UInt64): Answer {
    if |values| == 0 then
      if size > maxPage then Refuse(413) else Serve(0, if size > 0 then size - 1 else 0, false)
    else if |values| != 1 || !(BYTES_UNIT <= values[0]) then Refuse(400)
    else
      var rest := values[0][|BYTES_UNIT|..];
      var cut := FirstDash(rest);
      if cut == |rest| || !Digits(rest[..cut]) || !Digits(rest[cut + 1..]) then Refuse(400)
      else
        var start, end := Value(rest[..cut]), Value(rest[cut + 1..]);
        if !(0 <= start < LIMIT64) || !(0 <= end < LIMIT64) || end < start then Refuse(400)
        else if start >= size || end >= size then Refuse(416)
        else if end - start >= maxPage then Refuse(413)
        else Serve(start, end, true)
  }

  /** The header names the inclusive range from `a` to `b`, each spelled in decimal digits. */
  ghost predicate Names(values: seq<Bytes>, a: Bytes, b: Bytes) {
    values == [BYTES_UNIT + a + [DASH] + b] && Digits(a) && Digits(b)
  }

  lemma {:induction false} DigitsDenoteNat(s: Bytes)
    requires forall i :: 0 <= i < |s| ==> 48 <= s[i] <= 57
    ensures Value(s) >= 0
  {
    if s != [] { DigitsDenoteNat(s[..|s| - 1]); }
  }

  lemma {:induction false} CutAtDash(s: Bytes, k: nat)
    requires k < |s| && s[k] == DASH && (forall i :: 0 <= i < k ==> s[i] != DASH)
    ensures FirstDash(s) == k
  {
    if k > 0 { CutAtDash(s[1..], k - 1); }
  }

  /**
   What a well-formed header is answered: in order of precedence, malformed, outside the
   object, too long, or served.
   */
  lemma {:induction false} RangeAnswered(values: seq<Bytes>, a: Bytes, b: Bytes, size: UInt64, maxPage: UInt64)
    requires Names(values, a, b)
    ensures var start, end := Value(a), Value(b);
      ObjectRange(values, size, maxPage) ==
        if !(0 <= start <= end < LIMIT64) then Refuse(400)
        else if end >= size then Refuse(416)
        else if end - start >= maxPage then Refuse(413)
        else Serve(start, end, true)
  {
    hide Value, FirstDash;
    var rest := a + [DASH] + b;
    assert values[0] == BYTES_UNIT + rest;
    assert values[0][|BYTES_UNIT|..] == rest;
    CutAtDash(rest, |a|);
    assert rest[..|a|] == a && rest[|a| + 1..] == b;
    DigitsDenoteNat(a);
    DigitsDenoteNat(b);
  }

  /** Without a header the whole object is asked for: served, unpartial, exactly when it fits a page. */
  lemma {:induction false} WholeAnswered(size: UInt64, maxPage: UInt64)
    ensures ObjectRange([], size, maxPage).Serve? <==> size <= maxPage
    ensures size > maxPage ==> ObjectRange([], size, maxPage) == Refuse(413)
    ensures 0 < size <= maxPage ==> ObjectRange([], size, maxPage) == Serve(0, size - 1, false)
    ensures size == 0 ==> ObjectRange([], size, maxPage) == Serve(0, 0, false)
  {
    hide Value, FirstDash;
  }

  /** And nothing else is: a header of any other shape is malformed. */
  lemma OtherRangesRefused(values: seq<Bytes>, size: UInt64, maxPage: UInt64)
    requires values != [] && (forall a, b :: !Names(values, a, b))
    ensures ObjectRange(values, size, maxPage) == Refuse(400)
  {
    if |values| == 1 && BYTES_UNIT <= values[0] {
      var rest := values[0][|BYTES_UNIT|..];
      var cut := FirstDash(rest);
      if cut < |rest| {
        assert values[0] == BYTES_UNIT + rest[..cut] + [DASH] + rest[cut + 1..];
        assert !Names(values, rest[..cut], rest[cut + 1..]);
      }
    }
  }

  function RangeHeader(start: nat, end: nat): seq<Bytes> { [BYTES_UNIT + Decimal(start) + [DASH] + Decimal(end)] }

  /** A range a client spells out is served, as itself, exactly when it lies in the object and fits a page. */
  lemma RangeRoundTrip(start: nat, end: nat, size: UInt64, maxPage: UInt64)
    requires start <= end
    ensures ObjectRange(RangeHeader(start, end), size, maxPage).Serve? <==> end < size && end - start < maxPage
    ensures end < size && end - start < maxPage ==>
      ObjectRange(RangeHeader(start, end), size, maxPage) == Serve(start, end, true)
  {
    DecimalDenotes(start);
    DecimalDenotes(end);
    assert Names(RangeHeader(start, end), Decimal(start), Decimal(end));
    RangeAnswered(RangeHeader(start, end), Decimal(start), Decimal(end), size, maxPage);
  }

  /** Every answer that serves names bytes of the object, and no more of them than a page holds. */
  lemma {:induction false} ServedFits(values: seq<Bytes>, size: UInt64, maxPage: UInt64)
    requires ObjectRange(values, size, maxPage).Serve?
    ensures var r := ObjectRange(values, size, maxPage);
      if size == 0 then r == Serve(0, 0, false) else r.start <= r.end < size && r.end - r.start + 1 <= maxPage
  {}

  // --------------------------------------------------------------- the stream

  datatype ReadError = NoError | EndOfStream | Fault

  /** One Read: the count it claims, what it left in the buffer, and its error. */
  datatype Reply = Reply(n: int, fill: nat -> Byte, err: ReadError)

  /** What the provider and the request's context do, read by read, and at the close. */
  datatype Stream = Stream(reply: nat -> Reply, ended: nat -> bool, endedAtClose: bool, closeFails: bool)

  datatype Metadata = Metadata(size: UInt64, digest: Bytes)

  const WINDOW: nat := 0x8000
  const MAX_EMPTY_READS: nat := 100

  function Data(r: Reply): Bytes { if r.n > 0 then seq<Byte>(r.n, (j: nat) => r.fill(j)) else [] }

  /** The bytes of the first `k` reads. */
  function Delivered(st: Stream, k: nat): Bytes {
    if k == 0 then [] else Delivered(st, k - 1) + Data(st.reply(k - 1))
  }

  /** How many reads just before `k` came back empty. */
  function EmptyReads(st: Stream, k: nat): nat {
    if k == 0 || st.reply(k - 1).n > 0 then 0 else EmptyReads(st, k - 1) + 1
  }

  ghost predicate Fine(st: Stream, m: Metadata, ceiling: UInt64, i: nat) {
    && !st.ended(i)
    && 0 <= st.reply(i).n <= WINDOW && st.reply(i).n <= ceiling - |Delivered(st, i)| + 1
    && |Delivered(st, i + 1)| <= m.size
    && EmptyReads(st, i + 1) <= MAX_EMPTY_READS
  }

  /**
   The stream ends at read `k`, well behaved to the last, having delivered exactly the
   object the metadata describes.
   */
  ghost predicate Conforms(st: Stream, m: Metadata, ceiling: UInt64, hash: Bytes -> Bytes, k: nat) {
    && (forall i :: 0 <= i <= k ==> Fine(st, m, ceiling, i))
    && (forall i :: 0 <= i < k ==> st.reply(i).err.NoError?) && st.reply(k).err.EndOfStream?
    && |Delivered(st, k + 1)| == m.size && hash(Delivered(st, k + 1)) == m.digest
  }

  datatype Outcome = Page(bytes: Bytes) | Failed

  predicate InObject(m: Metadata, start: UInt64, end: UInt64) {
    if m.size == 0 then start == 0 && end == 0 else start <= end < m.size
  }

  function Slice(whole: Bytes, start: UInt64, end: UInt64): Bytes {
    if start <= end < |whole| then whole[start..end + 1] else []
  }

  /** These bytes are the named slice of what a conforming stream delivered. */
  ghost predicate Fetched(st: Stream, m: Metadata, ceiling: UInt64, hash: Bytes -> Bytes, start: UInt64, end: UInt64,
                          bytes: Bytes) {
    exists k: nat :: Conforms(st, m, ceiling, hash, k) && bytes == Slice(Delivered(st, k + 1), start, end)
  }

  // ----------------------------------------------------------- the page reader

  /** The part of the page that the first `offset` bytes of the object determine. */
  ghost predicate Filled(page: Bytes, whole: Bytes, start: UInt64) {
    forall j :: 0 <= j < |page| && start + j < |whole| ==> page[j] == whole[start + j]
  }

  /** The deferred close: a context that has ended outranks every result, and a failed close spoils a success. */
  function Closing(st: Stream, out: Outcome): Outcome {
    if st.endedAtClose || st.closeFails then Failed else out
  }

  /** The source's copy of the overlap between what was just read and the page. */
  method CopyOverlap(page: array<Byte>, window: array<Byte>, n: nat, offset: UInt64, start: UInt64, end: UInt64,
                     ghost whole: Bytes)
    requires 0 < n <= window.Length && start <= end && page.Length == end - start + 1 && page != window
    requires |whole| == offset && offset + n < LIMIT64 && end + 1 < LIMIT64
    requires Filled(page[..], whole, start)
    modifies page
    ensures Filled(page[..], whole + window[..n], start)
  {
    var next: UInt64 := offset + n;
    var left: UInt64 := if offset > start then offset else start;
    var right: UInt64 := if next < end + 1 then next else end + 1;
    if left < right {
      forall p | left - start <= p < right - start {
        page[p] := window[p + start - offset];
      }
    }
  }

  /** A Read into the window, then the copy. */
  method TakeRead(r: Reply, page: array<Byte>, window: array<Byte>, offset: UInt64, start: UInt64, end: UInt64,
                  ghost whole: Bytes)
    requires 0 < r.n <= window.Length && start <= end && page != window
    requires page.Length == end - start + 1 || page.Length == 0
    requires |whole| == offset && offset + r.n < LIMIT64 && end + 1 < LIMIT64
    requires Filled(page[..], whole, start)
    modifies page, window
    ensures window[..r.n] == Data(r) && Filled(page[..], whole + Data(r), start)
  {
    forall j | 0 <= j < r.n {
      window[j] := r.fill(j);
    }
    assert |window[..r.n]| == |Data(r)| && forall j: nat :: j < r.n ==> window[..r.n][j] == Data(r)[j];
    if page.Length > 0 { CopyOverlap(page, window, r.n, offset, start, end, whole); }
  }

  method VerifiedPage(st: Stream, m: Metadata, start: UInt64, end: UInt64, ceiling: UInt64, hash: Bytes -> Bytes)
    returns (out: Outcome)
    requires InObject(m, start, end) && m.size <= ceiling <= 0x400_0000
    ensures out.Page? <==> !st.endedAtClose && !st.closeFails && exists k: nat :: Conforms(st, m, ceiling, hash, k)
    ensures out.Page? ==> Fetched(st, m, ceiling, hash, start, end, out.bytes)
  {
    hide Conforms, Fine, Filled;
    var count: UInt64 := 0;
    if m.size > 0 { count := end - start + 1; }
    var page := new Byte[count](_ => 0);
    var window := new Byte[WINDOW](_ => 0);
    var digested: Bytes := [];
    var offset: UInt64 := 0;
    var emptyReads: nat := 0;
    var i: nat := 0;
    NothingFilled(page[..], start);
    while true
      invariant page.Length == count && window.Length == WINDOW
      invariant forall j :: 0 <= j < i ==> Fine(st, m, ceiling, j) && st.reply(j).err.NoError?
      invariant digested == Delivered(st, i) && offset == |digested| <= m.size
      invariant emptyReads == EmptyReads(st, i) <= MAX_EMPTY_READS
      invariant Filled(page[..], digested, start)
      decreases m.size - offset, MAX_EMPTY_READS - emptyReads
    {
      FineExactly(st, m, ceiling, i);
      if st.ended(i) { NotFine(st, m, ceiling, hash, i); return Failed; }
      var remaining: UInt64 := ceiling - offset + 1;
      var length: nat := if remaining < WINDOW then remaining else WINDOW;
      var r := st.reply(i);
      if r.n < 0 || r.n > length { NotFine(st, m, ceiling, hash, i); return Failed; }
      if r.n > 0 {
        emptyReads := 0;
        if r.n > ceiling - offset || offset + r.n > m.size { NotFine(st, m, ceiling, hash, i); return Failed; }
        TakeRead(r, page, window, offset, start, end, digested);
        digested := digested + window[..r.n];
        offset := offset + r.n;
      } else {
        emptyReads := emptyReads + 1;
        if emptyReads > MAX_EMPTY_READS { NotFine(st, m, ceiling, hash, i); return Failed; }
        assert digested == Delivered(st, i + 1);
      }
      i := i + 1;
      if !r.err.NoError? {
        OnlyEnd(st, m, ceiling, hash, i - 1);
        if !r.err.EndOfStream? { return Failed; }
        break;
      }
    }
    ConformsExactly(st, m, ceiling, hash, i - 1);
    if offset != m.size || m.digest != hash(digested) { return Failed; }
    FilledPage(page[..], digested, start, end);
    out := Closing(st, Page(page[..]));
  }

  lemma NothingFilled(page: Bytes, start: UInt64)
    ensures Filled(page, [], start)
  {}

  lemma FilledPage(page: Bytes, whole: Bytes, start: UInt64, end: UInt64)
    requires Filled(page, whole, start)
    requires if whole == [] then page == [] else start <= end < |whole| && |page| == end - start + 1
    ensures page == Slice(whole, start, end)
  {}

  lemma FineExactly(st: Stream, m: Metadata, ceiling: UInt64, i: nat)
    requires |Delivered(st, i)| <= m.size <= ceiling && EmptyReads(st, i) <= MAX_EMPTY_READS
    ensures Fine(st, m, ceiling, i) <==> (
      && !st.ended(i) && 0 <= st.reply(i).n <= WINDOW
      && |Delivered(st, i)| + st.reply(i).n <= m.size
      && (st.reply(i).n == 0 ==> EmptyReads(st, i) + 1 <= MAX_EMPTY_READS))
  {}

  lemma ConformsExactly(st: Stream, m: Metadata, ceiling: UInt64, hash: Bytes -> Bytes, i: nat)
    requires forall j :: 0 <= j <= i ==> Fine(st, m, ceiling, j)
    requires forall j :: 0 <= j < i ==> st.reply(j).err.NoError?
    requires st.reply(i).err.EndOfStream?
    ensures Conforms(st, m, ceiling, hash, i) <==>
      |Delivered(st, i + 1)| == m.size && hash(Delivered(st, i + 1)) == m.digest
  {}

  lemma NotFine(st: Stream, m: Metadata, ceiling: UInt64, hash: Bytes -> Bytes, i: nat)
    requires forall j :: 0 <= j < i ==> st.reply(j).err.NoError?
    requires !Fine(st, m, ceiling, i)
    ensures forall k: nat :: !Conforms(st, m, ceiling, hash, k)
  {}

  lemma OnlyEnd(st: Stream, m: Metadata, ceiling: UInt64, hash: Bytes -> Bytes, i: nat)
    requires forall j :: 0 <= j < i ==> st.reply(j).err.NoError?
    requires !st.reply(i).err.NoError?
    ensures forall k: nat :: Conforms(st, m, ceiling, hash, k) ==> k == i && st.reply(i).err.EndOfStream?
  {}

  // ------------------------------------------------------------- one request

  datatype Response = Served(status: nat, bytes: Bytes) | Refused(status: nat) | Unreadable

  /** The body route, once the object's metadata is in hand. `found` says whether the provider opened a stream. */
  method ServePage(values: seq<Bytes>, m: Metadata, limits: Limits, found: bool, st: Stream, hash: Bytes -> Bytes)
    returns (r: Response)
    requires limits.Accepted()
    ensures var a := ObjectRange(values, m.size, limits.page);
      if a.Refuse? then r == Refused(a.status)
      else if m.size > limits.verification then r == Refused(413)
      else
        && (r.Served? <==>
           found && !st.endedAtClose && !st.closeFails &&
             exists k: nat :: Conforms(st, m, limits.verification, hash, k))
        && (r.Served? ==>
          && r.status == (if a.partial then 206 else 200) && |r.bytes| <= limits.page
          && Fetched(st, m, limits.verification, hash, a.start, a.end, r.bytes))
  {
    var a := ObjectRange(values, m.size, limits.page);
    if a.Refuse? { return Refused(a.status); }
    if m.size > limits.verification { return Refused(413); }
    if !found { return Unreadable; }
    ServedFits(values, m.size, limits.page);
    var out := VerifiedPage(st, m, a.start, a.end, limits.verification, hash);
    if out.Failed? { return Unreadable; }
    r := Served(if a.partial then 206 else 200, out.bytes);
  }

  // ------------------------------------------------------------- whole objects

  /** No other bytes of that length have its digest. */
  ghost predicate Unforgeable(hash: Bytes -> Bytes, whole: Bytes) {
    forall other :: |other| == |whole| && hash(other) == hash(whole) ==> other == whole
  }

  /** A page served is a page of the object, whichever provider served it. */
  lemma {:induction false} PageOfObject(whole: Bytes, st: Stream, m: Metadata, ceiling: UInt64, hash: Bytes -> Bytes,
                                        start: UInt64, end: UInt64, bytes: Bytes)
    requires m.size == |whole| && m.digest == hash(whole) && Unforgeable(hash, whole)
    requires Fetched(st, m, ceiling, hash, start, end, bytes)
    ensures bytes == Slice(whole, start, end)
  {}

  datatype Fetch = Fetch(st: Stream, start: UInt64, end: UInt64, bytes: Bytes)

  function Join(pages: seq<Fetch>): Bytes {
    if pages == [] then [] else Join(pages[..|pages| - 1]) + pages[|pages| - 1].bytes
  }

  /** Consecutive ranges from the object's first byte. */
  predicate Consecutive(pages: seq<Fetch>, size: nat) {
    && (forall i :: 0 <= i < |pages| ==> pages[i].start <= pages[i].end < size)
    && (pages != [] ==> pages[0].start == 0)
    && (forall i :: 0 < i < |pages| ==> pages[i].start == pages[i - 1].end + 1)
  }

  lemma {:induction false} JoinSlices(whole: Bytes, pages: seq<Fetch>)
    requires pages != [] && Consecutive(pages, |whole|)
    requires forall i :: 0 <= i < |pages| ==> pages[i].bytes == Slice(whole, pages[i].start, pages[i].end)
    ensures Join(pages) == whole[..pages[|pages| - 1].end + 1]
  {
    var front, last := pages[..|pages| - 1], pages[|pages| - 1];
    if front == [] {
      assert Join(front) == [] && last.bytes == whole[..last.end + 1];
    } else {
      JoinSlices(whole, front);
      assert whole[..last.start] + whole[last.start..last.end + 1] == whole[..last.end + 1];
    }
  }

  /**
   Pages of consecutive ranges, each read from its own stream, join into a prefix of the
   object: all of it once they reach its end.
   */
  lemma {:induction false} PagesJoin(whole: Bytes, m: Metadata, ceiling: UInt64, hash: Bytes -> Bytes,
                                     pages: seq<Fetch>)
    requires m.size == |whole| && m.digest == hash(whole) && Unforgeable(hash, whole)
    requires pages != [] && Consecutive(pages, m.size)
    requires forall p :: p in pages ==> Fetched(p.st, m, ceiling, hash, p.start, p.end, p.bytes)
    ensures Join(pages) == whole[..pages[|pages| - 1].end + 1]
    ensures pages[|pages| - 1].end == m.size - 1 ==> Join(pages) == whole
  {
    hide Fetched, Unforgeable;
    forall i | 0 <= i < |pages|
      ensures pages[i].bytes == Slice(whole, pages[i].start, pages[i].end)
    {
      var p := pages[i];
      PageOfObject(whole, p.st, m, ceiling, hash, p.start, p.end, p.bytes);
    }
    JoinSlices(whole, pages);
    assert whole[..|whole|] == whole;
  }
}
