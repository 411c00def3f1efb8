/**
 * The directory stream of `src/sys/linux/fs.rs` (`ReadDir::next`).  The
 * stream owns a 32 KiB buffer of getdents64 records and a byte cursor into
 * it; it refills the buffer only when the cursor reaches the end, advances
 * the cursor by each record's declared length, and becomes permanently
 * exhausted on the first empty read or the first error.
 *
 * Records are abstract (length, raw name bytes, type tag) rather than byte
 * layouts.  The kernel is an oracle: the sequence of answers its
 * getdents64 calls will give, one batch per call, after which every
 * further call reads zero bytes.
 */
module ReadDir {
  import opened Io
  import CStr
  import FileMode

  /** The capacity of the stream's buffer, in bytes. */
  const BUFFER_CAPACITY: nat := 32768

  /** One getdents64 record: its declared length `d_reclen`, its NUL-terminated name and its type tag. */
  datatype Record = Record(reclen: nat, dName: seq<byte>, dtype: bv8)

  /** One answer of getdents64: an error number, or the records it wrote into the buffer. */
  datatype Batch = Failed(code: int) | Filled(records: seq<Record>)

  /** `DirEntry`: the entry's name, its inline type tag and a copy of the directory's path. */
  datatype DirEntry = DirEntry(name: seq<byte>, dtype: bv8, root: seq<byte>)

  /** `DirEntry::from_raw`: the name is the record's name up to its first NUL. */
  function EntryOf(rec: Record, root: seq<byte>): (e: DirEntry)
    ensures |e.name| <= |rec.dName| && e.name == rec.dName[..|e.name|] && 0 !in e.name
    ensures |e.name| < |rec.dName| ==> rec.dName[|e.name|] == 0
    ensures e.dtype == rec.dtype && e.root == root
  {
    DirEntry(CStr.Prefix(rec.dName), rec.dtype, root)
  }


  /** The number of bytes a sequence of records occupies in the buffer. */
  function BufLen(buf: seq<Record>): nat {
    if |buf| == 0 then 0 else buf[0].reclen + BufLen(buf[1..])
  }

  /** `offset` is where some record of `buf` starts, or the end of the last one. */
  predicate Boundary(buf: seq<Record>, offset: nat) {
    offset == 0 || (|buf| > 0 && buf[0].reclen <= offset && Boundary(buf[1..], offset - buf[0].reclen))
  }

  /** The records from byte `offset` onwards. */
  function Rest(buf: seq<Record>, offset: nat): (r: seq<Record>)
    requires Boundary(buf, offset)
    ensures |r| <= |buf|
  {
    if offset == 0 then buf else Rest(buf[1..], offset - buf[0].reclen)
  }

  /** The records from a boundary onwards occupy the rest of the buffer's bytes. */
  lemma {:induction false} RestFacts(buf: seq<Record>, offset: nat)
    requires Boundary(buf, offset)
    ensures offset <= BufLen(buf)
    ensures BufLen(Rest(buf, offset)) == BufLen(buf) - offset
    ensures PositiveReclens(buf) ==> PositiveReclens(Rest(buf, offset))
  {
    if offset != 0 {
      RestFacts(buf[1..], offset - buf[0].reclen);
      assert PositiveReclens(buf) ==> PositiveReclens(buf[1..]) by {
        if PositiveReclens(buf) {
          forall i | 0 <= i < |buf[1..]| ensures buf[1..][i].reclen > 0 {
            assert buf[1..][i] == buf[i + 1];
          }
        }
      }
    }
  }

  /** Stepping over the record at a boundary lands on the next boundary. */
  lemma {:induction false} RestAdvance(buf: seq<Record>, offset: nat)
    requires Boundary(buf, offset) && offset < BufLen(buf)
    ensures |Rest(buf, offset)| > 0
    ensures Boundary(buf, offset + Rest(buf, offset)[0].reclen)
    ensures offset + Rest(buf, offset)[0].reclen <= BufLen(buf)
    ensures Rest(buf, offset)[0].reclen > 0 ==>
              Rest(buf, offset + Rest(buf, offset)[0].reclen) == Rest(buf, offset)[1..]
  {
    if offset == 0 {
      assert |buf| > 0;
      assert Boundary(buf[1..], 0);
    } else {
      RestAdvance(buf[1..], offset - buf[0].reclen);
    }
  }

  /** `ReadDirInner`: the directory's path, the loaded records and the byte cursor. */
  datatype Inner = Inner(root: seq<byte>, buf: seq<Record>, offset: nat)

  /** `ReadDir`: `None` once the stream is exhausted. */
  datatype Stream = Stream(inner: Option<Inner>)

  /** The cursor sits on a record boundary of a buffer that fits its capacity. */
  predicate Valid(s: Stream) {
    s.inner.Some? ==>
      Boundary(s.inner.value.buf, s.inner.value.offset) && BufLen(s.inner.value.buf) <= BUFFER_CAPACITY
  }

  /** `ReadDir::new`: an empty buffer, so the first `next` refills it. */
  function OpenStream(root: seq<byte>): (s: Stream)
    ensures Valid(s) && s.inner.Some?
    ensures s.inner.value.buf == [] && s.inner.value.offset == 0
    ensures s.inner.value.offset == BufLen(s.inner.value.buf)
    ensures s.inner.value.root == root
  {
    Stream(Some(Inner(root, [], 0)))
  }

  /** One getdents64 call: the oracle's next batch, or a zero-byte read once it has none left. */
  function Getdents(kernel: seq<Batch>): (Batch, seq<Batch>) {
    if |kernel| == 0 then (Filled([]), []) else (kernel[0], kernel[1..])
  }

  /** What one call of `next` did: the item it returned and the new stream and kernel, or a panic. */
  datatype Step =
    | Step(item: Option<Result<DirEntry>>, stream: Stream, kernel: seq<Batch>)
    | Panic  // the kernel reported more bytes than the buffer holds

  /** Yields the record at the cursor and steps the cursor over it. */
  function Emit(d: Inner, kernel: seq<Batch>): (r: Step)
    requires Boundary(d.buf, d.offset) && d.offset < BufLen(d.buf) && BufLen(d.buf) <= BUFFER_CAPACITY
    ensures |Rest(d.buf, d.offset)| > 0
    ensures r.Step? && r.kernel == kernel && Valid(r.stream)
    ensures r.item == Some(Ok(EntryOf(Rest(d.buf, d.offset)[0], d.root)))
    ensures r.stream.inner == Some(d.(offset := d.offset + Rest(d.buf, d.offset)[0].reclen))
  {
    RestAdvance(d.buf, d.offset);
    var rec := Rest(d.buf, d.offset)[0];
    Step(Some(Ok(EntryOf(rec, d.root))), Stream(Some(d.(offset := d.offset + rec.reclen))), kernel)
  }

  /**
   * The step a refill takes on the kernel's answer `batch`: an error is
   * reported and ends the stream; an empty read ends it quietly; a read larger
   * than the buffer panics; otherwise the buffer holds the new records and the
   * cursor has stepped over the first, whose entry is returned.
   */
  predicate RefillOutcome(root: seq<byte>, batch: Batch, later: seq<Batch>, r: Step) {
    match batch
    case Failed(code) => r == Step(Some(Err(Os(code))), Stream(None), later)
    case Filled(recs) =>
      if BufLen(recs) == 0 then r == Step(None, Stream(None), later)
      else if BufLen(recs) > BUFFER_CAPACITY then r.Panic?
      else |recs| > 0 &&
           r == Step(Some(Ok(EntryOf(recs[0], root))), Stream(Some(Inner(root, recs, recs[0].reclen))), later)
  }

  /** `ReadDir::next`. */
  function Next(s: Stream, kernel: seq<Batch>): (r: Step)
    requires Valid(s)
    ensures r.Step? ==> Valid(r.stream)
    // An exhausted stream answers `None` without asking the kernel.
    ensures s.inner.None? ==> r == Step(None, s, kernel)
    // End of directory and errors leave the stream exhausted.
    ensures r.Step? && (r.item.None? || r.item.value.Err?) ==> r.stream.inner.None?
    // The kernel is asked only when the cursor is at the end of the buffer.
    ensures (r.Panic? || r.kernel != kernel) ==>
              s.inner.Some? && s.inner.value.offset == BufLen(s.inner.value.buf)
    ensures r.Panic? ==>
              |kernel| > 0 && kernel[0].Filled? && BufLen(kernel[0].records) > BUFFER_CAPACITY
    // Otherwise the record at the cursor is yielded and the cursor advances by its length.
    ensures s.inner.Some? && s.inner.value.offset < BufLen(s.inner.value.buf) ==>
              |Rest(s.inner.value.buf, s.inner.value.offset)| > 0
    ensures s.inner.Some? && s.inner.value.offset < BufLen(s.inner.value.buf) ==>
              var d := s.inner.value;
              var rec := Rest(d.buf, d.offset)[0];
              r == Step(Some(Ok(EntryOf(rec, d.root))), Stream(Some(d.(offset := d.offset + rec.reclen))), kernel)
    // A refill: what it does with each kind of answer.
    ensures s.inner.Some? && s.inner.value.offset == BufLen(s.inner.value.buf) && |kernel| == 0 ==>
              r == Step(None, Stream(None), [])
    ensures s.inner.Some? && s.inner.value.offset == BufLen(s.inner.value.buf) && |kernel| > 0 ==>
              RefillOutcome(s.inner.value.root, kernel[0], kernel[1..], r)
  {
    match s.inner
    case None => Step(None, s, kernel)
    case Some(d) =>
      if d.offset == BufLen(d.buf) then
        var (batch, kernel') := Getdents(kernel);
        match batch
        case Failed(e) => Step(Some(Err(Os(e))), Stream(None), kernel')
        case Filled(records) =>
          var read := BufLen(records);
          if read == 0 then Step(None, Stream(None), kernel')
          else if read > BUFFER_CAPACITY then Panic
          else Emit(Inner(d.root, records, 0), kernel')
      else
        RestFacts(d.buf, d.offset);
        Emit(d, kernel)
  }

  /** Every record of a well-formed answer has a positive length, and the answer fits the buffer. */
  predicate BatchWellFormed(b: Batch) {
    b.Filled? ==> BufLen(b.records) <= BUFFER_CAPACITY && PositiveReclens(b.records)
  }

  predicate PositiveReclens(buf: seq<Record>) {
    forall i :: 0 <= i < |buf| ==> buf[i].reclen > 0
  }

  predicate KernelWellFormed(kernel: seq<Batch>) {
    forall i :: 0 <= i < |kernel| ==> BatchWellFormed(kernel[i])
  }

  /** The conditions under which a stream can be drained to the end. */
  predicate Drainable(s: Stream, kernel: seq<Batch>) {
    Valid(s) && KernelWellFormed(kernel) && (s.inner.Some? ==> PositiveReclens(s.inner.value.buf))
  }

  /** A well-formed kernel never panics the stream, and every yield makes progress. */
  lemma NextProgress(s: Stream, kernel: seq<Batch>)
    requires Drainable(s, kernel) && s.inner.Some?
    ensures Next(s, kernel).Step?
    ensures Next(s, kernel).item.Some? ==> Drainable(Next(s, kernel).stream, Next(s, kernel).kernel)
    ensures Next(s, kernel).item.Some? && Next(s, kernel).stream.inner.Some? ==>
              |Next(s, kernel).kernel| < |kernel|
              || (Next(s, kernel).kernel == kernel &&
                  |Rest(Next(s, kernel).stream.inner.value.buf, Next(s, kernel).stream.inner.value.offset)|
                  < |Rest(s.inner.value.buf, s.inner.value.offset)|)
  {
    var d := s.inner.value;
    var r := Next(s, kernel);
    RestFacts(d.buf, d.offset);
    if d.offset < BufLen(d.buf) {
      RestAdvance(d.buf, d.offset);
    } else if |kernel| > 0 {
      assert BatchWellFormed(kernel[0]);
      assert forall i :: 0 <= i < |kernel[1..]| ==> kernel[1..][i] == kernel[i + 1];
    }
  }

  /** The items of all calls of `next` until the first `None`. */
  function Drain(s: Stream, kernel: seq<Batch>): seq<Result<DirEntry>>
    requires Drainable(s, kernel)
    decreases (if s.inner.Some? then |kernel| + 1 else 0),
              (if s.inner.Some? then |Rest(s.inner.value.buf, s.inner.value.offset)| else 0)
  {
    if s.inner.None? then []
    else
      NextProgress(s, kernel);
      var r := Next(s, kernel);
      match r.item
      case None => []
      case Some(item) => [item] + Drain(r.stream, r.kernel)
  }

  /** The entries of a sequence of records, in order. */
  function Entries(recs: seq<Record>, root: seq<byte>): (es: seq<Result<DirEntry>>)
    ensures |es| == |recs|
  {
    if |recs| == 0 then [] else [Ok(EntryOf(recs[0], root))] + Entries(recs[1..], root)
  }

  /**
   * The listing the kernel's answers describe: the records of every batch
   * in order, up to the first empty batch, or up to and including the first
   * error.
   */
  function Listing(root: seq<byte>, kernel: seq<Batch>): seq<Result<DirEntry>> {
    if |kernel| == 0 then []
    else match kernel[0]
      case Failed(e) => [Err(Os(e))]
      case Filled(recs) =>
        if BufLen(recs) == 0 then [] else Entries(recs, root) + Listing(root, kernel[1..])
  }

  /** A buffer of positive-length records that occupies no bytes holds no records. */
  lemma EmptyRest(buf: seq<Record>, offset: nat)
    requires Boundary(buf, offset) && PositiveReclens(buf) && offset == BufLen(buf)
    ensures Rest(buf, offset) == []
  {
    RestFacts(buf, offset);
  }

  /** Draining a stream yields the records still in its buffer, then the kernel's listing. */
  lemma {:induction false} DrainInner(d: Inner, kernel: seq<Batch>)
    requires Drainable(Stream(Some(d)), kernel)
    ensures Drain(Stream(Some(d)), kernel) == Entries(Rest(d.buf, d.offset), d.root) + Listing(d.root, kernel)
    decreases |kernel|, |Rest(d.buf, d.offset)|
  {
    RestFacts(d.buf, d.offset);
    if d.offset < BufLen(d.buf) {
      DrainYield(d, kernel);
    } else {
      DrainRefill(d, kernel);
    }
  }

  /** The cursor is inside the buffer: the record there comes first. */
  lemma {:induction false} DrainYield(d: Inner, kernel: seq<Batch>)
    requires Drainable(Stream(Some(d)), kernel) && d.offset < BufLen(d.buf)
    ensures Drain(Stream(Some(d)), kernel) == Entries(Rest(d.buf, d.offset), d.root) + Listing(d.root, kernel)
    decreases |kernel|, |Rest(d.buf, d.offset)|, 0
  {
    var s := Stream(Some(d));
    NextProgress(s, kernel);
    RestFacts(d.buf, d.offset);
    RestAdvance(d.buf, d.offset);
    var rest := Rest(d.buf, d.offset);
    var r := Emit(d, kernel);
    assert Next(s, kernel) == r;
    var d' := r.stream.inner.value;
    assert Rest(d'.buf, d'.offset) == rest[1..];
    DrainInner(d', kernel);
    assert Drain(s, kernel) == [r.item.value] + Drain(r.stream, kernel);
  }

  /** The cursor is at the end of the buffer: the next batch decides. */
  lemma {:induction false} DrainRefill(d: Inner, kernel: seq<Batch>)
    requires Drainable(Stream(Some(d)), kernel) && d.offset == BufLen(d.buf)
    ensures Drain(Stream(Some(d)), kernel) == Entries(Rest(d.buf, d.offset), d.root) + Listing(d.root, kernel)
    decreases |kernel|, |Rest(d.buf, d.offset)|, 1
  {
    EmptyRest(d.buf, d.offset);
    if |kernel| > 0 && kernel[0].Filled? && BufLen(kernel[0].records) > 0 {
      DrainLoad(d, kernel);
    } else {
      var s := Stream(Some(d));
      DrainUnfold(s, kernel);
      if |kernel| > 0 && kernel[0].Failed? {
        assert Drain(s, kernel) == [Err(Os(kernel[0].code))] + Drain(Stream(None), kernel[1..]);
      }
    }
  }

  /** A refill with a non-empty batch: its records come first, then the rest of the listing. */
  lemma {:induction false} DrainLoad(d: Inner, kernel: seq<Batch>)
    requires Drainable(Stream(Some(d)), kernel) && d.offset == BufLen(d.buf)
    requires |kernel| > 0 && kernel[0].Filled? && BufLen(kernel[0].records) > 0
    ensures Drain(Stream(Some(d)), kernel) == Entries(kernel[0].records, d.root) + Listing(d.root, kernel[1..])
    decreases |kernel|, 0, 0
  {
    var s := Stream(Some(d));
    var recs := kernel[0].records;
    assert BatchWellFormed(kernel[0]);
    DrainUnfold(s, kernel);
    RestAdvance(recs, 0);
    var r := Emit(Inner(d.root, recs, 0), kernel[1..]);
    assert Next(s, kernel) == r;
    var d' := r.stream.inner.value;
    assert Rest(d'.buf, d'.offset) == recs[1..];
    DrainInner(d', kernel[1..]);
  }

  /** Over well-formed answers, a fresh stream yields exactly the kernel's listing. */
  lemma DrainListsDirectory(root: seq<byte>, kernel: seq<Batch>)
    requires KernelWellFormed(kernel)
    ensures Drain(OpenStream(root), kernel) == Listing(root, kernel)
  {
    DrainInner(Inner(root, [], 0), kernel);
  }

  /** The answers of `n` successive calls of `next` (cut short by a panic). */
  function Calls(s: Stream, kernel: seq<Batch>, n: nat): (answers: seq<Option<Result<DirEntry>>>)
    requires Valid(s)
    ensures |answers| <= n
    decreases n
  {
    if n == 0 then []
    else
      var r := Next(s, kernel);
      if r.Panic? then [] else [r.item] + Calls(r.stream, r.kernel, n - 1)
  }

  /** `n` answers of `None`. */
  function Nones(n: nat): (answers: seq<Option<Result<DirEntry>>>)
    ensures |answers| == n && forall i :: 0 <= i < n ==> answers[i].None?
  {
    seq(n, i => None)
  }

  /** An exhausted stream answers `None` to every later call. */
  lemma {:induction false} ExhaustedForever(s: Stream, kernel: seq<Batch>, n: nat)
    requires s.inner.None?
    ensures Calls(s, kernel, n) == Nones(n)
  {
    if n > 0 {
      ExhaustedForever(s, kernel, n - 1);
      assert Nones(n) == [None] + Nones(n - 1);
    }
  }

  /** An error is reported once; every later call answers `None`. */
  lemma ErrorReportedOnce(s: Stream, kernel: seq<Batch>, n: nat)
    requires Valid(s)
    requires Next(s, kernel).Step? && Next(s, kernel).item.Some? && Next(s, kernel).item.value.Err?
    ensures Calls(s, kernel, n + 1) == [Next(s, kernel).item] + Nones(n)
  {
    ExhaustedForever(Next(s, kernel).stream, Next(s, kernel).kernel, n);
  }

  /** Each item wrapped as the answer of one call. */
  function Answers(items: seq<Result<DirEntry>>): (answers: seq<Option<Result<DirEntry>>>)
    ensures |answers| == |items|
    ensures forall i :: 0 <= i < |items| ==> answers[i] == Some(items[i])
  {
    seq(|items|, i requires 0 <= i < |items| => Some(items[i]))
  }

  /** One call of `next` followed by the rest of the calls. */
  lemma CallsUnfold(s: Stream, kernel: seq<Batch>, n: nat)
    requires Valid(s) && n > 0 && Next(s, kernel).Step?
    ensures Calls(s, kernel, n) == [Next(s, kernel).item] + Calls(Next(s, kernel).stream, Next(s, kernel).kernel, n - 1)
  {
  }

  /** Draining a live stream that still yields: its first item, then the rest. */
  lemma DrainUnfold(s: Stream, kernel: seq<Batch>)
    requires Drainable(s, kernel) && s.inner.Some?
    ensures Next(s, kernel).Step?
    ensures Next(s, kernel).item.None? ==> Drain(s, kernel) == []
    ensures Next(s, kernel).item.Some? ==>
              Drainable(Next(s, kernel).stream, Next(s, kernel).kernel) &&
              Drain(s, kernel) == [Next(s, kernel).item.value] + Drain(Next(s, kernel).stream, Next(s, kernel).kernel)
  {
    NextProgress(s, kernel);
  }

  lemma AnswersCons(item: Result<DirEntry>, items: seq<Result<DirEntry>>)
    ensures Answers([item] + items) == [Some(item)] + Answers(items)
  {
    assert Answers([item] + items)[1..] == Answers(items);
  }

  /** Successive calls answer the drained items one by one, then `None` for good. */
  lemma {:induction false} CallsAfterDrain(s: Stream, kernel: seq<Batch>, n: nat)
    requires Drainable(s, kernel)
    ensures Calls(s, kernel, |Drain(s, kernel)| + n) == Answers(Drain(s, kernel)) + Nones(n)
    decreases (if s.inner.Some? then |kernel| + 1 else 0),
              (if s.inner.Some? then |Rest(s.inner.value.buf, s.inner.value.offset)| else 0), 1
  {
    if s.inner.None? {
      ExhaustedForever(s, kernel, n);
    } else {
      DrainUnfold(s, kernel);
      if Next(s, kernel).item.None? {
        CallsAfterEnd(s, kernel, n);
      } else {
        CallsAfterYield(s, kernel, n);
      }
    }
  }

  /** The stream's next call ends it: every call answers `None`. */
  lemma CallsAfterEnd(s: Stream, kernel: seq<Batch>, n: nat)
    requires Drainable(s, kernel) && s.inner.Some?
    requires Next(s, kernel).Step? && Next(s, kernel).item.None?
    ensures Drain(s, kernel) == []
    ensures Calls(s, kernel, n) == Nones(n)
  {
    DrainUnfold(s, kernel);
    var r := Next(s, kernel);
    ExhaustedForever(r.stream, r.kernel, n);
    if n > 0 {
      CallsUnfold(s, kernel, n);
      assert Nones(n) == [None] + Nones(n - 1);
    }
  }

  /** The stream's next call yields an item: it is the first answer, the rest follow. */
  lemma {:induction false} CallsAfterYield(s: Stream, kernel: seq<Batch>, n: nat)
    requires Drainable(s, kernel) && s.inner.Some?
    requires Next(s, kernel).Step? && Next(s, kernel).item.Some?
    ensures Calls(s, kernel, |Drain(s, kernel)| + n) == Answers(Drain(s, kernel)) + Nones(n)
    decreases |kernel| + 1, |Rest(s.inner.value.buf, s.inner.value.offset)|, 0
  {
    NextProgress(s, kernel);
    DrainUnfold(s, kernel);
    var r := Next(s, kernel);
    var rest := Drain(r.stream, r.kernel);
    CallsAfterDrain(r.stream, r.kernel, n);
    CallsUnfold(s, kernel, |rest| + 1 + n);
    AnswersCons(r.item.value, rest);
  }

  /**
   * A fresh stream over well-formed answers: the first calls answer the
   * kernel's listing in order, and every call after that answers `None`.
   */
  lemma StreamAnswersListing(root: seq<byte>, kernel: seq<Batch>, n: nat)
    requires KernelWellFormed(kernel)
    ensures Calls(OpenStream(root), kernel, |Listing(root, kernel)| + n) == Answers(Listing(root, kernel)) + Nones(n)
  {
    DrainListsDirectory(root, kernel);
    CallsAfterDrain(OpenStream(root), kernel, n);
  }
}
