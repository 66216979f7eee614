/** What a segment keeps: appended records are read back, reopening rebuilds the index, and when it does not. */
module SegmentLaws {
  import opened Wrappers
  import opened Bytes
  import opened Seqs
  import opened Segments

  /** The segment holds exactly the records `rs`, numbered from its base. */
  ghost predicate Log(s: Segment, rs: seq<Record>) {
    && s.data == EncodeAll(rs)
    && s.written == |s.data|
    && s.index == Index(rs, 0)
    && AllFit(rs)
    && forall i :: 0 <= i < |rs| ==> rs[i].sequence == s.base + i
  }

  // Appending

  lemma {:induction false} IndexSnoc(rs: seq<Record>, r: Record)
    ensures Index(rs + [r], 0) == Index(rs, 0) + [Entry(|EncodeAll(rs)|, r.timestamp)]
  {
    SizeOfAll(rs);
    forall i | 0 <= i <= |rs| ensures Size(rs + [r], i) == Size(rs, i) {
      SizeIsLength(rs + [r], i);
      SizeIsLength(rs, i);
      assert (rs + [r])[..i] == rs[..i];
    }
  }

  lemma {:induction false} EncodeSnoc(rs: seq<Record>, r: Record)
    ensures EncodeAll(rs + [r]) == EncodeAll(rs) + Encode(r)
  {
    EncodeAllConcat(rs, [r]);
    assert EncodeAll([r]) == Encode(r) + EncodeAll([]);
  }

  lemma {:induction false} WriteAtEnd(data: seq<byte>, b: seq<byte>)
    ensures Write(data, |data|, b) == data + b
  {
  }

  /**
   An append adds its record to the log if and only if the cursor stands at the end of what was written:
   it writes at the cursor but notes the other position in the index.
   */
  lemma {:induction false} AppendKeepsLogIff(s: Segment, rs: seq<Record>, m: Message)
    requires Log(s, rs) && Fits(Numbered(s, m))
    ensures Log(Append(s, m), rs + [Numbered(s, m)]) <==> s.cursor == s.written
  {
    var r := Numbered(s, m);
    EncodeSnoc(rs, r);
    IndexSnoc(rs, r);
    if s.cursor == s.written {
      WriteAtEnd(s.data, Encode(r));
    } else {
      assert |Write(s.data, s.cursor, Encode(r))| != |s.data| + |Encode(r)|;
    }
  }

  // Reading

  lemma {:induction false} ReadEncoded(r: Record, post: seq<byte>)
    requires Fits(r)
    ensures ReadRecord(Encode(r) + post) == Some(Normal(r))
  {
    hide *;
    var t := Encode(r) + post;
    WholeFields(r, post);
    ReadSlices(Front(r), r.subject, Be(2, |ReplyBytes(r)|), ReplyBytes(r), Be(4, |r.payload|), r.payload, post);
    EncodeIs(r);
    ReadFields(t, r);
  }

  lemma {:induction false} EncodeIs(r: Record)
    ensures Encode(r) == Front(r) + (r.subject + (
                           Be(2, |ReplyBytes(r)|) + (ReplyBytes(r) + (Be(4, |r.payload|) + r.payload))))
    ensures RecordSize(r) == 24 + |r.subject| + |ReplyBytes(r)| + |r.payload|
  {
  }

  /** The fields `read` goes by, when the file holds the whole record. */
  ghost predicate HasFields(t: seq<byte>, r: Record) {
    && |t| >= RecordSize(r)
    && Word(t, 0, 8) == r.sequence && Word(t, 8, 8) == r.timestamp
    && Field(t, 16, 2) == Some(|r.subject|)
    && Field(t, 18 + |r.subject|, 2) == Some(|ReplyBytes(r)|)
    && Field(t, 20 + |r.subject| + |ReplyBytes(r)|, 4) == Some(|r.payload|)
  }

  lemma {:induction false} WholeFields(r: Record, post: seq<byte>)
    requires Fits(r)
    ensures HasFields(Encode(r) + post, r)
  {
    var t := Encode(r) + post;
    assert Cut(t, |t|) == t;
    FieldsEncoded(r, post, |t|);
    FrontEncoded(r, post, |t|);
  }

  lemma {:induction false} ReadFields(t: seq<byte>, r: Record)
    requires HasFields(t, r) && |t| >= 24 + |r.subject| + |ReplyBytes(r)| + |r.payload|
    requires var at := 20 + |r.subject| + |ReplyBytes(r)|;
             && t[18..18 + |r.subject|] == r.subject
             && t[20 + |r.subject|..at] == ReplyBytes(r)
             && t[at + 4..at + 4 + |r.payload|] == r.payload
    ensures ReadRecord(t) == Some(Normal(r))
  {
  }

  lemma {:induction false} ReadSlices(
    f: seq<byte>, s: seq<byte>, x: seq<byte>, n: seq<byte>, y: seq<byte>, p: seq<byte>, post: seq<byte>)
    ensures var t := f + (s + (x + (n + (y + p)))) + post;
            && t[|f|..|f| + |s|] == s
            && t[|f| + |s| + |x|..|f| + |s| + |x| + |n|] == n
            && t[|f| + |s| + |x| + |n| + |y|..|f| + |s| + |x| + |n| + |y| + |p|] == p
  {
    Regroup(f, s, x, n, y, p, post);
    var t := f + (s + (x + (n + (y + p)))) + post;
    assert t == f + s + (x + (n + (y + (p + post))));
    assert t == (f + s + x) + n + (y + (p + post));
    assert t == (f + s + x + n + y) + p + post;
  }

  lemma {:induction false} TailOfLog(rs: seq<Record>, i: nat)
    requires i < |rs|
    ensures Size(rs, i) <= |EncodeAll(rs)|
    ensures EncodeAll(rs)[Size(rs, i)..] == Encode(rs[i]) + EncodeAll(rs[i + 1..])
  {
    SizeIsLength(rs, i);
    EncodeAllConcat(rs[..i], rs[i..]);
    assert rs == rs[..i] + rs[i..];
    assert rs[i..][1..] == rs[i + 1..];
  }

  lemma {:induction false} SizeStep(rs: seq<Record>, i: nat)
    requires i < |rs|
    ensures Size(rs, i + 1) == Size(rs, i) + RecordSize(rs[i])
  {
    if i > 0 {
      SizeStep(rs[1..], i - 1);
    }
  }

  /** Every record is read back as it was appended, an empty reply as none, and the cursor moves behind it. */
  lemma {:induction false} ReadReturns(s: Segment, rs: seq<Record>, i: nat)
    requires Log(s, rs) && i < |rs|
    ensures ReadAt(s, s.base + i) == (s.(cursor := Size(rs, i + 1)), Got(Normal(rs[i])))
  {
    hide *;
    LogEntry(s, rs, i);
    RecordOfLog(rs, i);
    SizeStep(rs, i);
    ReadAtEntry(s, s.base + i, Entry(Size(rs, i), rs[i].timestamp), Normal(rs[i]));
  }

  lemma {:induction false} LogEntry(s: Segment, rs: seq<Record>, i: nat)
    requires Log(s, rs) && i < |rs|
    ensures s.data == EncodeAll(rs) && AllFit(rs) && |s.index| == |rs|
    ensures Lookup(s, s.base + i) == Some(Entry(Size(rs, i), rs[i].timestamp))
    ensures RecordSize(Normal(rs[i])) == RecordSize(rs[i])
  {
  }

  lemma {:induction false} RecordOfLog(rs: seq<Record>, i: nat)
    requires i < |rs| && AllFit(rs)
    ensures ReadRecord(Drop(EncodeAll(rs), Size(rs, i))) == Some(Normal(rs[i]))
  {
    TailOfLog(rs, i);
    ReadEncoded(rs[i], EncodeAll(rs[i + 1..]));
  }

  lemma {:induction false} ReadAtEntry(s: Segment, sequence: nat, e: Entry, r: Record)
    requires Lookup(s, sequence) == Some(e)
    ensures ReadRecord(Drop(s.data, e.offset)) == Some(r) ==>
              ReadAt(s, sequence) == (s.(cursor := e.offset + RecordSize(r)), Got(r))
  {
  }

  /** Numbers outside the segment read nothing and move nothing. */
  lemma {:induction false} ReadOutside(s: Segment, rs: seq<Record>, sequence: nat)
    requires Log(s, rs) && (sequence < s.base || s.base + |rs| <= sequence)
    ensures ReadAt(s, sequence) == (s, Nothing)
  {
  }

  /** So an append right after reading record `i` keeps the log exactly when `i` was the last one. */
  lemma {:induction false} AppendAfterReadIff(s: Segment, rs: seq<Record>, i: nat, m: Message)
    requires Log(s, rs) && i < |rs| && Fits(Numbered(s, m))
    ensures var after := ReadAt(s, s.base + i).0;
            Log(Append(after, m), rs + [Numbered(s, m)]) <==> i == |rs| - 1
  {
    hide *;
    ReadReturns(s, rs, i);
    var after := s.(cursor := Size(rs, i + 1));
    CursorIsNotContent(s, rs, Size(rs, i + 1), m);
    AppendKeepsLogIff(after, rs, m);
    LogEntry(s, rs, i);
    SizeOfAll(rs);
    SizeGrows(rs, i + 1, |rs|);
  }

  lemma {:induction false} CursorIsNotContent(s: Segment, rs: seq<Record>, cursor: nat, m: Message)
    requires Log(s, rs)
    ensures Log(s.(cursor := cursor), rs) && Numbered(s.(cursor := cursor), m) == Numbered(s, m)
    ensures s.written == |EncodeAll(rs)|
  {
  }

  lemma {:induction false} SizeGrows(rs: seq<Record>, i: nat, j: nat)
    requires i <= j <= |rs|
    ensures Size(rs, i) <= Size(rs, j) && (i < j ==> Size(rs, i) < Size(rs, j))
    decreases j
  {
    if i < j {
      SizeGrows(rs, i, j - 1);
      SizeStep(rs, j - 1);
    }
  }

  // Runs of appends and reopening

  function New(base: nat): Segment {
    Segment([], 0, [], base, 0)
  }

  function AppendAll(base: nat, ms: seq<Message>): Segment {
    if ms == [] then New(base) else Append(AppendAll(base, ms[..|ms| - 1]), ms[|ms| - 1])
  }

  function Records(base: nat, ms: seq<Message>): (r: seq<Record>)
    ensures |r| == |ms|
  {
    seq(|ms|, i requires 0 <= i < |ms| =>
      Record(base + i, ms[i].timestamp, ms[i].subject, ms[i].reply, ms[i].payload))
  }

  /** A run of appends with no read in between is a log of its messages. */
  lemma {:induction false} RunIsLog(base: nat, ms: seq<Message>)
    requires AllFit(Records(base, ms))
    ensures Log(AppendAll(base, ms), Records(base, ms))
    ensures AppendAll(base, ms).cursor == AppendAll(base, ms).written && AppendAll(base, ms).base == base
  {
    if ms != [] {
      var before, m := ms[..|ms| - 1], ms[|ms| - 1];
      var rs := Records(base, ms);
      var r := rs[|ms| - 1];
      RecordsSnoc(base, ms);
      RunIsLog(base, before);
      AppendKeepsLogIff(AppendAll(base, before), Records(base, before), m);
    }
  }

  lemma {:induction false} RecordsSnoc(base: nat, ms: seq<Message>)
    requires ms != [] && AllFit(Records(base, ms))
    ensures AllFit(Records(base, ms[..|ms| - 1])) && Fits(Records(base, ms)[|ms| - 1])
    ensures Records(base, ms) == Records(base, ms[..|ms| - 1]) + [Records(base, ms)[|ms| - 1]]
  {
    var rs, init := Records(base, ms), Records(base, ms[..|ms| - 1]);
    assert forall i :: 0 <= i < |init| ==> init[i] == rs[i];
  }

  /** Reopening the file of a log rebuilds index and size, and puts the cursor at the end. */
  lemma {:induction false} ReopenLog(s: Segment, rs: seq<Record>)
    requires Log(s, rs)
    ensures Open(s.data, s.base) == s.(cursor := s.written)
  {
    SizeOfAll(rs);
    assert s.data[..|s.data|] == s.data;
    assert Index(rs, 0)[..|rs|] == Index(rs, 0);
    ReopenCut(rs, |rs|, |s.data|);
  }

  /** Closing and reopening a segment made by appends changes nothing at all. */
  lemma {:induction false} ReopenRun(base: nat, ms: seq<Message>)
    requires AllFit(Records(base, ms))
    ensures Open(AppendAll(base, ms).data, base) == AppendAll(base, ms)
  {
    RunIsLog(base, ms);
    ReopenLog(AppendAll(base, ms), Records(base, ms));
  }

  /** And every message of the run can then be read. */
  lemma {:induction false} RunReadsBack(base: nat, ms: seq<Message>, i: nat)
    requires AllFit(Records(base, ms)) && i < |ms|
    ensures ReadAt(Open(AppendAll(base, ms).data, base), base + i).1 == Got(Normal(Records(base, ms)[i]))
  {
    hide *;
    RunIsLog(base, ms);
    ReopenRun(base, ms);
    ReadReturns(AppendAll(base, ms), Records(base, ms), i);
  }

  // A file cut short

  /**
   After reopening a cut file the next append is safe exactly when the cut was at a record boundary: it
   goes where the index says, right behind the last complete record.
   */
  lemma {:induction false} AppendAfterCutIff(rs: seq<Record>, k: nat, c: nat, base: nat, m: Message)
    requires AllFit(rs) && Complete(rs, k, c)
    requires forall i :: 0 <= i < |rs| ==> rs[i].sequence == base + i
    requires Fits(Numbered(Open(EncodeAll(rs)[..c], base), m))
    ensures var s := Open(EncodeAll(rs)[..c], base);
            Log(Append(s, m), rs[..k] + [Numbered(s, m)]) <==> c == Size(rs, k)
  {
    hide *;
    CompleteBounds(rs, k, c);
    var s := Open(EncodeAll(rs)[..c], base);
    SizeIsLength(rs, k);
    if c == Size(rs, k) {
      CutAtBoundary(rs, k);
      OpenAtBoundary(rs, k, base);
      AppendKeepsLogIff(s, rs[..k], m);
      LogWritten(s, rs[..k]);
    } else {
      OpenPastBoundary(rs, k, c, base);
      PastTheEnd(s, rs[..k], m);
    }
  }

  lemma {:induction false} CompleteBounds(rs: seq<Record>, k: nat, c: nat)
    requires Complete(rs, k, c)
    ensures k <= |rs| && Size(rs, k) <= c <= |EncodeAll(rs)|
  {
  }

  lemma {:induction false} LogWritten(s: Segment, rs: seq<Record>)
    requires Log(s, rs)
    ensures s.written == |EncodeAll(rs)|
  {
  }

  lemma {:induction false} OpenAtBoundary(rs: seq<Record>, k: nat, base: nat)
    requires AllFit(rs) && k <= |rs| && forall i :: 0 <= i < |rs| ==> rs[i].sequence == base + i
    requires Size(rs, k) <= |EncodeAll(rs)| && Complete(rs, k, Size(rs, k))
    ensures var s := Open(EncodeAll(rs)[..Size(rs, k)], base);
            Log(s, rs[..k]) && s.cursor == s.written
  {
    ReopenCut(rs, k, Size(rs, k));
    CutAtBoundary(rs, k);
    SizeIsLength(rs, k);
    IndexPrefix(rs, k);
  }

  lemma {:induction false} OpenPastBoundary(rs: seq<Record>, k: nat, c: nat, base: nat)
    requires AllFit(rs) && Complete(rs, k, c) && c != Size(rs, k)
    ensures var s := Open(EncodeAll(rs)[..c], base);
            |s.data| > Size(rs, k) && s.cursor > Size(rs, k)
  {
    hide Passes;
    ReopenCut(rs, k, c);
    OpenCursor(EncodeAll(rs)[..c], base);
  }

  /** Opening reads to the end of the file. */
  lemma {:induction false} OpenCursor(data: seq<byte>, base: nat)
    ensures Open(data, base).cursor >= |data|
  {
    PassesReachEnd(data, 0);
  }

  lemma {:induction false} PassesReachEnd(t: seq<byte>, offset: nat)
    ensures CursorOf(Passes(t), offset) >= offset + |t|
    decreases |t|
  {
    var one := ScanOne(t);
    PassesStep(t, one);
    if one.Found? {
      PassesReachEnd(one.rest, offset + one.size);
      assert Passes(t)[1..] == Passes(one.rest);
    }
  }

  lemma {:induction false} PastTheEnd(s: Segment, rs: seq<Record>, m: Message)
    requires |s.data| > |EncodeAll(rs)| && s.cursor > |EncodeAll(rs)|
    ensures !Log(Append(s, m), rs + [Numbered(s, m)])
  {
    EncodeSnoc(rs, Numbered(s, m));
  }

  lemma {:induction false} CutAtBoundary(rs: seq<Record>, k: nat)
    requires k <= |rs|
    ensures Size(rs, k) <= |EncodeAll(rs)| && EncodeAll(rs)[..Size(rs, k)] == EncodeAll(rs[..k])
  {
    SizeIsLength(rs, k);
    EncodeAllConcat(rs[..k], rs[k..]);
    assert rs == rs[..k] + rs[k..];
  }

  lemma {:induction false} IndexPrefix(rs: seq<Record>, k: nat)
    requires k <= |rs|
    ensures Index(rs, 0)[..k] == Index(rs[..k], 0)
  {
    forall i | 0 <= i < k ensures Size(rs, i) == Size(rs[..k], i) {
      SizeIsLength(rs, i);
      SizeIsLength(rs[..k], i);
      assert rs[..k][..i] == rs[..i];
    }
  }

  /** The entry a cut payload leaves in the index cannot be read. */
  lemma {:induction false} CutPayloadFails(rs: seq<Record>, k: nat, c: nat, base: nat)
    requires AllFit(rs) && Complete(rs, k, c) && InPayload(rs, k, c)
    ensures ReadAt(Open(EncodeAll(rs)[..c], base), base + k).1 == IoError
  {
    hide *;
    CutBounds(rs, k, c);
    var s := Open(EncodeAll(rs)[..c], base);
    CutEntry(rs, k, c, base);
    CutRecord(rs, k, c);
    ReadFails(s, base + k, Entry(Size(rs, k), rs[k].timestamp));
  }

  lemma {:induction false} CutEntry(rs: seq<Record>, k: nat, c: nat, base: nat)
    requires AllFit(rs) && Complete(rs, k, c) && InPayload(rs, k, c)
    ensures var s := Open(EncodeAll(rs)[..c], base);
            s.data == EncodeAll(rs)[..c] && Lookup(s, base + k) == Some(Entry(Size(rs, k), rs[k].timestamp))
  {
    hide Passes;
    ReopenCut(rs, k, c);
  }

  lemma {:induction false} ReadFails(s: Segment, sequence: nat, e: Entry)
    requires Lookup(s, sequence) == Some(e)
    ensures ReadRecord(Drop(s.data, e.offset)) == None ==> ReadAt(s, sequence).1 == IoError
  {
  }

  lemma {:induction false} CutRecord(rs: seq<Record>, k: nat, c: nat)
    requires AllFit(rs) && Complete(rs, k, c) && InPayload(rs, k, c)
    ensures ReadRecord(Drop(EncodeAll(rs)[..c], Size(rs, k))) == None
  {
    hide *;
    CutBounds(rs, k, c);
    TailOfLog(rs, k);
    DropOfCut(EncodeAll(rs), c, Size(rs, k));
    CutRecordFails(rs[k], EncodeAll(rs[k + 1..]), c - Size(rs, k));
  }

  lemma {:induction false} CutBounds(rs: seq<Record>, k: nat, c: nat)
    requires AllFit(rs) && Complete(rs, k, c) && InPayload(rs, k, c)
    ensures k < |rs| && Size(rs, k) <= c <= |EncodeAll(rs)| && Fits(rs[k])
    ensures HeadSize(rs[k]) <= c - Size(rs, k) < RecordSize(rs[k])
  {
    SizeStep(rs, k);
  }

  lemma {:induction false} CutRecordFails(r: Record, post: seq<byte>, c: nat)
    requires Fits(r) && HeadSize(r) <= c < RecordSize(r)
    ensures ReadRecord(Cut(Encode(r) + post, c)) == None
  {
    hide Encode;
    FieldsEncoded(r, post, c);
  }

  lemma {:induction false} DropOfCut(t: seq<byte>, c: nat, n: nat)
    requires n <= c <= |t|
    ensures Drop(t[..c], n) == Cut(t[n..], c - n)
  {
  }

  /** A read that fails leaves the cursor at the end of the file, or where the record was to start beyond it. */
  lemma {:induction false} FailedReadStopsAtEnd(s: Segment, sequence: nat)
    ensures var (r, answer) := ReadAt(s, sequence);
            answer == IoError ==>
              && s.base <= sequence < s.base + |s.index|
              && r == s.(cursor := Max(s.index[sequence - s.base].offset, |s.data|))
  {
    hide ReadRecord;
  }

  // Appending after a cut payload

  /** A record whose last `n` payload bytes were lost and came back as zeros. */
  function Zeroed(r: Record, n: nat): Record
    requires n <= |r.payload|
  {
    r.(payload := r.payload[..|r.payload| - n] + Zeros(n))
  }

  lemma {:induction false} ZeroedEncodes(r: Record, c: nat)
    requires Fits(r) && HeadSize(r) <= c <= RecordSize(r)
    ensures var n := RecordSize(r) - c;
            n <= |r.payload| && Fits(Zeroed(r, n)) && Encode(Zeroed(r, n)) == Encode(r)[..c] + Zeros(n)
  {
    var n := RecordSize(r) - c;
    var z := Zeroed(r, n);
    EncodeIs(r);
    EncodeIs(z);
    var head := Front(r) + r.subject + Be(2, |ReplyBytes(r)|) + ReplyBytes(r) + Be(4, |r.payload|);
    HeadThen(Front(r), r.subject, Be(2, |ReplyBytes(r)|), ReplyBytes(r), Be(4, |r.payload|), r.payload);
    HeadThen(Front(r), r.subject, Be(2, |ReplyBytes(r)|), ReplyBytes(r), Be(4, |r.payload|), z.payload);
    CutTail(head, r.payload, |r.payload| - n);
  }

  lemma {:induction false} HeadThen(
    f: seq<byte>, s: seq<byte>, x: seq<byte>, n: seq<byte>, y: seq<byte>, p: seq<byte>)
    ensures f + (s + (x + (n + (y + p)))) == (f + s + x + n + y) + p
  {
  }

  lemma {:induction false} CutTail(head: seq<byte>, tail: seq<byte>, n: nat)
    requires n <= |tail|
    ensures (head + tail)[..|head| + n] == head + tail[..n]
  {
  }

  lemma {:induction false} ZeroedLog(rs: seq<Record>, k: nat, c: nat)
    requires AllFit(rs) && Complete(rs, k, c) && InPayload(rs, k, c)
    ensures k < |rs| && Size(rs, k) <= c < Size(rs, k + 1)
    ensures var n := Size(rs, k + 1) - c;
            && n <= |rs[k].payload|
            && EncodeAll(rs[..k] + [Zeroed(rs[k], n)]) == EncodeAll(rs)[..c] + Zeros(n)
            && |EncodeAll(rs)[..c] + Zeros(n)| == Size(rs, k + 1)
            && AllFit(rs[..k] + [Zeroed(rs[k], n)])
  {
    hide Encode;
    CutBounds(rs, k, c);
    SizeStep(rs, k);
    SizeIsLength(rs, k);
    ZeroedEncodes(rs[k], c - Size(rs, k));
    var n := Size(rs, k + 1) - c;
    EncodeSnoc(rs[..k], Zeroed(rs[k], n));
    CutAtBoundary(rs, k);
    TailOfLog(rs, k);
    CutInside(EncodeAll(rs), Size(rs, k), Encode(rs[k]), EncodeAll(rs[k + 1..]), c);
    ConcatAssoc(EncodeAll(rs[..k]), Encode(rs[k])[..c - Size(rs, k)], Zeros(n));
  }

  lemma {:induction false} CutInside(t: seq<byte>, n: nat, a: seq<byte>, post: seq<byte>, c: nat)
    requires n <= c <= |t| && t[n..] == a + post && c - n <= |a|
    ensures t[..c] == t[..n] + a[..c - n]
  {
    assert t == t[..n] + (a + post);
  }

  lemma {:induction false} ZeroedIndex(rs: seq<Record>, k: nat, n: nat)
    requires k < |rs| && n <= |rs[k].payload|
    ensures Index(rs[..k] + [Zeroed(rs[k], n)], 0) == Index(rs, 0)[..k + 1]
  {
    IndexPrefix(rs, k + 1);
    IndexSnoc(rs[..k], rs[k]);
    IndexSnoc(rs[..k], Zeroed(rs[k], n));
    assert rs[..k + 1] == rs[..k] + [rs[k]];
  }

  /**
   After a cut inside a payload, the first append fills the gap with zeros: the cut record, unreadable until
   then, is in the log again with zeros for the bytes it lost.
   */
  lemma {:induction false} CutPayloadComesBackZeroed(rs: seq<Record>, k: nat, c: nat, base: nat, m: Message)
    requires AllFit(rs) && Complete(rs, k, c) && InPayload(rs, k, c)
    requires forall i :: 0 <= i < |rs| ==> rs[i].sequence == base + i
    requires Fits(Numbered(Open(EncodeAll(rs)[..c], base), m))
    ensures var s := Open(EncodeAll(rs)[..c], base);
            && k < |rs| && Size(rs, k + 1) - c <= |rs[k].payload|
            && var back := Zeroed(rs[k], Size(rs, k + 1) - c);
               && Log(Append(s, m), rs[..k] + [back] + [Numbered(s, m)])
               && ReadAt(Append(s, m), base + k).1 == Got(Normal(back))
  {
    hide *;
    CutBounds(rs, k, c);
    ZeroedLog(rs, k, c);
    var s := Open(EncodeAll(rs)[..c], base);
    var n := Size(rs, k + 1) - c;
    var qs := rs[..k] + [Zeroed(rs[k], n)];
    OpenInPayload(rs, k, c, base);
    ZeroedIndex(rs, k, n);
    ZeroedRenumbers(rs, k, n, base);
    var whole := s.(data := EncodeAll(qs));
    WholeIsLog(whole, qs);
    SameAppend(s, whole, n, m);
    AppendKeepsLogIff(whole, qs, m);
    assert (qs + [Numbered(s, m)])[k] == Zeroed(rs[k], n);
    AppendBase(s, m);
    ReadReturns(Append(s, m), qs + [Numbered(s, m)], k);
  }

  lemma {:induction false} OpenInPayload(rs: seq<Record>, k: nat, c: nat, base: nat)
    requires AllFit(rs) && Complete(rs, k, c) && InPayload(rs, k, c)
    ensures k < |rs| && Size(rs, k) <= c <= |EncodeAll(rs)|
    ensures Open(EncodeAll(rs)[..c], base)
         == Segment(EncodeAll(rs)[..c], Size(rs, k + 1), Index(rs, 0)[..k + 1], base, Size(rs, k + 1))
  {
    hide Passes;
    CutBounds(rs, k, c);
    ReopenCut(rs, k, c);
  }

  lemma {:induction false} ZeroedRenumbers(rs: seq<Record>, k: nat, n: nat, base: nat)
    requires k < |rs| && n <= |rs[k].payload| && forall i :: 0 <= i < |rs| ==> rs[i].sequence == base + i
    ensures var qs := rs[..k] + [Zeroed(rs[k], n)];
            forall i :: 0 <= i < |qs| ==> qs[i].sequence == base + i
  {
  }

  lemma {:induction false} WholeIsLog(s: Segment, rs: seq<Record>)
    requires s.data == EncodeAll(rs) && s.written == |s.data| && s.index == Index(rs, 0) && AllFit(rs)
    requires forall i :: 0 <= i < |rs| ==> rs[i].sequence == s.base + i
    ensures Log(s, rs)
  {
  }

  /** Writing beyond the end is writing at the end of the zero-filled file. */
  lemma {:induction false} SameAppend(s: Segment, whole: Segment, n: nat, m: Message)
    requires whole == s.(data := s.data + Zeros(n)) && s.cursor == |whole.data|
    ensures Append(s, m) == Append(whole, m) && Numbered(s, m) == Numbered(whole, m)
  {
    var b := Encode(Numbered(s, m));
    WriteAtEnd(whole.data, b);
    if n == 0 {
      assert s.data + Zeros(n) == s.data;
    }
  }

  lemma {:induction false} AppendBase(s: Segment, m: Message)
    ensures Append(s, m).base == s.base
  {
  }
}
