/**
 A log segment: records one after another in a file, with an in-memory index of their offsets. The file is
 its bytes and a cursor, which appending, reading and scanning all move.
 */
module Segments {
  import opened Wrappers
  import opened Bytes
  import opened Seqs

  datatype Record = Record(
    sequence: nat, timestamp: nat, subject: seq<byte>, reply: Option<seq<byte>>, payload: seq<byte>)

  function ReplyBytes(r: Record): seq<byte> {
    if r.reply.Some? then r.reply.value else []
  }

  /** The fields fit the widths they are written in. */
  ghost predicate Fits(r: Record) {
    && r.sequence < U64 && r.timestamp < U64
    && |r.subject| < U16 && |ReplyBytes(r)| < U16 && |r.payload| < U32
  }

  function RecordSize(r: Record): nat {
    24 + |r.subject| + |ReplyBytes(r)| + |r.payload|
  }

  /** The record as `append` lays it out. */
  function Encode(r: Record): (b: seq<byte>)
    ensures |b| == RecordSize(r)
  {
    Front(r) + (r.subject + (Be(2, |ReplyBytes(r)|) + (ReplyBytes(r) + (Be(4, |r.payload|) + r.payload))))
  }

  /** Sequence number, time and subject length. */
  function Front(r: Record): (b: seq<byte>)
    ensures |b| == 18
  {
    Be(8, r.sequence) + Be(8, r.timestamp) + Be(2, |r.subject|)
  }

  function EncodeAll(rs: seq<Record>): seq<byte> {
    if rs == [] then [] else Encode(rs[0]) + EncodeAll(rs[1..])
  }

  /** An empty reply is written like none, and read as none. */
  function Normal(r: Record): Record {
    if r.reply == Some([]) then r.(reply := None) else r
  }

  // Reading at the cursor, as a function of what is left of the file from there on

  /** What is left after moving on `n` bytes; nothing once past the end. */
  function Drop(t: seq<byte>, n: nat): seq<byte> {
    if n <= |t| then t[n..] else []
  }

  /** One pass of the scanning loop: the record's size and time, or how far the cursor got. */
  datatype Pass = Found(size: nat, timestamp: nat, rest: seq<byte>) | Stop(moved: nat)

  function Max(a: nat, b: nat): nat {
    if a < b then b else a
  }

  /** The word of `n` bytes at `at`, if the file reaches that far. */
  function Field(t: seq<byte>, at: nat, n: nat): Option<nat> {
    if at + n <= |t| then Some(Word(t, at, n)) else None
  }

  /** The fixed header and the subject length, then the reply length, then the payload length. */
  function ScanOne(t: seq<byte>): Pass {
    match Field(t, 16, 2)
    case None => Stop(|t|)
    case Some(subjectLen) => ScanReply(t, 18 + subjectLen)
  }

  function ScanReply(t: seq<byte>, at: nat): Pass
    requires 16 <= at
  {
    match Field(t, at, 2)
    case None => Stop(Max(at, |t|))
    case Some(replyLen) => ScanPayload(t, at + 2 + replyLen)
  }

  function ScanPayload(t: seq<byte>, at: nat): Pass
    requires 16 <= at
  {
    match Field(t, at, 4)
    case None => Stop(Max(at, |t|))
    case Some(payloadLen) => Found(at + 4 + payloadLen, Word(t, 8, 8), Drop(t, at + 4 + payloadLen))
  }

  datatype Entry = Entry(offset: nat, timestamp: nat)

  /** The passes the loop makes, the last of which stops it. */
  function Passes(t: seq<byte>): (r: seq<Pass>)
    ensures r != []
    decreases |t|
  {
    var one := ScanOne(t);
    if one.Stop? then [one] else [one] + Passes(one.rest)
  }

  // What the passes leave: the index, where the next record would go, and the cursor

  function Entries(ps: seq<Pass>, offset: nat): seq<Entry> {
    if ps == [] || ps[0].Stop? then []
    else [Entry(offset, ps[0].timestamp)] + Entries(ps[1..], offset + ps[0].size)
  }

  function EndOf(ps: seq<Pass>, offset: nat): nat {
    if ps == [] || ps[0].Stop? then offset else EndOf(ps[1..], offset + ps[0].size)
  }

  function CursorOf(ps: seq<Pass>, offset: nat): nat {
    if ps == [] then offset
    else if ps[0].Stop? then offset + ps[0].moved
    else CursorOf(ps[1..], offset + ps[0].size)
  }

  /** The record at the cursor, every field read in turn; failure when the file ends before it does. */
  function ReadRecord(t: seq<byte>): Option<Record> {
    match Field(t, 16, 2)
    case None => None
    case Some(subjectLen) =>
      match Field(t, 18 + subjectLen, 2)
      case None => None
      case Some(replyLen) =>
        var at := 20 + subjectLen + replyLen;
        match Field(t, at, 4)
        case None => None
        case Some(payloadLen) =>
          if |t| < at + 4 + payloadLen then None
          else
            Some(Record(Word(t, 0, 8), Word(t, 8, 8), t[18..18 + subjectLen],
                        if replyLen == 0 then None else Some(t[at - replyLen..at]),
                        t[at + 4..at + 4 + payloadLen]))
  }

  // What a pass over an encoded record finds, wherever the file ends

  /** The file ends after `c` bytes. */
  function Cut(t: seq<byte>, c: nat): seq<byte> {
    if c < |t| then t[..c] else t
  }

  lemma {:induction false} DropCut(a: seq<byte>, b: seq<byte>, c: nat)
    ensures Drop(Cut(a + b, c), |a|) == if c < |a| then [] else Cut(b, c - |a|)
  {
  }

  lemma {:induction false} Regroup(
    f: seq<byte>, s: seq<byte>, x: seq<byte>, r: seq<byte>, y: seq<byte>, p: seq<byte>, post: seq<byte>)
    ensures f + (s + (x + (r + (y + p)))) + post == f + (s + (x + (r + (y + (p + post)))))
    ensures f + (s + (x + (r + (y + (p + post))))) == (f + s) + (x + (r + (y + (p + post))))
    ensures f + (s + (x + (r + (y + (p + post))))) == (f + s + x + r) + (y + (p + post))
  {
  }

  /** The bytes before the payload. */
  function HeadSize(r: Record): nat {
    24 + |r.subject| + |ReplyBytes(r)|
  }

  lemma {:induction false} FieldEncoded(a: seq<byte>, n: nat, v: nat, post: seq<byte>, c: nat)
    requires n > 0 && v < Pow256(n)
    ensures Field(Cut(a + (Be(n, v) + post), c), |a|, n) == if c >= |a| + n then Some(v) else None
  {
    if c >= |a| + n {
      UnBe(n, v);
      WordIsUn(Cut(a + (Be(n, v) + post), c), |a|, Be(n, v));
    }
  }

  lemma {:induction false} FieldsEncoded(r: Record, post: seq<byte>, c: nat)
    requires Fits(r)
    ensures var t := Cut(Encode(r) + post, c);
            && Field(t, 16, 2) == (if c >= 18 then Some(|r.subject|) else None)
            && Field(t, 18 + |r.subject|, 2) == (if c >= 20 + |r.subject| then Some(|ReplyBytes(r)|) else None)
            && Field(t, 20 + |r.subject| + |ReplyBytes(r)|, 4) == (if c >= HeadSize(r) then Some(|r.payload|) else None)
  {
    var f, s, n := Front(r), r.subject, ReplyBytes(r);
    var x, y := Be(2, |n|), Be(4, |r.payload|);
    Widths();
    Regroup(f, s, x, n, y, r.payload, post);
    FieldEncoded(f + s, 2, |n|, n + (y + (r.payload + post)), c);
    FieldEncoded(f + s + x + n, 4, |r.payload|, r.payload + post, c);
    var g := Be(8, r.sequence) + Be(8, r.timestamp);
    var z := s + (x + (n + (y + (r.payload + post))));
    assert f + z == g + (Be(2, |s|) + z);
    FieldEncoded(g, 2, |s|, z, c);
  }

  lemma {:induction false} FrontEncoded(r: Record, post: seq<byte>, c: nat)
    requires Fits(r) && c >= 18
    ensures var t := Cut(Encode(r) + post, c);
            |t| >= 18 && Word(t, 0, 8) == r.sequence && Word(t, 8, 8) == r.timestamp
  {
    var rest := r.subject + (Be(2, |ReplyBytes(r)|) + (ReplyBytes(r) + (Be(4, |r.payload|) + r.payload)));
    var x, y, z := Be(8, r.sequence), Be(8, r.timestamp), Be(2, |r.subject|);
    Widths();
    assert Encode(r) + post == [] + (x + (y + z + rest + post)) == x + (y + (z + rest + post));
    FieldEncoded([], 8, r.sequence, y + z + rest + post, c);
    FieldEncoded(x, 8, r.timestamp, z + rest + post, c);
  }

  lemma {:induction false} ScanOneEncoded(r: Record, post: seq<byte>, c: nat)
    requires Fits(r) && c <= |Encode(r) + post|
    ensures var t := Cut(Encode(r) + post, c);
            if c >= HeadSize(r) then ScanOne(t) == Found(RecordSize(r), r.timestamp, Drop(t, RecordSize(r)))
            else ScanOne(t).Stop? && ScanOne(t).moved >= c && (c == 0 ==> ScanOne(t).moved == 0)
  {
    FieldsEncoded(r, post, c);
    if c >= HeadSize(r) {
      FrontEncoded(r, post, c);
    }
  }

  // Whole files, complete or cut

  /** The size of the first `i` records. */
  function Size(rs: seq<Record>, i: nat): nat
    requires i <= |rs|
  {
    if i == 0 then 0 else RecordSize(rs[0]) + Size(rs[1..], i - 1)
  }

  lemma {:induction false} SizeIsLength(rs: seq<Record>, i: nat)
    requires i <= |rs|
    ensures Size(rs, i) == |EncodeAll(rs[..i])|
  {
    if i > 0 {
      SizeIsLength(rs[1..], i - 1);
      assert rs[..i][1..] == rs[1..][..i - 1] && rs[..i][0] == rs[0];
    }
  }

  lemma {:induction false} SizeOfAll(rs: seq<Record>)
    ensures Size(rs, |rs|) == |EncodeAll(rs)|
  {
    SizeIsLength(rs, |rs|);
    assert rs[..|rs|] == rs;
  }

  /** The index of a complete log starting at `offset`. */
  function Index(rs: seq<Record>, offset: nat): (r: seq<Entry>)
    ensures |r| == |rs|
    ensures forall i :: 0 <= i < |r| ==> r[i] == Entry(offset + Size(rs, i), rs[i].timestamp)
  {
    seq(|rs|, i requires 0 <= i < |rs| => Entry(offset + Size(rs, i), rs[i].timestamp))
  }

  ghost predicate AllFit(rs: seq<Record>) {
    forall i :: 0 <= i < |rs| ==> Fits(rs[i])
  }

  lemma {:induction false} EncodeAllConcat(a: seq<Record>, b: seq<Record>)
    ensures EncodeAll(a + b) == EncodeAll(a) + EncodeAll(b)
  {
    if a == [] {
      assert a + b == b;
    } else {
      EncodeAllConcat(a[1..], b);
      assert (a + b)[1..] == a[1..] + b && (a + b)[0] == a[0];
      ConcatAssoc(Encode(a[0]), EncodeAll(a[1..]), EncodeAll(b));
    }
  }

  lemma {:induction false} IndexCons(rs: seq<Record>, offset: nat)
    requires rs != []
    ensures Index(rs, offset) == [Entry(offset, rs[0].timestamp)] + Index(rs[1..], offset + RecordSize(rs[0]))
  {
    forall i | 1 <= i < |rs|
      ensures rs[1..][i - 1] == rs[i] && Size(rs, i) == RecordSize(rs[0]) + Size(rs[1..], i - 1)
    {
    }
  }

  /** The file ends at `c`: the first `k` records are complete and the next, if any, is not. */
  ghost predicate Complete(rs: seq<Record>, k: nat, c: nat) {
    && k <= |rs|
    && Size(rs, k) <= c <= |EncodeAll(rs)|
    && (k < |rs| ==> c < Size(rs, k + 1))
  }

  /** The cut falls inside the payload of record `k`, after its length. */
  ghost predicate InPayload(rs: seq<Record>, k: nat, c: nat)
    requires k <= |rs|
  {
    k < |rs| && Size(rs, k) + HeadSize(rs[k]) <= c
  }

  /** How many entries a scan of the records cut at `c` finds, record by record. */
  function Survivors(rs: seq<Record>, c: nat): (n: nat)
    ensures n <= |rs|
  {
    if rs == [] then 0
    else if c >= RecordSize(rs[0]) then 1 + Survivors(rs[1..], c - RecordSize(rs[0]))
    else if c >= HeadSize(rs[0]) then 1
    else 0
  }

  lemma {:induction false} SurvivorsAre(rs: seq<Record>, k: nat, c: nat)
    requires Complete(rs, k, c)
    ensures Survivors(rs, c) == if InPayload(rs, k, c) then k + 1 else k
    decreases k
  {
    if k > 0 {
      SurvivorsAre(rs[1..], k - 1, c - RecordSize(rs[0]));
    } else if rs != [] {
      assert c < Size(rs, 1) == RecordSize(rs[0]);
    }
  }

  /** Passes over `t` find the records cut at `c`, one by one. */
  ghost predicate Readable(t: seq<byte>, rs: seq<Record>, c: nat)
    decreases rs
  {
    if rs == [] then t == []
    else if c >= RecordSize(rs[0]) then
      exists rest :: ScanOne(t) == Found(RecordSize(rs[0]), rs[0].timestamp, rest) &&
                     Readable(rest, rs[1..], c - RecordSize(rs[0]))
    else Ragged(ScanOne(t), rs[0], c)
  }

  /** The last pass, over an incomplete record. */
  ghost predicate Ragged(one: Pass, r: Record, c: nat) {
    if c >= HeadSize(r) then one == Found(RecordSize(r), r.timestamp, [])
    else one.Stop? && one.moved >= c && (c == 0 ==> one.moved == 0)
  }

  lemma {:induction false} CutIsReadable(rs: seq<Record>, c: nat)
    requires AllFit(rs) && c <= |EncodeAll(rs)|
    ensures Readable(EncodeAll(rs)[..c], rs, c)
  {
    if rs != [] {
      if c >= RecordSize(rs[0]) {
        CutIsReadable(rs[1..], c - RecordSize(rs[0]));
        ScanOneFirst(rs, c);
      } else {
        ScanOneLast(rs, c);
      }
    }
  }

  /** The passes over the records cut at `c`. */
  ghost predicate Read(ps: seq<Pass>, rs: seq<Record>, c: nat)
    decreases rs
  {
    && ps != []
    && if rs == [] then ps == [Stop(0)]
       else if c >= RecordSize(rs[0]) then
         && ps[0].Found? && ps[0].size == RecordSize(rs[0]) && ps[0].timestamp == rs[0].timestamp
         && Read(ps[1..], rs[1..], c - RecordSize(rs[0]))
       else Ragged(ps[0], rs[0], c) && (ps[0].Found? ==> ps[1..] == [Stop(0)])
  }

  lemma {:induction false} PassesStep(t: seq<byte>, one: Pass)
    requires ScanOne(t) == one
    ensures Passes(t) == if one.Stop? then [one] else [one] + Passes(one.rest)
    ensures t == [] ==> Passes(t) == [Stop(0)]
  {
  }

  lemma {:induction false} ReadableIsRead(t: seq<byte>, rs: seq<Record>, c: nat)
    requires Readable(t, rs, c)
    ensures Read(Passes(t), rs, c)
    decreases rs
  {
    PassesStep(t, ScanOne(t));
    PassesStep([], ScanOne([]));
    if rs != [] && c >= RecordSize(rs[0]) {
      var rest :| ScanOne(t) == Found(RecordSize(rs[0]), rs[0].timestamp, rest) &&
                  Readable(rest, rs[1..], c - RecordSize(rs[0]));
      ReadableIsRead(rest, rs[1..], c - RecordSize(rs[0]));
      assert Passes(t)[1..] == Passes(rest);
    }
  }

  lemma {:induction false} EntriesFound(ps: seq<Pass>, rs: seq<Record>, c: nat, offset: nat)
    requires Read(ps, rs, c)
    ensures Entries(ps, offset) == Index(rs, offset)[..Survivors(rs, c)]
    decreases rs
  {
    if rs != [] {
      IndexCons(rs, offset);
      if c >= RecordSize(rs[0]) {
        EntriesFound(ps[1..], rs[1..], c - RecordSize(rs[0]), offset + RecordSize(rs[0]));
      }
    }
  }

  lemma {:induction false} EndFound(ps: seq<Pass>, rs: seq<Record>, c: nat, offset: nat)
    requires Read(ps, rs, c)
    ensures EndOf(ps, offset) == offset + Size(rs, Survivors(rs, c))
    decreases rs
  {
    if rs != [] {
      if c >= RecordSize(rs[0]) {
        EndFound(ps[1..], rs[1..], c - RecordSize(rs[0]), offset + RecordSize(rs[0]));
      } else {
        assert Size(rs, 1) == RecordSize(rs[0]);
      }
    }
  }

  /** The cursor ends where the next append notes its offset exactly when no bytes are left over. */
  lemma {:induction false} CursorFound(ps: seq<Pass>, rs: seq<Record>, c: nat, offset: nat)
    requires Read(ps, rs, c) && c <= Size(rs, |rs|)
    ensures CursorOf(ps, offset) == offset + Size(rs, Survivors(rs, c)) <==> c <= Size(rs, Survivors(rs, c))
    decreases rs
  {
    if rs != [] {
      if c >= RecordSize(rs[0]) {
        CursorFound(ps[1..], rs[1..], c - RecordSize(rs[0]), offset + RecordSize(rs[0]));
      } else {
        assert Size(rs, 1) == RecordSize(rs[0]);
      }
    }
  }

  lemma {:induction false} ScanOneFirst(rs: seq<Record>, c: nat)
    requires rs != [] && AllFit(rs) && RecordSize(rs[0]) <= c <= |EncodeAll(rs)|
    ensures ScanOne(EncodeAll(rs)[..c]) ==
            Found(RecordSize(rs[0]), rs[0].timestamp, EncodeAll(rs[1..])[..c - RecordSize(rs[0])])
  {
    ScanOneEncoded(rs[0], EncodeAll(rs[1..]), c);
    CutIs(EncodeAll(rs), c);
    CutIs(EncodeAll(rs[1..]), c - RecordSize(rs[0]));
    DropCut(Encode(rs[0]), EncodeAll(rs[1..]), c);
  }

  lemma {:induction false} CutIs(t: seq<byte>, c: nat)
    requires c <= |t|
    ensures Cut(t, c) == t[..c]
  {
  }

  lemma {:induction false} ScanOneLast(rs: seq<Record>, c: nat)
    requires rs != [] && AllFit(rs) && c < RecordSize(rs[0])
    ensures c <= |EncodeAll(rs)|
    ensures Ragged(ScanOne(EncodeAll(rs)[..c]), rs[0], c)
  {
    ScanOneEncoded(rs[0], EncodeAll(rs[1..]), c);
    CutIs(EncodeAll(rs), c);
    DropCut(Encode(rs[0]), EncodeAll(rs[1..]), c);
  }

  /**
   Reopening a file cut at any byte: every complete record is indexed, and one more exactly when the cut
   falls inside a payload. Only then, or with nothing left over, does the cursor stand where the next
   append notes its offset.
   */
  lemma {:induction false} ReopenCut(rs: seq<Record>, k: nat, c: nat)
    requires AllFit(rs) && Complete(rs, k, c)
    ensures var n := if InPayload(rs, k, c) then k + 1 else k;
            var ps := Passes(EncodeAll(rs)[..c]);
            && Entries(ps, 0) == Index(rs, 0)[..n]
            && EndOf(ps, 0) == Size(rs, n)
            && (CursorOf(ps, 0) == EndOf(ps, 0) <==> InPayload(rs, k, c) || c == Size(rs, k))
  {
    var ps := Passes(EncodeAll(rs)[..c]);
    CutIsReadable(rs, c);
    ReadableIsRead(EncodeAll(rs)[..c], rs, c);
    SurvivorsAre(rs, k, c);
    SizeOfAll(rs);
    EntriesFound(ps, rs, c, 0);
    EndFound(ps, rs, c, 0);
    CursorFound(ps, rs, c, 0);
  }

  // The segment

  datatype Message = Message(subject: seq<byte>, reply: Option<seq<byte>>, payload: seq<byte>, timestamp: nat)

  datatype Segment = Segment(data: seq<byte>, cursor: nat, index: seq<Entry>, base: nat, written: nat)

  function Zeros(n: nat): (r: seq<byte>)
    ensures |r| == n
  {
    seq(n, _ => 0)
  }

  /** Writing at the cursor: overwriting what is there, with zeros up to a cursor beyond the end. */
  function Write(data: seq<byte>, cursor: nat, b: seq<byte>): (r: seq<byte>)
    ensures |r| == Max(|data|, cursor + |b|)
  {
    if cursor <= |data| then data[..cursor] + b + Drop(data, cursor + |b|)
    else data + Zeros(cursor - |data|) + b
  }

  function Numbered(s: Segment, m: Message): Record {
    Record(s.base + |s.index|, m.timestamp, m.subject, m.reply, m.payload)
  }

  function Append(s: Segment, m: Message): Segment {
    var b := Encode(Numbered(s, m));
    Segment(Write(s.data, s.cursor, b), s.cursor + |b|,
            s.index + [Entry(s.written, m.timestamp)], s.base, s.written + |b|)
  }

  /** Opening an existing file: scan it from the start. */
  function Open(data: seq<byte>, base: nat): Segment {
    var ps := Passes(data);
    Segment(data, CursorOf(ps, 0), Entries(ps, 0), base, EndOf(ps, 0))
  }

  datatype Answer = Nothing | Got(record: Record) | IoError

  function Lookup(s: Segment, sequence: nat): Option<Entry> {
    if s.base <= sequence < s.base + |s.index| then Some(s.index[sequence - s.base]) else None
  }

  function ReadAt(s: Segment, sequence: nat): (Segment, Answer) {
    match Lookup(s, sequence)
    case None => (s, Nothing)
    case Some(e) =>
      var t := Drop(s.data, e.offset);
      match ReadRecord(t)
      case None => (s.(cursor := e.offset + |t|), IoError)
      case Some(r) => (s.(cursor := e.offset + RecordSize(r)), Got(r))
  }
}
