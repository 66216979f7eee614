/** The mutable segment: a file with a cursor, and the index kept beside it. */
module SegmentClass {
  import opened Wrappers
  import opened Bytes
  import opened Segments

  /** The bytes after the length of `width` bytes at `at`, as many as it says. */
  function Prefixed(t: seq<byte>, at: nat, width: nat): (b: Option<seq<byte>>)
    ensures b.Some? ==> at + width + |b.value| <= |t|
  {
    match Field(t, at, width)
    case None => None
    case Some(len) => if at + width + len <= |t| then Some(t[at + width..at + width + len]) else None
  }

  class File {
    var data: seq<byte>
    var cursor: nat

    constructor (data: seq<byte>)
      ensures this.data == data && cursor == 0
    {
      this.data, cursor := data, 0;
    }

    /** What is left from the cursor on. */
    ghost function Left(): seq<byte>
      reads this
    {
      Drop(data, cursor)
    }

    /** Fill a buffer of `n` bytes; a shorter file is read to its end before failing. */
    method ReadExact(n: nat) returns (b: Option<seq<byte>>)
      modifies this`cursor
      ensures n > 0 ==> b.Some? == (n <= |old(Left())|)
      ensures n == 0 ==> b == Some([])
      ensures b.Some? ==> |b.value| == n && cursor == old(cursor) + n
      ensures b.Some? && n > 0 ==> cursor <= |data| && b.value == data[old(cursor)..cursor]
      ensures b.None? ==> cursor == Max(old(cursor), |data|)
    {
      if n == 0 {
        return Some([]);
      }
      if cursor + n <= |data| {
        b := Some(data[cursor..cursor + n]);
        cursor := cursor + n;
      } else {
        b := None;
        cursor := if cursor < |data| then |data| else cursor;
      }
    }

    method ReadWord(n: nat) returns (v: Option<nat>)
      requires n > 0
      modifies this`cursor
      ensures v == Field(data, old(cursor), n)
      ensures v.Some? ==> cursor == old(cursor) + n
      ensures v.None? ==> cursor == Max(old(cursor), |data|)
    {
      var b := ReadExact(n);
      match b
      case None => v := None;
      case Some(s) =>
        v := Some(Un(s));
        WordIsUn(data, old(cursor), s);
    }

    /** A length of `width` bytes and then that many bytes. */
    method ReadPrefixed(width: nat) returns (b: Option<seq<byte>>)
      requires width > 0 && cursor <= |data|
      modifies this`cursor
      ensures b == Prefixed(data, old(cursor), width)
      ensures cursor == if b.Some? then old(cursor) + width + |b.value| else |data|
    {
      var len := ReadWord(width);
      if len.None? {
        return None;
      }
      b := ReadExact(len.value);
    }

    method Seek(position: nat)
      modifies this`cursor
      ensures cursor == position
    {
      cursor := position;
    }

    method WriteAll(b: seq<byte>)
      modifies this
      ensures data == Write(old(data), old(cursor), b) && cursor == old(cursor) + |b|
    {
      if cursor <= |data| {
        data := data[..cursor] + b + (if cursor + |b| <= |data| then data[cursor + |b|..] else []);
      } else {
        data := data + seq(cursor - |data|, _ => 0) + b;
      }
      cursor := cursor + |b|;
    }
  }

  /** A word read at `at` in the whole file is the one read `at - from` into what is left from `from` on. */
  lemma {:induction false} FieldInRest(data: seq<byte>, from: nat, at: nat, n: nat)
    requires n > 0 && from <= at
    ensures Field(data, at, n) == Field(Drop(data, from), at - from, n)
  {
    if at + n <= |data| {
      WordIsUn(data, at, data[at..at + n]);
      WordIsUn(Drop(data, from), at - from, data[at..at + n]);
    }
  }

  lemma {:induction false} DropTwice(data: seq<byte>, a: nat, b: nat)
    ensures Drop(Drop(data, a), b) == Drop(data, a + b)
  {
  }

  /** Subject, reply and payload, each behind its length. */
  function Fields(t: seq<byte>, at: nat): Option<(seq<byte>, seq<byte>, seq<byte>)> {
    match Prefixed(t, at, 2)
    case None => None
    case Some(subject) =>
      match Prefixed(t, at + 2 + |subject|, 2)
      case None => None
      case Some(reply) =>
        match Prefixed(t, at + 4 + |subject| + |reply|, 4)
        case None => None
        case Some(payload) => Some((subject, reply, payload))
  }

  lemma {:induction false} NothingFixed(t: seq<byte>)
    requires |t| < 16
    ensures ReadRecord(t) == None
  {
  }

  lemma {:induction false} PrefixedInRest(data: seq<byte>, from: nat, at: nat, width: nat)
    requires width > 0 && from <= at && from <= |data|
    ensures Prefixed(data, at, width) == Prefixed(data[from..], at - from, width)
  {
    FieldInRest(data, from, at, width);
    var len := Field(data, at, width);
    if len.Some? && at + width + len.value <= |data| {
      assert data[at + width..at + width + len.value] ==
             data[from..][at - from + width..at - from + width + len.value];
    }
  }

  lemma {:induction false} FieldsInRest(data: seq<byte>, from: nat, at: nat)
    requires from <= at && from <= |data|
    ensures Fields(data, at) == Fields(data[from..], at - from)
  {
    hide Prefixed;
    PrefixedInRest(data, from, at, 2);
    var subject := Prefixed(data, at, 2);
    if subject.Some? {
      PrefixedInRest(data, from, at + 2 + |subject.value|, 2);
      var reply := Prefixed(data, at + 2 + |subject.value|, 2);
      if reply.Some? {
        PrefixedInRest(data, from, at + 4 + |subject.value| + |reply.value|, 4);
      }
    }
  }

  /** The record read from `t` is what its fixed header and its fields say. */
  lemma {:induction false} ReadByFields(t: seq<byte>)
    requires |t| >= 16
    ensures ReadRecord(t) ==
            match Fields(t, 16)
            case None => None
            case Some(f) => Some(Record(Word(t, 0, 8), Word(t, 8, 8), f.0, if f.1 == [] then None else Some(f.1), f.2))
  {
  }

  lemma {:induction false} ReadInRest(data: seq<byte>, start: nat)
    requires start + 16 <= |data|
    ensures ReadRecord(Drop(data, start)) ==
            match Fields(data, start + 16)
            case None => None
            case Some(f) =>
              Some(Record(Word(Drop(data, start), 0, 8), Word(Drop(data, start), 8, 8), f.0,
                          if f.1 == [] then None else Some(f.1), f.2))
  {
    hide ReadRecord;
    hide Fields;
    FieldsInRest(data, start, start + 16);
    ReadByFields(data[start..]);
  }

  class SegmentLog {
    const file: File
    const base: nat
    var index: seq<Entry>
    var written: nat

    ghost function View(): Segment
      reads this, file
    {
      Segment(file.data, file.cursor, index, base, written)
    }

    /** Open a segment: a file with anything in it is scanned from the start. */
    constructor (file: File, base: nat)
      requires file.cursor == 0
      modifies file`cursor
      ensures this.file == file && View() == Open(file.data, base)
    {
      this.file, this.base, index, written := file, base, [], 0;
      new;
      if |file.data| > 0 {
        RebuildIndex();
      }
    }

    method AppendMessage(m: Message) returns (sequence: nat)
      modifies this, file
      ensures View() == Append(old(View()), m)
      ensures sequence == base + |old(index)|
    {
      sequence := base + |index|;
      var b := Encode(Record(sequence, m.timestamp, m.subject, m.reply, m.payload));
      file.WriteAll(b);
      index := index + [Entry(written, m.timestamp)];
      written := written + |b|;
    }

    /** Read a message by its number, through the index. */
    method ReadMessage(sequence: nat) returns (r: Answer)
      modifies file`cursor
      ensures (View(), r) == ReadAt(old(View()), sequence)
    {
      hide ReadRecord;
      if sequence < base {
        return Nothing;
      }
      var idx := sequence - base;
      if idx >= |index| {
        return Nothing;
      }
      file.Seek(index[idx].offset);
      var rec := ReadHere();
      r := if rec.None? then IoError else Got(rec.value);
    }

    method ReadHere() returns (r: Option<Record>)
      modifies file`cursor
      ensures r == ReadRecord(old(file.Left()))
      ensures file.cursor == old(file.cursor) + (if r.Some? then RecordSize(r.value) else |old(file.Left())|)
    {
      ghost var t, start := file.Left(), file.cursor;
      var fixed := file.ReadExact(16);
      if fixed.None? {
        NothingFixed(t);
        return None;
      }
      var rest := ReadFields();
      ReadInRest(file.data, start);
      if rest.None? {
        return None;
      }
      WordIsUn(t, 0, fixed.value[..8]);
      WordIsUn(t, 8, fixed.value[8..]);
      r := Some(Record(Un(fixed.value[..8]), Un(fixed.value[8..]), rest.value.0,
                       if rest.value.1 == [] then None else Some(rest.value.1), rest.value.2));
    }

    method ReadFields() returns (r: Option<(seq<byte>, seq<byte>, seq<byte>)>)
      requires file.cursor <= |file.data|
      modifies file`cursor
      ensures r == Fields(file.data, old(file.cursor))
      ensures file.cursor == if r.None? then |file.data|
                             else old(file.cursor) + 8 + |r.value.0| + |r.value.1| + |r.value.2|
    {
      var subject := file.ReadPrefixed(2);
      if subject.None? {
        return None;
      }
      var reply := file.ReadPrefixed(2);
      if reply.None? {
        return None;
      }
      var payload := file.ReadPrefixed(4);
      if payload.None? {
        return None;
      }
      r := Some((subject.value, reply.value, payload.value));
    }

    /** The file stands as after a pass that began at `start`. */
    ghost predicate After(one: Pass, start: nat, size: Option<nat>)
      reads file
    {
      match one
      case Stop(moved) => size == None && file.cursor == start + moved
      case Found(n, _, rest) => size == Some(n) && file.cursor == start + n && file.Left() == rest
    }

    method PassPayload(start: nat) returns (size: Option<nat>)
      requires start + 16 <= file.cursor && start <= |file.data|
      modifies file`cursor
      ensures After(ScanPayload(Drop(file.data, start), old(file.cursor) - start), start, size)
    {
      FieldInRest(file.data, start, file.cursor, 4);
      var payloadLen := file.ReadWord(4);
      if payloadLen.None? {
        return None;
      }
      file.Seek(file.cursor + payloadLen.value);
      DropTwice(file.data, start, file.cursor - start);
      size := Some(file.cursor - start);
    }

    method PassReply(start: nat) returns (size: Option<nat>)
      requires start + 16 <= file.cursor && start <= |file.data|
      modifies file`cursor
      ensures After(ScanReply(Drop(file.data, start), old(file.cursor) - start), start, size)
    {
      FieldInRest(file.data, start, file.cursor, 2);
      var replyLen := file.ReadWord(2);
      if replyLen.None? {
        return None;
      }
      if replyLen.value > 0 {
        file.Seek(file.cursor + replyLen.value);
      }
      size := PassPayload(start);
    }

    method PassSubject(start: nat) returns (size: Option<nat>)
      requires start + 16 == file.cursor <= |file.data|
      modifies file`cursor
      ensures After(ScanOne(Drop(file.data, start)), start, size)
    {
      FieldInRest(file.data, start, file.cursor, 2);
      var subjectLen := file.ReadWord(2);
      if subjectLen.None? {
        return None;
      }
      file.Seek(file.cursor + subjectLen.value);
      size := PassReply(start);
    }

    /** One pass of the scanning loop, from the cursor: the record's size and time. */
    method PassOver() returns (one: Option<(nat, nat)>)
      modifies file`cursor
      ensures match ScanOne(old(file.Left()))
              case Stop(moved) => one == None && file.cursor == old(file.cursor) + moved
              case Found(n, timestamp, rest) =>
                one == Some((n, timestamp)) && file.cursor == old(file.cursor) + n && file.Left() == rest
    {
      ghost var t := file.Left();
      var start := file.cursor;
      var header := file.ReadExact(16);
      if header.None? {
        return None;
      }
      var timestamp := Un(header.value[8..16]);
      WordIsUn(t, 8, header.value[8..16]);
      var size := PassSubject(start);
      FoundTime(t);
      one := if size.None? then None else Some((size.value, timestamp));
    }

    /** Scan the file from the start, one record a pass, until a read fails. */
    method RebuildIndex()
      requires index == []
      modifies this, file`cursor
      ensures View() == Open(file.data, base)
    {
      hide Passes;
      hide ScanOne;
      hide Resumes;
      hide Open;
      hide Drop;
      file.Seek(0);
      var offset := 0;
      ResumesFromStart(file.data);
      while true
        invariant file.cursor == offset
        invariant Resumes(file.Left(), offset, index, file.data)
        decreases |file.Left()|
      {
        ghost var t := file.Left();
        var one := PassOver();
        PassShrinks(t);
        ResumeStep(t, offset, index, file.data, base);
        if one.None? {
          break;
        }
        index := index + [Entry(offset, one.value.1)];
        offset := offset + one.value.0;
      }
      written := offset;
    }
  }

  lemma {:induction false} FoundTime(t: seq<byte>)
    ensures ScanOne(t).Found? ==> |t| >= 16 && ScanOne(t).timestamp == Word(t, 8, 8)
  {
  }

  lemma {:induction false} PassShrinks(t: seq<byte>)
    ensures ScanOne(t).Found? ==> |ScanOne(t).rest| < |t|
  {
  }

  /** Going on from `t` at `offset`, with `index` so far, completes the scan of `data`. */
  ghost predicate Resumes(t: seq<byte>, offset: nat, index: seq<Entry>, data: seq<byte>) {
    && index + Entries(Passes(t), offset) == Entries(Passes(data), 0)
    && EndOf(Passes(t), offset) == EndOf(Passes(data), 0)
    && CursorOf(Passes(t), offset) == CursorOf(Passes(data), 0)
  }

  lemma {:induction false} ResumesFromStart(data: seq<byte>)
    ensures Resumes(Drop(data, 0), 0, [], data)
  {
    hide Passes;
    assert Drop(data, 0) == data;
  }

  lemma {:induction false} ResumeStep(t: seq<byte>, offset: nat, index: seq<Entry>, data: seq<byte>, base: nat)
    ensures Resumes(t, offset, index, data) ==>
              match ScanOne(t)
              case Stop(moved) =>
                Open(data, base) == Segment(data, offset + moved, index, base, offset)
              case Found(n, timestamp, rest) =>
                Resumes(rest, offset + n, index + [Entry(offset, timestamp)], data)
  {
    hide ScanOne;
    if Resumes(t, offset, index, data) {
      var one := ScanOne(t);
      PassesStep(t, one);
      if one.Found? {
        assert Passes(t)[1..] == Passes(one.rest);
        assert index + ([Entry(offset, one.timestamp)] + Entries(Passes(one.rest), offset + one.size)) ==
               index + [Entry(offset, one.timestamp)] + Entries(Passes(one.rest), offset + one.size);
      }
    }
  }
}
