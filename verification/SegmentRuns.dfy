/** Segments in use: over any run of appends and reads, exactly when the segment is the log of its messages. */
module SegmentRuns {
  import opened Bytes
  import opened Segments
  import opened SegmentLaws

  datatype Use = Put(message: Message) | Get(sequence: nat)

  /** The messages a run appends. */
  function Messages(uses: seq<Use>): seq<Message> {
    if uses == [] then []
    else
      var last := uses[|uses| - 1];
      Messages(uses[..|uses| - 1]) + if last.Put? then [last.message] else []
  }

  function UseOnce(s: Segment, use: Use): Segment {
    match use
    case Put(m) => Append(s, m)
    case Get(sequence) => ReadAt(s, sequence).0
  }

  function UseAll(base: nat, uses: seq<Use>): Segment {
    if uses == [] then New(base) else UseOnce(UseAll(base, uses[..|uses| - 1]), uses[|uses| - 1])
  }

  /** The last read since the last append that found a record, if there was one, was of the last record. */
  predicate AtEnd(base: nat, uses: seq<Use>) {
    if uses == [] then true
    else
      var before, last := uses[..|uses| - 1], uses[|uses| - 1];
      var n := |Messages(before)|;
      match last
      case Put(_) => true
      case Get(sequence) =>
        if base <= sequence < base + n then sequence == base + n - 1 else AtEnd(base, before)
  }

  /** Every append is made at the end. */
  predicate Careful(base: nat, uses: seq<Use>) {
    uses != [] ==>
      var before, last := uses[..|uses| - 1], uses[|uses| - 1];
      Careful(base, before) && (last.Put? ==> AtEnd(base, before))
  }

  function RecordsOf(base: nat, uses: seq<Use>): seq<Record> {
    Records(base, Messages(uses))
  }

  // Once a record was written over another

  /** The file is shorter than what was written, and nothing reaches its supposed end again. */
  ghost predicate Short(s: Segment) {
    && |s.data| < s.written && s.cursor < s.written
    && forall i :: 0 <= i < |s.index| ==> s.index[i].offset < s.written
  }

  lemma {:induction false} AppendStaysShort(s: Segment, m: Message)
    requires Short(s)
    ensures Short(Append(s, m))
  {
  }

  /** A record that is read is in the file. */
  lemma {:induction false} ReadFitsFile(t: seq<byte>)
    ensures ReadRecord(t).Some? ==> RecordSize(ReadRecord(t).value) <= |t|
  {
  }

  lemma {:induction false} ReadStaysShort(s: Segment, sequence: nat)
    requires Short(s)
    ensures Short(ReadAt(s, sequence).0)
  {
    hide ReadRecord;
    var e := Lookup(s, sequence);
    if e.Some? {
      ReadFitsFile(Drop(s.data, e.value.offset));
    }
  }

  lemma {:induction false} OverwriteIsShort(s: Segment, rs: seq<Record>, m: Message)
    requires Log(s, rs) && s.cursor < s.written
    ensures Short(Append(s, m))
  {
    forall i | 0 <= i < |rs| ensures s.index[i].offset <= s.written {
      SizeOfAll(rs);
      SizeGrows(rs, i, |rs|);
    }
  }

  // What every run keeps

  /** A careful run is the log of its messages, with the cursor at the end exactly when it says so. */
  ghost predicate InGoodOrder(base: nat, uses: seq<Use>) {
    var s := UseAll(base, uses);
    && Log(s, RecordsOf(base, uses)) && s.base == base && s.cursor <= s.written
    && (s.cursor == s.written <==> AtEnd(base, uses))
  }

  lemma {:induction false} FitsBefore(base: nat, uses: seq<Use>)
    requires uses != [] && AllFit(RecordsOf(base, uses))
    ensures AllFit(RecordsOf(base, uses[..|uses| - 1]))
    ensures uses[|uses| - 1].Put? ==>
              Messages(uses) == Messages(uses[..|uses| - 1]) + [uses[|uses| - 1].message]
              && var r := Record(base + |Messages(uses[..|uses| - 1])|, uses[|uses| - 1].message.timestamp,
                                 uses[|uses| - 1].message.subject, uses[|uses| - 1].message.reply,
                                 uses[|uses| - 1].message.payload);
                 Fits(r) && RecordsOf(base, uses) == RecordsOf(base, uses[..|uses| - 1]) + [r]
  {
    hide Fits;
    var before, last := uses[..|uses| - 1], uses[|uses| - 1];
    if last.Put? {
      assert Messages(uses)[..|Messages(uses)| - 1] == Messages(before);
      RecordsSnoc(base, Messages(uses));
    } else {
      assert Messages(uses) == Messages(before);
    }
  }

  lemma {:induction false} PutStep(base: nat, uses: seq<Use>)
    requires uses != [] && uses[|uses| - 1].Put? && AllFit(RecordsOf(base, uses))
    requires InGoodOrder(base, uses[..|uses| - 1])
    ensures AtEnd(base, uses[..|uses| - 1]) ==> InGoodOrder(base, uses)
    ensures !AtEnd(base, uses[..|uses| - 1]) ==> Short(UseAll(base, uses))
  {
    hide AllFit;
    hide Log;
    hide Short;
    hide Fits;
    hide AtEnd;
    var before, m := uses[..|uses| - 1], uses[|uses| - 1].message;
    var s := UseAll(base, before);
    FitsBefore(base, uses);
    LogCount(s, RecordsOf(base, before));
    if AtEnd(base, before) {
      AppendKeepsLogIff(s, RecordsOf(base, before), m);
      PutIsAtEnd(base, uses);
      AppendBase(s, m);
    } else {
      OverwriteIsShort(s, RecordsOf(base, before), m);
    }
  }

  lemma {:induction false} LogCount(s: Segment, rs: seq<Record>)
    requires Log(s, rs)
    ensures |s.index| == |rs|
  {
  }

  lemma {:induction false} PutIsAtEnd(base: nat, uses: seq<Use>)
    requires uses != [] && uses[|uses| - 1].Put?
    ensures AtEnd(base, uses)
  {
  }

  lemma {:induction false} GetStep(base: nat, uses: seq<Use>)
    requires uses != [] && uses[|uses| - 1].Get? && InGoodOrder(base, uses[..|uses| - 1])
    ensures InGoodOrder(base, uses)
  {
    hide ReadAt;
    var before, sequence := uses[..|uses| - 1], uses[|uses| - 1].sequence;
    var s, rs := UseAll(base, before), RecordsOf(base, before);
    assert Messages(uses) == Messages(before);
    if base <= sequence < base + |rs| {
      var i := sequence - base;
      ReadReturns(s, rs, i);
      SizeOfAll(rs);
      SizeGrows(rs, i + 1, |rs|);
    } else {
      ReadOutside(s, rs, sequence);
    }
  }

  lemma {:induction false} RunsAreInOrder(base: nat, uses: seq<Use>)
    requires AllFit(RecordsOf(base, uses))
    ensures Careful(base, uses) ==> InGoodOrder(base, uses)
    ensures !Careful(base, uses) ==> Short(UseAll(base, uses))
  {
    hide AllFit;
    hide InGoodOrder;
    hide Short;
    hide AtEnd;
    if uses == [] {
      NewIsInOrder(base);
    } else {
      var before, last := uses[..|uses| - 1], uses[|uses| - 1];
      FitsBefore(base, uses);
      RunsAreInOrder(base, before);
      if Careful(base, before) {
        if last.Put? {
          PutStep(base, uses);
        } else {
          GetStep(base, uses);
        }
      } else if last.Put? {
        AppendStaysShort(UseAll(base, before), last.message);
      } else {
        ReadStaysShort(UseAll(base, before), last.sequence);
      }
    }
  }

  lemma {:induction false} NewIsInOrder(base: nat)
    ensures InGoodOrder(base, [])
  {
  }

  /**
   Over any run of appends and reads, the segment is the log of its messages if and only if every append was
   made with nothing read since the one before it, or with the last record read last. Then and only then
   is the file as long as what was written.
   */
  lemma {:induction false} RunIsLogIff(base: nat, uses: seq<Use>)
    requires AllFit(RecordsOf(base, uses))
    ensures Log(UseAll(base, uses), RecordsOf(base, uses)) <==> Careful(base, uses)
    ensures |UseAll(base, uses).data| == UseAll(base, uses).written <==> Careful(base, uses)
  {
    hide AllFit;
    hide Careful;
    RunsAreInOrder(base, uses);
  }
}
