/**
 A stream: an append-only history of which a suffix is retained. `store` reads the clock twice, once to
 stamp the message and once for retention, so each call carries both readings.
 */
module Streams {
  import opened Wrappers
  import opened Bytes

  datatype StreamConfig = StreamConfig(maxMsgs: nat, maxBytes: nat, maxAgeSecs: nat)

  const DEFAULT_CONFIG := StreamConfig(0, 0, 0)

  datatype StoredMessage = StoredMessage(
    sequence: nat, timestamp: nat, subject: string, replyTo: Option<string>, payload: seq<byte>,
    headers: Option<seq<(string, string)>>)

  /** One call of `store` with the two clock readings it makes. */
  datatype StoreCall = StoreCall(
    subject: string, replyTo: Option<string>, payload: seq<byte>, headers: Option<seq<(string, string)>>,
    stamp: nat, now: nat)

  function Stamped(sequence: nat, call: StoreCall): StoredMessage {
    StoredMessage(sequence, call.stamp, call.subject, call.replyTo, call.payload, call.headers)
  }

  /** The value of a `Stream`: its configuration, its counters and its deque. */
  datatype Log = Log(
    config: StreamConfig, messages: nat, bytes: nat, firstSeq: nat, lastSeq: nat, kept: seq<StoredMessage>)

  function NewLog(config: StreamConfig): Log {
    Log(config, 0, 0, 1, 0, [])
  }

  /** The payload bytes of a sequence of messages. */
  function Weight(s: seq<StoredMessage>): nat {
    if s == [] then 0 else |s[0].payload| + Weight(s[1..])
  }

  /** `now - max_age_secs * 1000` in 64-bit arithmetic that wraps. */
  function Cutoff(now: nat, maxAgeSecs: nat): (r: nat)
    ensures maxAgeSecs * 1000 <= now < U64 ==> r == now - maxAgeSecs * 1000
  {
    (now - maxAgeSecs * 1000) % U64
  }

  // The three stages of retention, each dropping from the front

  function DropOld(s: seq<StoredMessage>, cutoff: nat): seq<StoredMessage> {
    if s != [] && s[0].timestamp < cutoff then DropOld(s[1..], cutoff) else s
  }

  function DropExcess(s: seq<StoredMessage>, max: nat): seq<StoredMessage> {
    if |s| > max then DropExcess(s[1..], max) else s
  }

  function DropHeavy(s: seq<StoredMessage>, max: nat): seq<StoredMessage> {
    if Weight(s) > max && |s| > 1 then DropHeavy(s[1..], max) else s
  }

  function AgeStage(config: StreamConfig, now: nat, s: seq<StoredMessage>): seq<StoredMessage> {
    if config.maxAgeSecs > 0 then DropOld(s, Cutoff(now, config.maxAgeSecs)) else s
  }

  function CountStage(config: StreamConfig, s: seq<StoredMessage>): seq<StoredMessage> {
    if config.maxMsgs > 0 then DropExcess(s, config.maxMsgs) else s
  }

  function ByteStage(config: StreamConfig, s: seq<StoredMessage>): seq<StoredMessage> {
    if config.maxBytes > 0 then DropHeavy(s, config.maxBytes) else s
  }

  function Retain(config: StreamConfig, now: nat, s: seq<StoredMessage>): seq<StoredMessage> {
    ByteStage(config, CountStage(config, AgeStage(config, now, s)))
  }

  /** The counters that go with a deque ending at `lastSeq`. */
  ghost predicate Counted(v: Log) {
    && v.messages == |v.kept|
    && v.bytes == Weight(v.kept)
    && v.firstSeq + |v.kept| == v.lastSeq + 1
    && 1 <= v.firstSeq
  }

  /** The log holding exactly `kept`, with its counters. */
  function Holding(config: StreamConfig, lastSeq: nat, kept: seq<StoredMessage>): (v: Log)
    requires |kept| <= lastSeq
    ensures Counted(v)
  {
    Log(config, |kept|, Weight(kept), lastSeq + 1 - |kept|, lastSeq, kept)
  }

  function Store(v: Log, call: StoreCall): (r: Log)
    requires Counted(v)
    ensures Counted(r)
  {
    RetainShrinks(v.config, call.now, v.kept + [Stamped(v.lastSeq + 1, call)]);
    Holding(v.config, v.lastSeq + 1, Retain(v.config, call.now, v.kept + [Stamped(v.lastSeq + 1, call)]))
  }

  function Read(v: Log, sequence: nat): Option<StoredMessage> {
    if sequence < v.firstSeq || sequence > v.lastSeq then None
    else
      var idx := sequence - v.firstSeq;
      if idx < |v.kept| then Some(v.kept[idx]) else None
  }

  function ReadRange(v: Log, start: nat, end: nat): seq<StoredMessage> {
    var s := if start < v.firstSeq then v.firstSeq else start;
    var e := if end > v.lastSeq then v.lastSeq else end;
    if s > e then []
    else Take(Skip(v.kept, s - v.firstSeq), e - s + 1)
  }

  function Skip<T>(s: seq<T>, n: nat): seq<T> {
    if n <= |s| then s[n..] else []
  }

  function Take<T>(s: seq<T>, n: nat): seq<T> {
    if n <= |s| then s[..n] else s
  }

  // Suffixes

  ghost predicate Suffix(r: seq<StoredMessage>, s: seq<StoredMessage>) {
    |r| <= |s| && r == s[|s| - |r|..]
  }

  lemma {:induction false} SuffixTrans(a: seq<StoredMessage>, b: seq<StoredMessage>, c: seq<StoredMessage>)
    requires Suffix(a, b) && Suffix(b, c)
    ensures Suffix(a, c)
  {
    assert c[|c| - |b|..][|b| - |a|..] == c[|c| - |a|..];
  }

  /** Of two suffixes, the shorter is a suffix of the longer. */
  lemma {:induction false} SuffixOrder(a: seq<StoredMessage>, b: seq<StoredMessage>, s: seq<StoredMessage>)
    requires Suffix(a, s) && Suffix(b, s) && |a| <= |b|
    ensures Suffix(a, b)
  {
    assert s[|s| - |b|..][|b| - |a|..] == s[|s| - |a|..];
  }

  lemma {:induction false} DropOldSuffix(s: seq<StoredMessage>, cutoff: nat)
    ensures Suffix(DropOld(s, cutoff), s)
  {
    if s != [] && s[0].timestamp < cutoff {
      DropOldSuffix(s[1..], cutoff);
      SuffixTrans(DropOld(s, cutoff), s[1..], s);
    }
  }

  lemma {:induction false} DropExcessSuffix(s: seq<StoredMessage>, max: nat)
    ensures Suffix(DropExcess(s, max), s)
  {
    if |s| > max {
      DropExcessSuffix(s[1..], max);
      SuffixTrans(DropExcess(s, max), s[1..], s);
    }
  }

  lemma {:induction false} DropHeavySuffix(s: seq<StoredMessage>, max: nat)
    ensures Suffix(DropHeavy(s, max), s)
  {
    if Weight(s) > max && |s| > 1 {
      DropHeavySuffix(s[1..], max);
      SuffixTrans(DropHeavy(s, max), s[1..], s);
    }
  }

  lemma {:induction false} StagesShrink(config: StreamConfig, now: nat, s: seq<StoredMessage>)
    ensures Suffix(AgeStage(config, now, s), s)
    ensures Suffix(CountStage(config, s), s)
    ensures Suffix(ByteStage(config, s), s)
  {
    DropOldSuffix(s, Cutoff(now, config.maxAgeSecs));
    DropExcessSuffix(s, config.maxMsgs);
    DropHeavySuffix(s, config.maxBytes);
  }

  lemma {:induction false} RetainShrinks(config: StreamConfig, now: nat, s: seq<StoredMessage>)
    ensures Suffix(Retain(config, now, s), s)
  {
    var a := AgeStage(config, now, s);
    var c := CountStage(config, a);
    StagesShrink(config, now, s);
    StagesShrink(config, now, a);
    StagesShrink(config, now, c);
    SuffixTrans(c, a, s);
    SuffixTrans(ByteStage(config, c), c, s);
  }

  // The limits, as the configuration documents them

  /** No message older than the age limit, in unbounded arithmetic. */
  ghost predicate Young(config: StreamConfig, now: nat, s: seq<StoredMessage>) {
    config.maxAgeSecs > 0 ==> forall i :: 0 <= i < |s| ==> s[i].timestamp >= now - config.maxAgeSecs * 1000
  }

  ghost predicate Few(config: StreamConfig, s: seq<StoredMessage>) {
    config.maxMsgs > 0 ==> |s| <= config.maxMsgs
  }

  /** A single message is kept however large it is. */
  ghost predicate Light(config: StreamConfig, s: seq<StoredMessage>) {
    config.maxBytes > 0 && |s| > 1 ==> Weight(s) <= config.maxBytes
  }

  ghost predicate Within(config: StreamConfig, now: nat, s: seq<StoredMessage>) {
    Young(config, now, s) && Few(config, s) && Light(config, s)
  }

  /** `r` is the longest suffix of `s` within the limits. */
  ghost predicate Longest(config: StreamConfig, now: nat, r: seq<StoredMessage>, s: seq<StoredMessage>) {
    && Suffix(r, s)
    && Within(config, now, r)
    && forall t :: Suffix(t, s) && Within(config, now, t) ==> |t| <= |r|
  }

  ghost predicate Chronological(s: seq<StoredMessage>) {
    forall i, j :: 0 <= i < j < |s| ==> s[i].timestamp <= s[j].timestamp
  }

  /** The age limit fits the clock: the subtraction in `apply_retention` does not wrap. */
  ghost predicate AgeFits(config: StreamConfig, now: nat) {
    config.maxAgeSecs * 1000 <= now < U64
  }

  lemma {:induction false} WeightSuffix(a: seq<StoredMessage>, b: seq<StoredMessage>)
    requires Suffix(a, b)
    ensures Weight(a) <= Weight(b)
  {
    if |a| < |b| {
      SuffixOrder(a, b[1..], b);
      WeightSuffix(a, b[1..]);
    }
  }

  /** Every limit is kept by dropping more. */
  lemma {:induction false} WithinSuffix(config: StreamConfig, now: nat, a: seq<StoredMessage>, b: seq<StoredMessage>)
    requires Suffix(a, b)
    ensures Young(config, now, b) ==> Young(config, now, a)
    ensures Few(config, b) ==> Few(config, a)
    ensures Light(config, b) ==> Light(config, a)
  {
    WeightSuffix(a, b);
    forall i | 0 <= i < |a| ensures a[i] == b[i + |b| - |a|] {
    }
  }

  lemma {:induction false} WholeSuffix(t: seq<StoredMessage>, s: seq<StoredMessage>)
    requires Suffix(t, s)
    ensures |t| == |s| ==> t == s
  {
  }

  /** A proper suffix is a suffix of the tail. */
  lemma {:induction false} ProperSuffix(t: seq<StoredMessage>, s: seq<StoredMessage>)
    requires Suffix(t, s) && t != s
    ensures s != [] && Suffix(t, s[1..])
  {
    WholeSuffix(t, s);
    SuffixOrder(t, s[1..], s);
  }

  lemma {:induction false} AgeStageLongest(config: StreamConfig, now: nat, s: seq<StoredMessage>, t: seq<StoredMessage>)
    requires AgeFits(config, now) && Chronological(s)
    requires Suffix(t, s) && Young(config, now, t)
    ensures Young(config, now, AgeStage(config, now, s))
    ensures |t| <= |AgeStage(config, now, s)|
    decreases |s|
  {
    if config.maxAgeSecs > 0 && s != [] && s[0].timestamp < Cutoff(now, config.maxAgeSecs) {
      ProperSuffix(t, s);
      AgeStageLongest(config, now, s[1..], t);
    }
  }

  lemma {:induction false} CountStageLongest(config: StreamConfig, s: seq<StoredMessage>, t: seq<StoredMessage>)
    requires Suffix(t, s) && Few(config, t)
    ensures Few(config, CountStage(config, s))
    ensures |t| <= |CountStage(config, s)|
    decreases |s|
  {
    if config.maxMsgs > 0 && |s| > config.maxMsgs {
      ProperSuffix(t, s);
      CountStageLongest(config, s[1..], t);
    }
  }

  lemma {:induction false} ByteStageLongest(config: StreamConfig, s: seq<StoredMessage>, t: seq<StoredMessage>)
    requires Suffix(t, s) && Light(config, t)
    ensures Light(config, ByteStage(config, s))
    ensures |t| <= |ByteStage(config, s)|
    decreases |s|
  {
    if config.maxBytes > 0 && Weight(s) > config.maxBytes && |s| > 1 {
      ProperSuffix(t, s);
      ByteStageLongest(config, s[1..], t);
    }
  }

  /** The three loops together keep the longest suffix within all three limits. */
  lemma {:induction false} RetainIsLongest(config: StreamConfig, now: nat, s: seq<StoredMessage>)
    requires AgeFits(config, now) && Chronological(s)
    ensures Longest(config, now, Retain(config, now, s), s)
  {
    RetainShrinks(config, now, s);
    assert Within(config, now, s[|s|..]);
    RetainWithin(config, now, s, s[|s|..]);
    forall t | Suffix(t, s) && Within(config, now, t) ensures |t| <= |Retain(config, now, s)| {
      RetainWithin(config, now, s, t);
    }
  }

  lemma {:induction false} RetainWithin(config: StreamConfig, now: nat, s: seq<StoredMessage>, t: seq<StoredMessage>)
    requires AgeFits(config, now) && Chronological(s)
    requires Suffix(t, s) && Within(config, now, t)
    ensures Within(config, now, Retain(config, now, s))
    ensures |t| <= |Retain(config, now, s)|
  {
    var a := AgeStage(config, now, s);
    var c := CountStage(config, a);
    StagesShrink(config, now, s);
    StagesShrink(config, now, a);
    StagesShrink(config, now, c);
    AgeStageLongest(config, now, s, t);
    SuffixOrder(t, a, s);
    CountStageLongest(config, a, t);
    SuffixOrder(t, c, a);
    ByteStageLongest(config, c, t);
    WithinSuffix(config, now, c, a);
    WithinSuffix(config, now, ByteStage(config, c), c);
  }

  // Runs of stores

  function Run(config: StreamConfig, calls: seq<StoreCall>): (v: Log)
    ensures Counted(v) && v.config == config && v.lastSeq == |calls|
  {
    if calls == [] then NewLog(config)
    else Store(Run(config, calls[..|calls| - 1]), calls[|calls| - 1])
  }

  /** Everything ever stored, numbered from 1. */
  function History(calls: seq<StoreCall>): (r: seq<StoredMessage>)
    ensures |r| == |calls|
    ensures forall i :: 0 <= i < |r| ==> r[i] == Stamped(i + 1, calls[i])
  {
    seq(|calls|, i requires 0 <= i < |calls| => Stamped(i + 1, calls[i]))
  }

  /** `v` describes the retained part of the history `h`. */
  ghost predicate Tracks(v: Log, h: seq<StoredMessage>) {
    Counted(v) && v.lastSeq == |h| && Suffix(v.kept, h)
  }

  lemma {:induction false} StoreTracks(v: Log, h: seq<StoredMessage>, call: StoreCall)
    requires Tracks(v, h)
    ensures Tracks(Store(v, call), h + [Stamped(|h| + 1, call)])
  {
    var m := Stamped(|h| + 1, call);
    RetainShrinks(v.config, call.now, v.kept + [m]);
    SuffixGrow(Retain(v.config, call.now, v.kept + [m]), v.kept, h, m);
  }

  lemma {:induction false} SuffixGrow(
    r: seq<StoredMessage>, a: seq<StoredMessage>, b: seq<StoredMessage>, m: StoredMessage)
    requires Suffix(a, b) && Suffix(r, a + [m])
    ensures Suffix(r, b + [m])
  {
    SuffixAppend(a, b, m);
    SuffixTrans(r, a + [m], b + [m]);
  }

  /** Under any clock at all, what is retained is a suffix of everything stored, exactly counted. */
  lemma {:induction false} RunTracksHistory(config: StreamConfig, calls: seq<StoreCall>)
    ensures Tracks(Run(config, calls), History(calls))
  {
    if calls != [] {
      var before := calls[..|calls| - 1];
      RunTracksHistory(config, before);
      StoreTracks(Run(config, before), History(before), calls[|calls| - 1]);
      HistoryStep(calls);
    }
  }

  lemma {:induction false} HistoryStep(calls: seq<StoreCall>)
    requires calls != []
    ensures History(calls) == History(calls[..|calls| - 1]) + [Stamped(|calls|, calls[|calls| - 1])]
  {
  }

  lemma {:induction false} SuffixAppend(a: seq<StoredMessage>, b: seq<StoredMessage>, m: StoredMessage)
    requires Suffix(a, b)
    ensures Suffix(a + [m], b + [m])
  {
  }

  /** The clock never goes back, and the age limit fits every reading. */
  ghost predicate SteadyClock(config: StreamConfig, calls: seq<StoreCall>) {
    && (forall i :: 0 <= i < |calls| ==> calls[i].stamp <= calls[i].now && AgeFits(config, calls[i].now))
    && (forall i, j :: 0 <= i < j < |calls| ==> calls[i].now <= calls[j].stamp)
  }

  /**
   What a run of stores retains is the longest suffix of everything ever stored that meets the limits at
   the last clock reading, although each store only looks at what the previous one left.
   */
  lemma {:induction false} RunKeepsLongest(config: StreamConfig, calls: seq<StoreCall>)
    requires calls != [] && SteadyClock(config, calls)
    ensures Longest(config, calls[|calls| - 1].now, Run(config, calls).kept, History(calls))
  {
    hide *;
    var before := calls[..|calls| - 1];
    var last := calls[|calls| - 1];
    HistoryStep(calls);
    HistoryChronological(config, calls);
    RunTracksHistory(config, before);
    RunStep(config, calls);
    SteadyStep(config, calls);
    if before == [] {
      StoreKeepsLongest(Run(config, before), History(before), 0, last);
    } else {
      RunKeepsLongest(config, before);
      StoreKeepsLongest(Run(config, before), History(before), before[|before| - 1].now, last);
    }
  }

  lemma {:induction false} RunStep(config: StreamConfig, calls: seq<StoreCall>)
    requires calls != []
    ensures Run(config, calls) == Store(Run(config, calls[..|calls| - 1]), calls[|calls| - 1])
    ensures Run(config, calls[..|calls| - 1]).config == config
  {
  }

  lemma {:induction false} SteadyStep(config: StreamConfig, calls: seq<StoreCall>)
    requires calls != [] && SteadyClock(config, calls)
    ensures SteadyClock(config, calls[..|calls| - 1]) && AgeFits(config, calls[|calls| - 1].now)
    ensures |calls| > 1 ==> calls[..|calls| - 1][|calls| - 2].now <= calls[|calls| - 1].now
  {
    if |calls| > 1 {
      assert calls[|calls| - 2].now <= calls[|calls| - 1].stamp <= calls[|calls| - 1].now;
    }
  }

  /** One store turns the longest suffix at an earlier time into the longest suffix now. */
  lemma {:induction false} StoreKeepsLongest(v: Log, h: seq<StoredMessage>, earlier: nat, call: StoreCall)
    requires Tracks(v, h) && (h == [] || Longest(v.config, earlier, v.kept, h))
    requires earlier <= call.now && AgeFits(v.config, call.now)
    requires Chronological(h + [Stamped(|h| + 1, call)])
    ensures Longest(v.config, call.now, Store(v, call).kept, h + [Stamped(|h| + 1, call)])
  {
    hide Retain;
    hide Longest;
    hide Suffix;
    hide Chronological;
    RetainStep(v.config, v.kept, h, earlier, call.now, Stamped(|h| + 1, call));
  }

  lemma {:induction false} RetainStep(
    config: StreamConfig, kept: seq<StoredMessage>, h: seq<StoredMessage>, earlier: nat, now: nat, m: StoredMessage)
    requires Suffix(kept, h) && (h == [] || Longest(config, earlier, kept, h))
    requires earlier <= now && AgeFits(config, now) && Chronological(h + [m])
    ensures Longest(config, now, Retain(config, now, kept + [m]), h + [m])
  {
    SuffixAppend(kept, h, m);
    forall t | Suffix(t, h + [m]) && Within(config, now, t) ensures |t| <= |kept + [m]| {
      DroppedStaysDropped(config, kept, h, earlier, now, m, t);
    }
    RetainIsLongestOfAll(config, now, kept + [m], h + [m]);
  }

  /** Retention may start from any suffix that holds every suffix within the limits. */
  lemma {:induction false} RetainIsLongestOfAll(
    config: StreamConfig, now: nat, s: seq<StoredMessage>, all: seq<StoredMessage>)
    requires AgeFits(config, now) && Chronological(all) && Suffix(s, all)
    requires forall t :: Suffix(t, all) && Within(config, now, t) ==> |t| <= |s|
    ensures Longest(config, now, Retain(config, now, s), all)
  {
    ChronologicalSuffix(s, all);
    RetainIsLongest(config, now, s);
    SuffixTrans(Retain(config, now, s), s, all);
    forall t | Suffix(t, all) && Within(config, now, t) ensures |t| <= |Retain(config, now, s)| {
      SuffixOrder(t, s, all);
    }
  }

  lemma {:induction false} HistoryChronological(config: StreamConfig, calls: seq<StoreCall>)
    requires SteadyClock(config, calls)
    ensures Chronological(History(calls))
  {
    var h := History(calls);
    forall i, j | 0 <= i < j < |h| ensures h[i].timestamp <= h[j].timestamp {
      assert calls[i].stamp <= calls[i].now <= calls[j].stamp;
    }
  }

  lemma {:induction false} ChronologicalSuffix(a: seq<StoredMessage>, b: seq<StoredMessage>)
    requires Suffix(a, b) && Chronological(b)
    ensures Chronological(a)
  {
    forall i, j | 0 <= i < j < |a| ensures a[i].timestamp <= a[j].timestamp {
      assert b[i + |b| - |a|].timestamp <= b[j + |b| - |a|].timestamp;
    }
  }

  /** A message an earlier store dropped is in no suffix that meets the limits later. */
  lemma {:induction false} DroppedStaysDropped(
    config: StreamConfig, kept: seq<StoredMessage>, h: seq<StoredMessage>, earlier: nat, now: nat,
                            m: StoredMessage, t: seq<StoredMessage>)
    requires h == [] || Longest(config, earlier, kept, h)
    requires earlier <= now
    requires Suffix(t, h + [m]) && Within(config, now, t)
    ensures |t| <= |kept| + 1
  {
    if t != [] {
      var u := t[..|t| - 1];
      SuffixInit(t, h, m);
      WeightInit(u, m);
      assert forall i :: 0 <= i < |u| ==> u[i] == t[i];
      assert Within(config, earlier, u);
    }
  }

  lemma {:induction false} SuffixInit(t: seq<StoredMessage>, h: seq<StoredMessage>, m: StoredMessage)
    requires t != [] && Suffix(t, h + [m])
    ensures t == t[..|t| - 1] + [m] && Suffix(t[..|t| - 1], h)
  {
  }

  lemma {:induction false} WeightInit(u: seq<StoredMessage>, m: StoredMessage)
    ensures Weight(u + [m]) == Weight(u) + |m.payload|
  {
    if u == [] {
      assert (u + [m])[1..] == [];
    } else {
      WeightInit(u[1..], m);
      assert (u + [m])[1..] == u[1..] + [m];
    }
  }

  /** `read` answers from the history: the entry with that number while it is retained, nothing otherwise. */
  lemma {:induction false} ReadReturnsHistory(v: Log, h: seq<StoredMessage>, sequence: nat)
    requires Tracks(v, h)
    ensures Read(v, sequence) == if v.firstSeq <= sequence <= |h| then Some(h[sequence - 1]) else None
  {
  }

  /** `read_range` returns the retained part of the closed range asked for, in order. */
  lemma {:induction false} ReadRangeReturnsHistory(v: Log, h: seq<StoredMessage>, start: nat, end: nat)
    requires Tracks(v, h)
    ensures var s := if start < v.firstSeq then v.firstSeq else start;
            var e := if end > |h| then |h| else end;
            ReadRange(v, start, end) == if s > e then [] else h[s - 1..e]
  {
    var s := if start < v.firstSeq then v.firstSeq else start;
    var e := if end > v.lastSeq then v.lastSeq else end;
    if s <= e {
      SliceOfSuffix(h, v.firstSeq - 1, s - 1, e);
    }
  }

  lemma {:induction false} SliceOfSuffix<T>(h: seq<T>, k: nat, i: nat, j: nat)
    requires k <= i <= j <= |h|
    ensures Take(Skip(h[k..], i - k), j - i) == h[i..j]
  {
  }

  /** The message is the `n`-th stored, as it was given. */
  ghost predicate Carries(m: StoredMessage, n: nat, call: StoreCall) {
    && m.sequence == n && m.timestamp == call.stamp
    && m.subject == call.subject && m.replyTo == call.replyTo
    && m.payload == call.payload && m.headers == call.headers
  }

  /** A message that survives its own store reads back, all of it. */
  lemma {:induction false} StoredReadsBack(v: Log, call: StoreCall)
    requires Counted(v)
    ensures var m := Read(Store(v, call), v.lastSeq + 1); m.Some? ==> Carries(m.value, v.lastSeq + 1, call)
  {
    hide Retain, Weight;
    var all := v.kept + [Stamped(v.lastSeq + 1, call)];
    RetainShrinks(v.config, call.now, all);
    assert Suffix(Retain(v.config, call.now, all), all);
  }

  /** Number k reads the k-th message stored, all of it, exactly while it is retained. */
  lemma {:induction false} RunReads(config: StreamConfig, calls: seq<StoreCall>, sequence: nat)
    ensures Read(Run(config, calls), sequence).Some? <==> Run(config, calls).firstSeq <= sequence <= |calls|
    ensures Run(config, calls).firstSeq >= 1
    ensures Read(Run(config, calls), sequence).Some? ==>
              Carries(Read(Run(config, calls), sequence).value, sequence, calls[sequence - 1])
  {
    RunTracksHistory(config, calls);
    ReadReturnsHistory(Run(config, calls), History(calls), sequence);
  }

  /** Retention only moves forward. */
  lemma {:induction false} FirstSeqNeverDecreases(v: Log, call: StoreCall)
    requires Counted(v)
    ensures v.firstSeq <= Store(v, call).firstSeq <= v.lastSeq + 2
    ensures Store(v, call).lastSeq == v.lastSeq + 1
  {
    RetainShrinks(v.config, call.now, v.kept + [Stamped(v.lastSeq + 1, call)]);
  }

  // When the age limit does not fit the clock

  /**
   The age stage drops exactly the messages older than the limit if and only if the subtraction does not
   wrap, or the oldest message is not older than the wrapped cutoff either.
   */
  lemma {:induction false} AgeStageIsRightIff(config: StreamConfig, now: nat, s: seq<StoredMessage>)
    requires config.maxAgeSecs > 0 && now < U64 && s != [] && Chronological(s)
    ensures (Suffix(AgeStage(config, now, s), s) && Young(config, now, AgeStage(config, now, s)) &&
             forall t :: Suffix(t, s) && Young(config, now, t) ==> |t| <= |AgeStage(config, now, s)|) <==>
            AgeFits(config, now) || s[0].timestamp >= Cutoff(now, config.maxAgeSecs)
  {
    StagesShrink(config, now, s);
    if AgeFits(config, now) {
      AgeStageLongest(config, now, s, s[|s|..]);
      forall t | Suffix(t, s) && Young(config, now, t) ensures |t| <= |AgeStage(config, now, s)| {
        AgeStageLongest(config, now, s, t);
      }
    } else {
      assert Suffix(s, s) && Young(config, now, s);
      if s[0].timestamp < Cutoff(now, config.maxAgeSecs) {
        DropOldSuffix(s[1..], Cutoff(now, config.maxAgeSecs));
      }
    }
  }

  /**
   A limit that reaches back before the epoch, which should drop nothing, drops everything instead, the
   message being stored included. So for limits whose milliseconds fit a word, a store keeps its own
   message through the age stage exactly when the limit fits the clock.
   */
  lemma {:induction false} AgeBeforeEpochEmptiesIff(config: StreamConfig, now: nat, s: seq<StoredMessage>)
    requires 0 < config.maxAgeSecs && config.maxAgeSecs * 1000 < U64 && now < U64
    requires s != [] && forall i :: 0 <= i < |s| ==> now - config.maxAgeSecs * 1000 <= s[i].timestamp <= now
    ensures AgeStage(config, now, s) == (if AgeFits(config, now) then s else [])
  {
    if !AgeFits(config, now) {
      assert Cutoff(now, config.maxAgeSecs) == now - config.maxAgeSecs * 1000 + U64;
      DropsAll(s, Cutoff(now, config.maxAgeSecs));
    }
  }

  lemma {:induction false} DropsAll(s: seq<StoredMessage>, cutoff: nat)
    requires forall i :: 0 <= i < |s| ==> s[i].timestamp < cutoff
    ensures DropOld(s, cutoff) == []
  {
    if s != [] {
      DropsAll(s[1..], cutoff);
    }
  }
}
