/** The mutable `Stream`: a deque and its counters, updated in place. */
module StreamClass {
  import opened Wrappers
  import opened Streams

  class Stream {
    const config: StreamConfig
    var messages: nat
    var bytes: nat
    var firstSeq: nat
    var lastSeq: nat
    var kept: seq<StoredMessage>

    constructor (config: StreamConfig)
      ensures View() == NewLog(config)
    {
      this.config := config;
      messages, bytes, firstSeq, lastSeq, kept := 0, 0, 1, 0, [];
    }

    ghost function View(): Log
      reads this
    {
      Log(config, messages, bytes, firstSeq, lastSeq, kept)
    }

    ghost predicate Valid()
      reads this
    {
      Counted(View())
    }

    method RemoveFront()
      requires Valid()
      modifies this
      ensures Valid() && lastSeq == old(lastSeq)
      ensures kept == if old(kept) == [] then [] else old(kept)[1..]
    {
      if kept != [] {
        var msg := kept[0];
        kept := kept[1..];
        bytes := bytes - |msg.payload|;
        messages := messages - 1;
        firstSeq := firstSeq + 1;
      }
    }

    method ApplyRetention(now: nat)
      requires Valid()
      modifies this
      ensures Valid() && lastSeq == old(lastSeq)
      ensures kept == Retain(config, now, old(kept))
    {
      if config.maxAgeSecs > 0 {
        var cutoff := Cutoff(now, config.maxAgeSecs);
        while kept != []
          invariant Valid() && lastSeq == old(lastSeq)
          invariant DropOld(kept, cutoff) == DropOld(old(kept), cutoff)
          decreases |kept|
        {
          if kept[0].timestamp < cutoff {
            RemoveFront();
          } else {
            break;
          }
        }
      }
      assert kept == AgeStage(config, now, old(kept));
      TrimCount();
      TrimBytes();
    }

    method TrimCount()
      requires Valid()
      modifies this
      ensures Valid() && lastSeq == old(lastSeq)
      ensures kept == CountStage(config, old(kept))
    {
      if config.maxMsgs > 0 {
        while |kept| > config.maxMsgs
          invariant Valid() && lastSeq == old(lastSeq)
          invariant DropExcess(kept, config.maxMsgs) == DropExcess(old(kept), config.maxMsgs)
        {
          RemoveFront();
        }
      }
    }

    method TrimBytes()
      requires Valid()
      modifies this
      ensures Valid() && lastSeq == old(lastSeq)
      ensures kept == ByteStage(config, old(kept))
    {
      if config.maxBytes > 0 {
        while bytes > config.maxBytes && |kept| > 1
          invariant Valid() && lastSeq == old(lastSeq)
          invariant DropHeavy(kept, config.maxBytes) == DropHeavy(old(kept), config.maxBytes)
          decreases |kept|
        {
          RemoveFront();
        }
      }
    }

    /** Append a message and apply the limits; the answer is its sequence number. */
    method Append(call: StoreCall) returns (sequence: nat)
      requires Valid()
      modifies this
      ensures Valid() && View() == Store(old(View()), call)
      ensures sequence == old(lastSeq) + 1
      ensures Read(View(), sequence).Some? ==> Carries(Read(View(), sequence).value, sequence, call)
    {
      StoredReadsBack(View(), call);
      sequence := lastSeq + 1;
      var msg := Stamped(sequence, call);
      WeightInit(kept, msg);
      kept := kept + [msg];
      lastSeq := sequence;
      messages := messages + 1;
      bytes := bytes + |call.payload|;
      ApplyRetention(call.now);
    }

    method ReadOne(sequence: nat) returns (r: Option<StoredMessage>)
      requires Valid()
      ensures r == Read(View(), sequence)
    {
      if sequence < firstSeq || sequence > lastSeq {
        return None;
      }
      var idx := sequence - firstSeq;
      r := Some(kept[idx]);
    }

    method ReadMany(start: nat, end: nat) returns (r: seq<StoredMessage>)
      requires Valid()
      ensures r == ReadRange(View(), start, end)
    {
      var s := if start < firstSeq then firstSeq else start;
      var e := if end > lastSeq then lastSeq else end;
      if s > e {
        return [];
      }
      r := kept[s - firstSeq..][..e - s + 1];
    }
  }
}
