/**
 The header section: a count, then each key and value behind its length. A hash map is iterated in some
 order; a listing is one such order, and what holds for every listing holds for every order.
 */
module Headers {
  import opened Wrappers
  import opened Bytes
  import opened Seqs
  import opened Frames
  import opened FrameBuffer

  /** Text as its bytes. */
  type Text = seq<byte>

  datatype Pair = Pair(key: Text, value: Text)

  /** `ps` lists the map: every entry once. */
  ghost predicate Lists(ps: seq<Pair>, m: map<Text, Text>) {
    && (forall i, j :: 0 <= i < j < |ps| ==> ps[i].key != ps[j].key)
    && (forall i :: 0 <= i < |ps| ==> ps[i].key in m && m[ps[i].key] == ps[i].value)
    && (forall k :: k in m ==> Pair(k, m[k]) in ps)
  }

  function EncodePair(p: Pair): (b: seq<byte>)
    ensures |b| == 4 + |p.key| + |p.value|
  {
    Be(2, |p.key|) + p.key + Be(2, |p.value|) + p.value
  }

  function EncodePairs(ps: seq<Pair>): seq<byte> {
    if ps == [] then [] else EncodePairs(ps[..|ps| - 1]) + EncodePair(ps[|ps| - 1])
  }

  function EncodeListing(ps: seq<Pair>): seq<byte> {
    Be(2, |ps|) + EncodePairs(ps)
  }

  /** A text behind its length, and what follows it. */
  function TakeText(buf: seq<byte>, noLength: string, noData: string): Result<(Text, seq<byte>), ProtocolError> {
    if |buf| < 2 then Failure(DecodingError(noLength))
    else
      var len := Word(buf, 0, 2);
      if |buf| - 2 < len then Failure(DecodingError(noData))
      else Success((buf[2..2 + len], buf[2 + len..]))
  }

  function TakePair(buf: seq<byte>): Result<(Pair, seq<byte>), ProtocolError> {
    match TakeText(buf, "header key length truncated", "header key data truncated")
    case Failure(e) => Failure(e)
    case Success(k) =>
      match TakeText(k.1, "header value length truncated", "header value data truncated")
      case Failure(e) => Failure(e)
      case Success(v) => Success((Pair(k.0, v.0), v.1))
  }

  function DecodePairs(buf: seq<byte>, n: nat, acc: map<Text, Text>): Result<map<Text, Text>, ProtocolError>
    decreases n
  {
    if n == 0 then Success(acc)
    else
      match TakePair(buf)
      case Failure(e) => Failure(e)
      case Success(p) => DecodePairs(p.1, n - 1, acc[p.0.key := p.0.value])
  }

  function DecodeHeaders(data: seq<byte>): Result<map<Text, Text>, ProtocolError> {
    if |data| < 2 then Success(map[])
    else DecodePairs(data[2..], Word(data, 0, 2), map[])
  }

  // Round trip

  ghost predicate PairFits(p: Pair) {
    |p.key| < U16 && |p.value| < U16
  }

  ghost predicate ListingFits(ps: seq<Pair>) {
    |ps| < U16 && forall i :: 0 <= i < |ps| ==> PairFits(ps[i])
  }

  function Insert(acc: map<Text, Text>, ps: seq<Pair>): map<Text, Text>
    decreases |ps|
  {
    if ps == [] then acc else Insert(acc[ps[0].key := ps[0].value], ps[1..])
  }

  lemma {:induction false} TextReadsBack(t: Text, rest: seq<byte>, noLength: string, noData: string)
    requires |t| < U16
    ensures TakeText(Be(2, |t|) + t + rest, noLength, noData) == Success((t, rest))
  {
    hide Be;
    var buf := Be(2, |t|) + t + rest;
    Widths();
    assert buf[0..2] == Be(2, |t|);
    WordAt(buf, 0, 2, |t|);
  }

  lemma {:induction false} PairReadsBack(p: Pair, rest: seq<byte>)
    requires PairFits(p)
    ensures TakePair(EncodePair(p) + rest) == Success((p, rest))
  {
    hide TakeText;
    hide Be;
    var tail := Be(2, |p.value|) + p.value + rest;
    assert EncodePair(p) + rest == Be(2, |p.key|) + p.key + tail;
    TextReadsBack(p.key, tail, "header key length truncated", "header key data truncated");
    TextReadsBack(p.value, rest, "header value length truncated", "header value data truncated");
  }

  lemma {:induction false} EncodePairsCons(ps: seq<Pair>)
    requires ps != []
    ensures EncodePairs(ps) == EncodePair(ps[0]) + EncodePairs(ps[1..])
  {
    hide EncodePair;
    if |ps| == 1 {
      assert ps[..0] == [] && ps[1..] == [];
    } else {
      var init := ps[..|ps| - 1];
      EncodePairsCons(init);
      assert init[1..] == ps[1..][..|ps| - 2];
    }
  }

  lemma {:induction false} PairsReadBack(ps: seq<Pair>, rest: seq<byte>, acc: map<Text, Text>)
    requires forall i :: 0 <= i < |ps| ==> PairFits(ps[i])
    ensures DecodePairs(EncodePairs(ps) + rest, |ps|, acc) == Success(Insert(acc, ps))
  {
    hide TakePair;
    hide EncodePair;
    if ps != [] {
      EncodePairsCons(ps);
      var tail := EncodePairs(ps[1..]) + rest;
      assert EncodePairs(ps) + rest == EncodePair(ps[0]) + tail;
      PairReadsBack(ps[0], tail);
      PairsReadBack(ps[1..], rest, acc[ps[0].key := ps[0].value]);
    }
  }

  lemma {:induction false} InsertLookup(acc: map<Text, Text>, ps: seq<Pair>, k: Text)
    requires forall i, j :: 0 <= i < j < |ps| ==> ps[i].key != ps[j].key
    ensures k in Insert(acc, ps) <==> k in acc || exists i :: 0 <= i < |ps| && ps[i].key == k
    ensures forall i :: 0 <= i < |ps| && ps[i].key == k ==> Insert(acc, ps)[k] == ps[i].value
    ensures k in acc && (forall i :: 0 <= i < |ps| ==> ps[i].key != k) ==> Insert(acc, ps)[k] == acc[k]
    decreases |ps|
  {
    if ps != [] {
      InsertLookup(acc[ps[0].key := ps[0].value], ps[1..], k);
      assert forall i :: 1 <= i < |ps| ==> ps[i] == ps[1..][i - 1];
    }
  }

  lemma {:induction false} InsertListing(ps: seq<Pair>, m: map<Text, Text>)
    requires Lists(ps, m)
    ensures Insert(map[], ps) == m
  {
    hide Insert;
    forall k ensures k in Insert(map[], ps) <==> k in m
      ensures k in m ==> k in Insert(map[], ps) && Insert(map[], ps)[k] == m[k]
    {
      InsertLookup(map[], ps, k);
      if k in m {
        var i :| 0 <= i < |ps| && ps[i] == Pair(k, m[k]);
        assert ps[i].key == k;
      }
    }
  }

  /** Whatever order the map was iterated in, decoding gives the map back; bytes after it are ignored. */
  lemma {:induction false} HeadersReadBack(ps: seq<Pair>, m: map<Text, Text>, rest: seq<byte>)
    requires Lists(ps, m) && ListingFits(ps)
    ensures DecodeHeaders(EncodeListing(ps) + rest) == Success(m)
  {
    hide DecodePairs;
    hide EncodePairs;
    hide Be;
    var data := EncodeListing(ps) + rest;
    Widths();
    assert data[0..2] == Be(2, |ps|);
    WordAt(data, 0, 2, |ps|);
    assert data[2..] == EncodePairs(ps) + rest;
    PairsReadBack(ps, rest, map[]);
    InsertListing(ps, m);
  }

  // A section cut short

  lemma {:induction false} CutTextFails(t: Text, c: nat, noLength: string, noData: string)
    requires |t| < U16 && c < 2 + |t|
    ensures TakeText((Be(2, |t|) + t)[..c], noLength, noData)
         == Failure(DecodingError(if c < 2 then noLength else noData))
  {
    hide Be;
    var buf := (Be(2, |t|) + t)[..c];
    Widths();
    if c >= 2 {
      assert buf[0..2] == Be(2, |t|);
      WordAt(buf, 0, 2, |t|);
    }
  }

  lemma {:induction false} CutPairFails(p: Pair, c: nat)
    requires PairFits(p) && c < |EncodePair(p)|
    ensures TakePair(EncodePair(p)[..c]).Failure?
  {
    hide TakeText;
    hide Be;
    var key, value := Be(2, |p.key|) + p.key, Be(2, |p.value|) + p.value;
    assert EncodePair(p) == key + value;
    if c < |key| {
      assert EncodePair(p)[..c] == key[..c];
      CutTextFails(p.key, c, "header key length truncated", "header key data truncated");
    } else {
      assert EncodePair(p)[..c] == key + value[..c - |key|];
      TextReadsBack(p.key, value[..c - |key|], "header key length truncated", "header key data truncated");
      CutTextFails(p.value, c - |key|, "header value length truncated", "header value data truncated");
    }
  }

  lemma {:induction false} CutPairsFail(ps: seq<Pair>, c: nat, acc: map<Text, Text>)
    requires (forall i :: 0 <= i < |ps| ==> PairFits(ps[i])) && c < |EncodePairs(ps)|
    ensures DecodePairs(EncodePairs(ps)[..c], |ps|, acc).Failure?
  {
    hide TakePair;
    hide EncodePair;
    EncodePairsCons(ps);
    var first, tail := EncodePair(ps[0]), EncodePairs(ps[1..]);
    if c < |first| {
      assert EncodePairs(ps)[..c] == first[..c];
      CutPairFails(ps[0], c);
    } else {
      assert EncodePairs(ps)[..c] == first + tail[..c - |first|];
      PairReadsBack(ps[0], tail[..c - |first|]);
      CutPairsFail(ps[1..], c - |first|, acc[ps[0].key := ps[0].value]);
    }
  }

  /** A section cut anywhere behind its count is an error; cut before that it is an empty map. */
  lemma {:induction false} CutSectionFails(ps: seq<Pair>, c: nat)
    requires ListingFits(ps) && c < |EncodeListing(ps)|
    ensures if c < 2 then DecodeHeaders(EncodeListing(ps)[..c]) == Success(map[])
            else DecodeHeaders(EncodeListing(ps)[..c]).Failure?
  {
    hide DecodePairs;
    hide EncodePairs;
    hide Be;
    var data := EncodeListing(ps)[..c];
    if c >= 2 {
      Widths();
      assert data[0..2] == Be(2, |ps|);
      WordAt(data, 0, 2, |ps|);
      assert data[2..] == EncodePairs(ps)[..c - 2];
      CutPairsFail(ps, c - 2, map[]);
    }
  }

  // The announced length

  function Size(ps: seq<Pair>): nat {
    if ps == [] then 0 else Size(ps[..|ps| - 1]) + 4 + |ps[|ps| - 1].key| + |ps[|ps| - 1].value|
  }

  lemma {:induction false} SizeIsLength(ps: seq<Pair>)
    ensures |EncodePairs(ps)| == Size(ps)
  {
    if ps != [] {
      SizeIsLength(ps[..|ps| - 1]);
    }
  }

  lemma {:induction false} SizeWithout(ps: seq<Pair>, i: nat)
    requires i < |ps|
    ensures Size(ps) == Size(ps[..i] + ps[i + 1..]) + 4 + |ps[i].key| + |ps[i].value|
  {
    if i == |ps| - 1 {
      assert ps[..i] + ps[i + 1..] == ps[..i];
    } else {
      var init := ps[..|ps| - 1];
      var out := ps[..i] + ps[i + 1..];
      SizeWithout(init, i);
      assert init[..i] + init[i + 1..] == out[..|out| - 1];
      assert out[|out| - 1] == ps[|ps| - 1];
    }
  }

  /** Two orders of the same map take the same space. */
  lemma {:induction false} OrdersSameSize(ps: seq<Pair>, qs: seq<Pair>, m: map<Text, Text>)
    requires Lists(ps, m) && Lists(qs, m)
    ensures |ps| == |qs| && Size(ps) == Size(qs)
  {
    if ps == [] {
      assert qs == [];
    } else {
      var p := ps[|ps| - 1];
      assert p.key in m && m[p.key] == p.value;
      var i :| 0 <= i < |qs| && qs[i] == p;
      ListsWithout(ps, |ps| - 1, m);
      ListsWithout(qs, i, m);
      assert ps[..|ps| - 1] + ps[|ps|..] == ps[..|ps| - 1];
      OrdersSameSize(ps[..|ps| - 1], qs[..i] + qs[i + 1..], m - {p.key});
      SizeWithout(qs, i);
    }
  }

  lemma {:induction false} ListsWithout(ps: seq<Pair>, i: nat, m: map<Text, Text>)
    requires Lists(ps, m) && i < |ps|
    ensures Lists(ps[..i] + ps[i + 1..], m - {ps[i].key})
  {
    var qs := ps[..i] + ps[i + 1..];
    var n := m - {ps[i].key};
    forall j | 0 <= j < |qs| ensures qs[j].key in n && n[qs[j].key] == qs[j].value {
      assert qs[j] == ps[if j < i then j else j + 1];
    }
    forall j, k | 0 <= j < k < |qs| ensures qs[j].key != qs[k].key {
      assert qs[j] == ps[if j < i then j else j + 1] && qs[k] == ps[if k < i then k else k + 1];
    }
    forall k | k in n ensures Pair(k, n[k]) in qs {
      StillListed(ps, i, Pair(k, n[k]));
    }
  }

  lemma {:induction false} StillListed(ps: seq<Pair>, i: nat, p: Pair)
    requires i < |ps| && p in ps && p != ps[i]
    ensures p in ps[..i] + ps[i + 1..]
  {
    var j :| 0 <= j < |ps| && ps[j] == p;
    assert (ps[..i] + ps[i + 1..])[if j < i then j else j - 1] == p;
  }

  ghost predicate ListsPart(ps: seq<Pair>, m: map<Text, Text>, left: set<Text>) {
    && (forall i, j :: 0 <= i < j < |ps| ==> ps[i].key != ps[j].key)
    && (forall i :: 0 <= i < |ps| ==> ps[i].key in m && m[ps[i].key] == ps[i].value && ps[i].key !in left)
    && (forall k :: k in m && k !in left ==> Pair(k, m[k]) in ps)
    && left <= m.Keys
  }

  lemma {:induction false} ListOneMore(ps: seq<Pair>, m: map<Text, Text>, left: set<Text>, k: Text)
    requires ListsPart(ps, m, left) && k in left
    ensures ListsPart(ps + [Pair(k, m[k])], m, left - {k})
  {
    var qs := ps + [Pair(k, m[k])];
    assert forall i :: 0 <= i < |ps| ==> qs[i] == ps[i];
    forall j | j in m && j !in left - {k} ensures Pair(j, m[j]) in qs {
      if j != k {
        assert Pair(j, m[j]) in ps;
      } else {
        assert qs[|ps|] == Pair(j, m[j]);
      }
    }
  }

  /** The bytes a map will take, whichever order it is then written in. */
  method EncodedHeadersLen(m: map<Text, Text>) returns (len: nat)
    ensures forall ps :: Lists(ps, m) ==> len == |EncodeListing(ps)|
  {
    hide EncodePairs;
    len := 2;
    var left := m.Keys;
    ghost var done: seq<Pair> := [];
    while left != {}
      invariant ListsPart(done, m, left)
      invariant len == 2 + Size(done)
      decreases |left|
    {
      var key :| key in left;
      ListOneMore(done, m, left, key);
      len := len + 2 + |key| + 2 + |m[key]|;
      assert (done + [Pair(key, m[key])])[..|done|] == done;
      done := done + [Pair(key, m[key])];
      left := left - {key};
    }
    forall ps | Lists(ps, m) ensures len == |EncodeListing(ps)| {
      OrdersSameSize(ps, done, m);
      SizeIsLength(ps);
    }
  }

  /** Write a map, in the order the iteration happens to take. */
  method EncodeHeadersInto(m: map<Text, Text>, buf: Buffer) returns (ghost order: seq<Pair>)
    modifies buf
    ensures Lists(order, m)
    ensures buf.data == old(buf.data) + EncodeListing(order)
  {
    hide Be;
    buf.Put(2, |m|);
    order := PutPairs(m, buf);
    ConcatAssoc(old(buf.data), Be(2, |m|), EncodePairs(order));
  }

  method PutPairs(m: map<Text, Text>, buf: Buffer) returns (ghost order: seq<Pair>)
    modifies buf
    ensures Lists(order, m) && |order| == |m|
    ensures buf.data == old(buf.data) + EncodePairs(order)
  {
    hide EncodePair;
    hide EncodePairs;
    hide ListsPart;
    var left := m.Keys;
    order := [];
    PartOfMap(order, m, left);
    EncodePairsSnoc([], Pair([], []));
    while left != {}
      invariant ListsPart(order, m, left) && |order| + |left| == |m| && left <= m.Keys
      invariant buf.data == old(buf.data) + EncodePairs(order)
      decreases |left|
    {
      var key :| key in left;
      ListOneMore(order, m, left, key);
      PutPair(Pair(key, m[key]), buf);
      EncodePairsSnoc(order, Pair(key, m[key]));
      ConcatAssoc(old(buf.data), EncodePairs(order), EncodePair(Pair(key, m[key])));
      order := order + [Pair(key, m[key])];
      left := left - {key};
    }
    PartOfMap(order, m, left);
  }

  lemma {:induction false} EncodePairsSnoc(ps: seq<Pair>, p: Pair)
    ensures EncodePairs([]) == []
    ensures EncodePairs(ps + [p]) == EncodePairs(ps) + EncodePair(p)
  {
    assert (ps + [p])[..|ps|] == ps;
  }

  method PutPair(p: Pair, buf: Buffer)
    modifies buf
    ensures buf.data == old(buf.data) + EncodePair(p)
  {
    hide Be;
    buf.Put(2, |p.key|);
    buf.Extend(p.key);
    buf.Put(2, |p.value|);
    buf.Extend(p.value);
  }

  lemma {:induction false} PartOfMap(ps: seq<Pair>, m: map<Text, Text>, left: set<Text>)
    ensures ps == [] && left == m.Keys ==> ListsPart(ps, m, left)
    ensures left == {} && ListsPart(ps, m, left) ==> Lists(ps, m)
  {
  }

  /** Read a map out of the header section. */
  method DecodeHeadersFrom(data: seq<byte>) returns (r: Result<map<Text, Text>, ProtocolError>)
    ensures r == DecodeHeaders(data)
  {
    hide TakePair;
    if |data| < 2 {
      return Success(map[]);
    }
    WordIsUn(data, 0, data[..2]);
    var n := Un(data[..2]);
    var buf := data[2..];
    var headers: map<Text, Text> := map[];
    for i := 0 to n
      invariant DecodePairs(buf, n - i, headers) == DecodeHeaders(data)
    {
      var p := TakePair(buf);
      if p.Failure? {
        return Failure(p.error);
      }
      headers := headers[p.value.0.key := p.value.0.value];
      buf := p.value.1;
    }
    r := Success(headers);
  }
}
