/** completeness.go: the commitment to a block's filter-matched logs, as the bytes it hashes. */
module EventSet {
  import opened Bytes

  type Address = s: Bytes | |s| == 20 witness seq(20, i => 0)

  datatype Log = Log(address: Address, topics: seq<Digest>, data: Bytes)

  /** "WILLOW_CRYPTO_EVENTS_V1" */
  const TAG: Bytes := [87, 73, 76, 76, 79, 87, 95, 67, 82, 89, 80, 84, 79, 95, 69, 86, 69, 78, 84, 83, 95, 86, 49]

  function TopicBytes(topics: seq<Digest>): Bytes {
    if topics == [] then [] else topics[0] + TopicBytes(topics[1..])
  }

  /** A log's bytes. The lengths are cast to 32 bits, which truncates longer ones. */
  function LogBytes(l: Log): Bytes {
    l.address + (ToBE(|l.topics| % TWO32, 4) + (TopicBytes(l.topics) + (ToBE(|l.data| % TWO32, 4) + l.data)))
  }

  function LogsBytes(logs: seq<Log>): Bytes {
    if logs == [] then [] else LogBytes(logs[0]) + LogsBytes(logs[1..])
  }

  function Preimage(block: U64, logs: seq<Log>): Bytes {
    TAG + (ToBE(block, 8) + (ToBE(|logs| % TWO64, 8) + LogsBytes(logs)))
  }

  /** The hasher's input grows as the source writes to it. */
  method WriteTopics(h: Bytes, topics: seq<Digest>) returns (out: Bytes)
    ensures out == h + TopicBytes(topics)
  {
    out := h;
    assert topics[0..] == topics;
    for j := 0 to |topics|
      invariant out + TopicBytes(topics[j..]) == h + TopicBytes(topics)
    {
      assert topics[j..][1..] == topics[j + 1..];
      Assoc(out, topics[j], TopicBytes(topics[j + 1..]));
      out := out + topics[j];
    }
    assert topics[|topics|..] == [];
    assert out + [] == out;
  }

  method WriteLog(h: Bytes, l: Log) returns (out: Bytes)
    ensures out == h + LogBytes(l)
  {
    hide ToBE, TopicBytes;
    var n, d := ToBE(|l.topics| % TWO32, 4), ToBE(|l.data| % TWO32, 4);
    out := h + l.address;
    out := out + n;
    out := WriteTopics(out, l.topics);
    out := out + d;
    out := out + l.data;
    Reassociate(h, l.address, n, TopicBytes(l.topics), d, l.data);
  }

  lemma Reassociate(h: Bytes, a: Bytes, n: Bytes, t: Bytes, d: Bytes, x: Bytes)
    ensures ((((h + a) + n) + t) + d) + x == h + (a + (n + (t + (d + x))))
  {
    Assoc(h + a + n + t, d, x);
    Assoc(h + a + n, t, d + x);
    Assoc(h + a, n, t + (d + x));
    Assoc(h, a, n + (t + (d + x)));
  }

  method WriteLogs(h: Bytes, logs: seq<Log>) returns (out: Bytes)
    ensures out == h + LogsBytes(logs)
  {
    hide LogBytes;
    out := h;
    assert logs[0..] == logs;
    for i := 0 to |logs|
      invariant out + LogsBytes(logs[i..]) == h + LogsBytes(logs)
    {
      assert logs[i..][1..] == logs[i + 1..];
      ghost var before := out;
      out := WriteLog(out, logs[i]);
      assert before + (LogBytes(logs[i]) + LogsBytes(logs[i + 1..])) == out + LogsBytes(logs[i + 1..]);
    }
    assert logs[|logs|..] == [];
    assert out + [] == out;
  }

  method CanonicalEventSetHash(H: Hash, block: U64, logs: seq<Log>) returns (r: Digest)
    ensures r == H(Preimage(block, logs))
  {
    hide ToBE, LogsBytes;
    var h := TAG;
    var block8, count8 := ToBE(block, 8), ToBE(|logs| % TWO64, 8);
    h := h + block8;
    h := h + count8;
    h := WriteLogs(h, logs);
    assert h == TAG + (block8 + (count8 + LogsBytes(logs)));
    r := H(h);
  }

  /** The tag is that text, and stands first. */
  lemma TagIsText(block: U64, logs: seq<Log>)
    ensures var text := "WILLOW_CRYPTO_EVENTS_V1";
            && |text| == 23 <= |Preimage(block, logs)|
            && forall i :: 0 <= i < 23 ==> Preimage(block, logs)[i] == text[i] as int
  {
    hide LogsBytes;
    assert Preimage(block, logs)[..23] == TAG;
    assert forall i :: 0 <= i < 23 ==> TAG[i] == "WILLOW_CRYPTO_EVENTS_V1"[i] as int;
  }

  // ----- the inverse

  function ReadTopics(b: Bytes, n: nat): Result<Read<seq<Digest>>> {
    if n == 0 then Ok(Read([], b))
    else
      var t :- Take(b, 32);
      var ts :- ReadTopics(t.rest, n - 1);
      Ok(Read([t.value] + ts.value, ts.rest))
  }

  function ReadLog(b: Bytes): Result<Read<Log>> {
    var a :- Take(b, 20);
    var n :- ReadBE(a.rest, 4);
    var ts :- ReadTopics(n.rest, n.value);
    var m :- ReadBE(ts.rest, 4);
    var d :- Take(m.rest, m.value);
    Ok(Read(Log(a.value, ts.value, d.value), d.rest))
  }

  function ReadLogs(b: Bytes, n: nat): Result<Read<seq<Log>>>
    decreases n
  {
    if n == 0 then Ok(Read([], b))
    else
      var l :- ReadLog(b);
      var ls :- ReadLogs(l.rest, n - 1);
      Ok(Read([l.value] + ls.value, ls.rest))
  }

  function ReadPreimage(b: Bytes): Result<Read<(U64, seq<Log>)>> {
    var t :- Take(b, |TAG|);
    var block :- ReadBE(t.rest, 8);
    var n :- ReadBE(block.rest, 8);
    var ls :- ReadLogs(n.rest, n.value);
    BlockFits(Take(t.rest, 8).value.value);
    Ok(Read((block.value, ls.value), ls.rest))
  }

  lemma BlockFits(s: Bytes)
    requires |s| == 8
    ensures BE(s) < TWO64
  {
    Widths();
    BEBound(s);
  }

  /** The lengths fit the fields they are written to. */
  predicate Fits(l: Log) { |l.topics| < TWO32 && |l.data| < TWO32 }

  /** The lengths a preimage can carry. */
  predicate Carries(block: U64, logs: seq<Log>) {
    |logs| < TWO64 && forall i :: 0 <= i < |logs| ==> Fits(logs[i])
  }

  lemma {:induction false} TopicsRoundTrip(topics: seq<Digest>, rest: Bytes)
    ensures ReadTopics(TopicBytes(topics) + rest, |topics|) == Ok(Read(topics, rest))
    decreases |topics|
  {
    if topics == [] {
      assert TopicBytes(topics) + rest == rest;
    } else {
      var tail := TopicBytes(topics[1..]) + rest;
      Assoc(topics[0], TopicBytes(topics[1..]), rest);
      TakeFront(topics[0], tail);
      TopicsRoundTrip(topics[1..], rest);
      assert [topics[0]] + topics[1..] == topics;
    }
  }

  lemma LogRoundTrip(l: Log, rest: Bytes)
    requires Fits(l)
    ensures ReadLog(LogBytes(l) + rest) == Ok(Read(l, rest))
  {
    hide Take, ReadBE, ReadTopics, TopicBytes, ToBE;
    assert Pow256(4) == TWO32 by { Widths(); }
    var m := l.data + rest;
    var ts := ToBE(|l.data| % TWO32, 4) + m;
    var n := TopicBytes(l.topics) + ts;
    var a := ToBE(|l.topics| % TWO32, 4) + n;
    assert LogBytes(l) + rest == l.address + a;
    TakeFront(l.address, a);
    ReadBEInverts(|l.topics|, 4, n);
    TopicsRoundTrip(l.topics, ts);
    ReadBEInverts(|l.data|, 4, m);
    TakeFront(l.data, rest);
  }

  lemma {:induction false} LogsRoundTrip(logs: seq<Log>, rest: Bytes)
    requires forall i :: 0 <= i < |logs| ==> Fits(logs[i])
    ensures ReadLogs(LogsBytes(logs) + rest, |logs|) == Ok(Read(logs, rest))
    decreases |logs|
  {
    hide ReadLog, LogBytes;
    if logs == [] {
      assert LogsBytes(logs) + rest == rest;
    } else {
      var tail := LogsBytes(logs[1..]) + rest;
      Assoc(LogBytes(logs[0]), LogsBytes(logs[1..]), rest);
      LogRoundTrip(logs[0], tail);
      LogsRoundTrip(logs[1..], rest);
      assert [logs[0]] + logs[1..] == logs;
    }
  }

  /** The preimage gives back the block number and the logs, in order, with every topic and all
      data. */
  lemma PreimageRoundTrip(block: U64, logs: seq<Log>)
    requires Carries(block, logs)
    ensures ReadPreimage(Preimage(block, logs)) == Ok(Read((block, logs), []))
  {
    hide Take, ReadBE, ReadLogs, LogsBytes, ToBE;
    assert Pow256(8) == TWO64 by { Widths(); }
    var ls := LogsBytes(logs);
    var n := ToBE(|logs| % TWO64, 8) + ls;
    TakeFront(TAG, ToBE(block, 8) + n);
    ReadBEInverts(block, 8, n);
    ReadBEInverts(|logs|, 8, ls);
    LogsRoundTrip(logs, []);
    assert ls + [] == ls;
  }

  lemma ReadLogFits(b: Bytes)
    requires ReadLog(b).Ok?
    ensures Fits(ReadLog(b).value.value)
  {
    Widths();
    var a := Take(b, 20).value;
    BEBound(Take(a.rest, 4).value.value);
    var n := ReadBE(a.rest, 4).value;
    ReadTopicsCount(n.rest, n.value);
    var ts := ReadTopics(n.rest, n.value).value;
    BEBound(Take(ts.rest, 4).value.value);
  }

  lemma {:induction false} ReadTopicsCount(b: Bytes, n: nat)
    requires ReadTopics(b, n).Ok?
    ensures |ReadTopics(b, n).value.value| == n
  {
    if n == 0 {
    } else {
      ReadTopicsCount(Take(b, 32).value.rest, n - 1);
    }
  }

  lemma {:induction false} ReadLogsFit(b: Bytes, n: nat)
    requires ReadLogs(b, n).Ok?
    ensures var logs := ReadLogs(b, n).value.value; |logs| == n && forall i :: 0 <= i < n ==> Fits(logs[i])
    decreases n
  {
    hide ReadLog;
    if n == 0 {
    } else {
      ReadLogFits(b);
      ReadLogsFit(ReadLog(b).value.rest, n - 1);
    }
  }

  /** This decoder gives a block and its logs back if and only if every length fits its field. */
  lemma PreimageReadsBack(block: U64, logs: seq<Log>)
    ensures ReadPreimage(Preimage(block, logs)) == Ok(Read((block, logs), [])) <==> Carries(block, logs)
  {
    hide ReadLogs;
    if Carries(block, logs) {
      PreimageRoundTrip(block, logs);
    } else if ReadPreimage(Preimage(block, logs)).Ok? {
      Widths();
      var t := Take(Preimage(block, logs), |TAG|).value;
      BEBound(Take(t.rest, 8).value.value);
      var n := ReadBE(t.rest, 8).value;
      BEBound(Take(n.rest, 8).value.value);
      var m := ReadBE(n.rest, 8).value;
      ReadLogsFit(m.rest, m.value);
    }
  }

  // ----- which sets share a preimage

  /** Lengths that differ but leave the same 32 bits. */
  predicate Wraps(m: nat, n: nat) { m != n && m % TWO32 == n % TWO32 }

  /** Two logs that differ first in a length that wraps around. */
  predicate Diverges(a: Log, b: Log) {
    && a.address == b.address
    && (Wraps(|a.topics|, |b.topics|) || (a.topics == b.topics && Wraps(|a.data|, |b.data|)))
  }

  /** The two sets agree up to a log that diverges. */
  ghost predicate DivergeAt(a: seq<Log>, b: seq<Log>, i: nat) {
    i < |a| && i < |b| && a[..i] == b[..i] && Diverges(a[i], b[i])
  }

  lemma LengthField(m: nat, n: nat)
    requires ToBE(m % TWO32, 4) == ToBE(n % TWO32, 4)
    ensures m % TWO32 == n % TWO32
  {
    hide ToBE, BE;
    Widths();
    BEInverts(m % TWO32, 4);
    BEInverts(n % TWO32, 4);
  }

  lemma TopicsSplit(a: seq<Digest>, x: Bytes, b: seq<Digest>, y: Bytes)
    requires |a| == |b| && TopicBytes(a) + x == TopicBytes(b) + y
    ensures a == b && x == y
  {
    hide ReadTopics, TopicBytes;
    TopicsRoundTrip(a, x);
    TopicsRoundTrip(b, y);
  }

  lemma LogShape(l: Log, rest: Bytes)
    ensures LogBytes(l) + rest ==
      l.address + (ToBE(|l.topics| % TWO32, 4) + (TopicBytes(l.topics) + (ToBE(|l.data| % TWO32, 4) + (l.data + rest))))
  {
    hide ToBE, TopicBytes;
    var n, d := ToBE(|l.topics| % TWO32, 4), ToBE(|l.data| % TWO32, 4);
    Assoc(d, l.data, rest);
    Assoc(TopicBytes(l.topics), d + l.data, rest);
    Assoc(n, TopicBytes(l.topics) + (d + l.data), rest);
    Assoc(l.address, n + (TopicBytes(l.topics) + (d + l.data)), rest);
  }

  /** Logs at the front of the same bytes are the same, or diverge. */
  lemma LogsDiverge(a: Log, x: Bytes, b: Log, y: Bytes)
    requires LogBytes(a) + x == LogBytes(b) + y
    ensures (a == b && x == y) || Diverges(a, b)
  {
    hide ToBE, TopicBytes, LogBytes;
    var da, db := ToBE(|a.data| % TWO32, 4) + (a.data + x), ToBE(|b.data| % TWO32, 4) + (b.data + y);
    var ta, tb := TopicBytes(a.topics) + da, TopicBytes(b.topics) + db;
    LogShape(a, x);
    LogShape(b, y);
    SplitEqual(a.address, ToBE(|a.topics| % TWO32, 4) + ta, b.address, ToBE(|b.topics| % TWO32, 4) + tb);
    SplitEqual(ToBE(|a.topics| % TWO32, 4), ta, ToBE(|b.topics| % TWO32, 4), tb);
    LengthField(|a.topics|, |b.topics|);
    if |a.topics| == |b.topics| {
      TopicsSplit(a.topics, da, b.topics, db);
      SplitEqual(ToBE(|a.data| % TWO32, 4), a.data + x, ToBE(|b.data| % TWO32, 4), b.data + y);
      LengthField(|a.data|, |b.data|);
      if |a.data| == |b.data| {
        SplitEqual(a.data, x, b.data, y);
      }
    }
  }

  /** Equal bytes of as many logs: the logs are equal, or there is a first one that diverges. */
  lemma {:induction false} FirstDivergence(a: seq<Log>, b: seq<Log>) returns (i: nat)
    requires |a| == |b| && LogsBytes(a) == LogsBytes(b)
    ensures a == b || DivergeAt(a, b, i)
    decreases |a|
  {
    hide LogBytes, Diverges;
    if a == [] {
      i := 0;
    } else {
      LogsDiverge(a[0], LogsBytes(a[1..]), b[0], LogsBytes(b[1..]));
      if Diverges(a[0], b[0]) {
        i := 0;
      } else {
        var j := FirstDivergence(a[1..], b[1..]);
        i := j + 1;
        assert a == [a[0]] + a[1..] && b == [b[0]] + b[1..];
        if a != b {
          assert a[..i] == [a[0]] + a[1..][..j] && b[..i] == [b[0]] + b[1..][..j];
        }
      }
    }
  }

  /** What two sets that share a preimage have in common, whatever their lengths: the block, the
      count, and every log up to one whose topic count, or data length, wraps around. */
  lemma SharedPreimage(block: U64, logs: seq<Log>, other: U64, others: seq<Log>) returns (i: nat)
    requires |logs| < TWO64 && |others| < TWO64 && Preimage(block, logs) == Preimage(other, others)
    ensures block == other && |logs| == |others| && (logs == others || DivergeAt(logs, others, i))
  {
    hide ToBE, BE, LogsBytes, DivergeAt;
    var n, m := ToBE(|logs| % TWO64, 8), ToBE(|others| % TWO64, 8);
    SplitEqual(TAG, ToBE(block, 8) + (n + LogsBytes(logs)), TAG, ToBE(other, 8) + (m + LogsBytes(others)));
    SplitEqual(ToBE(block, 8), n + LogsBytes(logs), ToBE(other, 8), m + LogsBytes(others));
    SplitEqual(n, LogsBytes(logs), m, LogsBytes(others));
    Widths();
    BEInverts(block, 8);
    BEInverts(other, 8);
    BEInverts(|logs| % TWO64, 8);
    BEInverts(|others| % TWO64, 8);
    i := FirstDivergence(logs, others);
  }

  /** So sets whose counts and lengths agree pairwise never share one, however long. */
  lemma EqualLengthsAreUnambiguous(block: U64, logs: seq<Log>, other: U64, others: seq<Log>)
    requires |logs| == |others| < TWO64
    requires forall i :: 0 <= i < |logs| ==>
      |logs[i].topics| == |others[i].topics| && |logs[i].data| == |others[i].data|
    requires Preimage(block, logs) == Preimage(other, others)
    ensures block == other && logs == others
  {
    hide Preimage;
    var i := SharedPreimage(block, logs, other, others);
  }

  lemma {:induction false} TopicBytesLength(topics: seq<Digest>)
    ensures |TopicBytes(topics)| == 32 * |topics|
  {
    if topics == [] {
    } else {
      TopicBytesLength(topics[1..]);
    }
  }

  /** A log takes at least as many bytes as it has topics, and as it has data. */
  lemma LogIsLong(l: Log)
    ensures |LogBytes(l)| >= |l.topics| && |LogBytes(l)| >= |l.data|
  {
    TopicBytesLength(l.topics);
  }

  lemma {:induction false} LogsAreLong(logs: seq<Log>, i: nat)
    requires i < |logs|
    ensures |LogsBytes(logs)| >= |LogBytes(logs[i])|
    decreases |logs|
  {
    hide LogBytes;
    if i == 0 {
    } else {
      LogsAreLong(logs[1..], i - 1);
    }
  }

  lemma WrapsAreLong(m: nat, n: nat)
    requires Wraps(m, n)
    ensures m >= TWO32 || n >= TWO32
  {
  }

  /** And a set whose logs take fewer than 2^32 bytes shares its preimage with no other at all. */
  lemma SmallSetsAreUnambiguous(block: U64, logs: seq<Log>, other: U64, others: seq<Log>)
    requires |logs| < TWO64 && |others| < TWO64 && |LogsBytes(logs)| < TWO32
    requires Preimage(block, logs) == Preimage(other, others)
    ensures block == other && logs == others
  {
    hide LogBytes, LogsBytes, Wraps;
    var i := SharedPreimage(block, logs, other, others);
    if logs != others {
      SameLogsLength(block, logs, other, others);
      LogsAreLong(logs, i);
      LogsAreLong(others, i);
      LogIsLong(logs[i]);
      LogIsLong(others[i]);
      if Wraps(|logs[i].topics|, |others[i].topics|) {
        WrapsAreLong(|logs[i].topics|, |others[i].topics|);
      } else {
        WrapsAreLong(|logs[i].data|, |others[i].data|);
      }
    }
  }

  lemma SameLogsLength(block: U64, logs: seq<Log>, other: U64, others: seq<Log>)
    requires Preimage(block, logs) == Preimage(other, others)
    ensures |LogsBytes(logs)| == |LogsBytes(others)|
  {
    assert |Preimage(block, logs)| == |TAG| + 16 + |LogsBytes(logs)|;
    assert |Preimage(other, others)| == |TAG| + 16 + |LogsBytes(others)|;
  }

  lemma {:induction false} ZeroTopics(n: nat)
    ensures TopicBytes(Repeat(ZeroHash(), n)) == Repeat(0, 32 * n)
  {
    if n == 0 {
    } else {
      ZeroTopics(n - 1);
      assert Repeat(ZeroHash(), n)[1..] == Repeat(ZeroHash(), n - 1);
    }
  }

  lemma OneLog(l: Log)
    ensures LogsBytes([l]) == LogBytes(l)
  {
    hide LogBytes;
    assert [l][1..] == [];
    assert LogBytes(l) + [] == LogBytes(l);
  }

  /** Longer sets can: a log of 2^32 zero topics and no data, and one of no topics and as many zero
      bytes of data, have one preimage. */
  lemma LongLogsAreAmbiguous(block: U64, address: Address)
    ensures var topics := Log(address, Repeat(ZeroHash(), TWO32), []);
            var data := Log(address, [], Repeat(0, 32 * TWO32));
            topics != data && Preimage(block, [topics]) == Preimage(block, [data])
  {
    hide Repeat, ToBE, LogBytes, LogsBytes;
    var topics := Log(address, Repeat(ZeroHash(), TWO32), []);
    var data := Log(address, [], Repeat(0, 32 * TWO32));
    ZeroTopics(TWO32);
    SameLogBytes(topics, data);
    OneLog(topics);
    OneLog(data);
  }

  lemma SameLogBytes(topics: Log, data: Log)
    requires topics.address == data.address && topics.data == [] && data.topics == []
    requires |topics.topics| == TWO32 && |data.data| == 32 * TWO32
    requires TopicBytes(topics.topics) == data.data && forall i :: 0 <= i < |data.data| ==> data.data[i] == 0
    ensures LogBytes(topics) == LogBytes(data)
  {
    var zero := ToBE(0, 4);
    assert TopicBytes([]) == [];
    assert zero == [0, 0, 0, 0];
    hide ToBE, TopicBytes;
    ZerosCommute(zero, data.data);
  }

  lemma ZerosCommute(zero: Bytes, zeros: Bytes)
    requires forall i :: 0 <= i < |zero| ==> zero[i] == 0
    requires forall i :: 0 <= i < |zeros| ==> zeros[i] == 0
    ensures zero + (zeros + (zero + [])) == zero + ([] + (zero + zeros))
  {
  }

  /** VerifyServedEvents. */
  method VerifyServedEvents(H: Hash, commitment: Digest, block: U64, logs: seq<Log>) returns (ok: bool)
    ensures ok <==> commitment == H(Preimage(block, logs))
  {
    var r := CanonicalEventSetHash(H, block, logs);
    ok := r == commitment;
  }

  /** A served set that matches the commitment to a block's logs is that block's logs: none dropped,
      added, altered or reordered, and no other block; or the two preimages collide; or some topic
      count or data length is 2^32 or more. */
  lemma MatchingEventsAreComplete(H: Hash, block: U64, logs: seq<Log>, served: U64, servedLogs: seq<Log>)
    returns (i: nat)
    requires |logs| < TWO64 && |servedLogs| < TWO64
    requires H(Preimage(served, servedLogs)) == H(Preimage(block, logs))
    ensures || (served == block && servedLogs == logs)
            || Collide(H, Preimage(served, servedLogs), Preimage(block, logs))
            || (DivergeAt(servedLogs, logs, i) && !(Fits(servedLogs[i]) && Fits(logs[i])))
  {
    hide Preimage;
    i := 0;
    if Preimage(served, servedLogs) == Preimage(block, logs) {
      i := SharedPreimage(served, servedLogs, block, logs);
    }
  }
}
