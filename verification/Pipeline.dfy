/**
 The log pipeline (backend/src/monitoring/shipper.rs) as a state machine: producers
 that never block, a bounded channel, and one consumer that batches. While the
 consumer waits for an answer to a bulk request, producers go on; the consumer
 only touches its own buffer and the drop counter, so its waiting is one of the
 places between two actions.
 */
module Pipeline {
  import opened Collections

  datatype Config = Config(capacity: nat, batchSize: nat)

  predicate Sane(c: Config) {
    c.capacity >= 1 && c.batchSize >= 1
  }

  datatype Consumer = Selecting | Reporting | Stopped

  /**
   The last four fields record what went through: calls to `record`, documents accepted, batches sent, drops logged.
   */
  datatype State<D> = State(
    channel: seq<D>,
    buf: seq<D>,
    dropped: nat,
    sendersGone: bool,
    consumer: Consumer,
    calls: nat,
    accepted: seq<D>,
    sent: seq<seq<D>>,
    reported: nat)

  datatype Action<D> =
    | Record(doc: D)   // a producer: try_send, or count a drop
    | DropSenders      // the last handle goes away
    | Receive          // recv() gives a document; a full buffer is flushed
    | Closed           // recv() gives None: last flush, and the loop ends
    | Tick             // the ticker fires: flush
    | ReportDropped    // after the flush of a tick: swap the counter

  function Start<D>(): State<D> {
    State([], [], 0, false, Selecting, 0, [], [], 0)
  }

  /** `flush`: nothing when the buffer is empty, else one bulk request and an empty buffer. */
  function Flush<D>(s: State<D>): State<D> {
    if s.buf == [] then s else s.(buf := [], sent := s.sent + [s.buf])
  }

  predicate Enabled<D>(s: State<D>, a: Action<D>) {
    match a
    case Record(_) => !s.sendersGone
    case DropSenders => !s.sendersGone
    case Receive => s.consumer.Selecting? && s.channel != []
    case Closed => s.consumer.Selecting? && s.channel == [] && s.sendersGone
    case Tick => s.consumer.Selecting?
    case ReportDropped => s.consumer.Reporting?
  }

  function Do<D>(c: Config, s: State<D>, a: Action<D>): State<D>
    requires Enabled(s, a)
  {
    match a
    case Record(doc) =>
      if |s.channel| < c.capacity
      then s.(channel := s.channel + [doc], calls := s.calls + 1, accepted := s.accepted + [doc])
      else s.(dropped := s.dropped + 1, calls := s.calls + 1)
    case DropSenders => s.(sendersGone := true)
    case Receive =>
      var s1 := s.(channel := s.channel[1..], buf := s.buf + [s.channel[0]]);
      if |s1.buf| >= c.batchSize then Flush(s1) else s1
    case Closed => Flush(s).(consumer := Stopped)
    case Tick => Flush(s).(consumer := Reporting)
    case ReportDropped => s.(consumer := Selecting, reported := s.reported + s.dropped, dropped := 0)
  }

  predicate Run<D>(c: Config, s: State<D>, acts: seq<Action<D>>)
    decreases |acts|
  {
    acts == [] || (Enabled(s, acts[0]) && Run(c, Do(c, s, acts[0]), acts[1..]))
  }

  function After<D>(c: Config, s: State<D>, acts: seq<Action<D>>): State<D>
    requires Run(c, s, acts)
    decreases |acts|
  {
    if acts == [] then s else After(c, Do(c, s, acts[0]), acts[1..])
  }

  function Concat<D>(batches: seq<seq<D>>): seq<D> {
    if batches == [] then [] else Concat(batches[..|batches| - 1]) + batches[|batches| - 1]
  }

  /**
   Nothing is lost, duplicated or reordered between `try_send` and the bulk requests, and every drop is counted once.
   */
  ghost predicate Conserved<D>(c: Config, s: State<D>) {
    && Concat(s.sent) + s.buf + s.channel == s.accepted
    && |s.accepted| + s.reported + s.dropped == s.calls
    && |s.channel| <= c.capacity && |s.buf| < c.batchSize
    && (forall i | 0 <= i < |s.sent| :: 1 <= |s.sent[i]| <= c.batchSize)
    && (s.consumer.Reporting? ==> s.buf == [])
    && (s.consumer.Stopped? ==> s.buf == [] && s.channel == [] && s.sendersGone)
  }

  lemma ConcatAppend<D>(batches: seq<seq<D>>, b: seq<D>)
    ensures Concat(batches + [b]) == Concat(batches) + b
  {
    assert (batches + [b])[..|batches|] == batches;
  }

  lemma FlushKeeps<D>(s: State<D>)
    ensures Concat(Flush(s).sent) + Flush(s).buf == Concat(s.sent) + s.buf
  {
    ConcatAppend(s.sent, s.buf);
  }

  lemma RecordKeeps<D>(c: Config, s: State<D>, doc: D)
    requires Conserved(c, s) && Enabled(s, Record(doc))
    ensures Conserved(c, Do(c, s, Record(doc)))
  {
    assert Concat(s.sent) + s.buf + (s.channel + [doc]) == Concat(s.sent) + s.buf + s.channel + [doc];
  }

  lemma ReceiveKeeps<D>(c: Config, s: State<D>)
    requires Sane(c) && Conserved(c, s) && Enabled(s, Receive)
    ensures Conserved(c, Do(c, s, Receive))
  {
    var s1 := s.(channel := s.channel[1..], buf := s.buf + [s.channel[0]]);
    assert Concat(s.sent) + s1.buf + s1.channel == Concat(s.sent) + s.buf + s.channel;
    FlushKeeps(s1);
  }

  lemma Keeps<D>(c: Config, s: State<D>, a: Action<D>)
    requires Sane(c) && Conserved(c, s) && Enabled(s, a)
    ensures Conserved(c, Do(c, s, a))
  {
    match a
    case Record(doc) => RecordKeeps(c, s, doc);
    case Receive => ReceiveKeeps(c, s);
    case Closed => FlushKeeps(s);
    case Tick => FlushKeeps(s);
    case _ =>
  }

  /** Conservation holds after every interleaving of producers, receives, ticks and shutdown. */
  lemma {:induction false} AlwaysConserved<D>(c: Config, s: State<D>, acts: seq<Action<D>>)
    requires Sane(c) && Conserved(c, s) && Run(c, s, acts)
    ensures Conserved(c, After(c, s, acts))
    decreases |acts|
  {
    if acts != [] {
      Keeps(c, s, acts[0]);
      AlwaysConserved(c, Do(c, s, acts[0]), acts[1..]);
    }
  }

  lemma ConservedFromStart<D>(c: Config, acts: seq<Action<D>>)
    requires Sane(c) && Run(c, Start<D>(), acts)
    ensures Conserved(c, After(c, Start<D>(), acts))
  {
    AlwaysConserved(c, Start<D>(), acts);
  }

  /** When the consumer has stopped, every accepted document was in exactly one bulk request, in order. */
  lemma StoppedMeansAllSent<D>(c: Config, acts: seq<Action<D>>)
    requires Sane(c) && Run(c, Start<D>(), acts) && After(c, Start<D>(), acts).consumer.Stopped?
    ensures var s := After(c, Start<D>(), acts);
            Concat(s.sent) == s.accepted && |Concat(s.sent)| + s.reported + s.dropped == s.calls
  {
    ConservedFromStart<D>(c, acts);
    var s := After(c, Start<D>(), acts);
    assert Concat(s.sent) + [] + [] == Concat(s.sent);
  }

  // --- When a document is dropped, and when a batch is sent ---

  ghost function DocsOf<D>(acts: seq<Action<D>>): seq<D> {
    if acts == [] then [] else (if acts[0].Record? then [acts[0].doc] else []) + DocsOf(acts[1..])
  }

  /** How many producers of the run find the channel full. */
  ghost function Refused<D>(c: Config, s: State<D>, acts: seq<Action<D>>): nat
    requires Run(c, s, acts)
    decreases |acts|
  {
    if acts == [] then 0
    else (if acts[0].Record? && |s.channel| == c.capacity then 1 else 0) + Refused(c, Do(c, s, acts[0]), acts[1..])
  }

  /** Every drop is a producer that found the channel full, and every such producer drops its document. */
  lemma {:induction false} DropsAreRefusals<D>(c: Config, s: State<D>, acts: seq<Action<D>>)
    requires Sane(c) && Conserved(c, s) && Run(c, s, acts)
    ensures var t := After(c, s, acts); t.reported + t.dropped == s.reported + s.dropped + Refused(c, s, acts)
    ensures |After(c, s, acts).accepted| + Refused(c, s, acts) == |s.accepted| + |DocsOf(acts)|
    decreases |acts|
  {
    if acts != [] {
      Keeps(c, s, acts[0]);
      DropsAreRefusals(c, Do(c, s, acts[0]), acts[1..]);
    }
  }

  /** If every producer finds room, exactly the producers' documents are accepted, in order, and none is dropped. */
  lemma {:induction false} RoomMeansAccepted<D>(c: Config, s: State<D>, acts: seq<Action<D>>)
    requires Sane(c) && Conserved(c, s) && Run(c, s, acts) && Refused(c, s, acts) == 0
    ensures var t := After(c, s, acts);
            t.accepted == s.accepted + DocsOf(acts) && t.reported + t.dropped == s.reported + s.dropped
    decreases |acts|
  {
    if acts == [] {
      assert s.accepted + [] == s.accepted;
    } else {
      var s1 := Do(c, s, acts[0]);
      Keeps(c, s, acts[0]);
      RoomMeansAccepted(c, s1, acts[1..]);
      AcceptedNow(c, s, acts[0]);
      Regroup(s.accepted, if acts[0].Record? then [acts[0].doc] else [], DocsOf(acts[1..]));
    }
  }

  lemma AcceptedNow<D>(c: Config, s: State<D>, a: Action<D>)
    requires Conserved(c, s) && Enabled(s, a) && !(a.Record? && |s.channel| == c.capacity)
    ensures Do(c, s, a).accepted == s.accepted + if a.Record? then [a.doc] else []
    ensures Do(c, s, a).reported + Do(c, s, a).dropped == s.reported + s.dropped
  {
  }

  lemma Regroup<D>(a: seq<D>, b: seq<D>, d: seq<D>)
    ensures (a + b) + d == a + (b + d)
  {
  }

  /**
   A batch is sent exactly when a received document fills the buffer, or when a tick or the end finds something in
   it; then the whole buffer goes. Otherwise a received document is kept, last.
   */
  lemma SendsExactly<D>(c: Config, s: State<D>, a: Action<D>)
    requires Sane(c) && Conserved(c, s) && Enabled(s, a)
    ensures var t := Do(c, s, a);
            var content := if a.Receive? then s.buf + [s.channel[0]] else s.buf;
            if (a.Receive? && |content| == c.batchSize) || ((a.Tick? || a.Closed?) && content != [])
            then t.sent == s.sent + [content] && t.buf == []
            else t.sent == s.sent && t.buf == content
    ensures Do(c, s, a).channel == match a
              case Receive => s.channel[1..]
              case Record(doc) => if |s.channel| < c.capacity then s.channel + [doc] else s.channel
              case _ => s.channel
  {
  }

  ghost predicate NoEarlyFlush<D>(acts: seq<Action<D>>) {
    forall i | 0 <= i < |acts| :: !acts[i].Tick? && !acts[i].Closed?
  }

  lemma RestHasNoEarlyFlush<D>(acts: seq<Action<D>>)
    requires acts != [] && NoEarlyFlush(acts)
    ensures NoEarlyFlush(acts[1..]) && !acts[0].Tick? && !acts[0].Closed?
  {
    forall i | 0 <= i < |acts[1..]| ensures !acts[1..][i].Tick? && !acts[1..][i].Closed? {
      assert acts[1..][i] == acts[i + 1];
    }
  }

  /** What one action sends. */
  lemma SentNow<D>(c: Config, s: State<D>, a: Action<D>) returns (sent: seq<seq<D>>)
    requires Sane(c) && Conserved(c, s) && Enabled(s, a) && !a.Tick? && !a.Closed?
    ensures Do(c, s, a).sent == s.sent + sent && forall i | 0 <= i < |sent| :: |sent[i]| == c.batchSize
  {
    SendsExactly(c, s, a);
    if a.Receive? && |s.buf| + 1 == c.batchSize {
      sent := [s.buf + [s.channel[0]]];
    } else {
      sent := [];
    }
  }

  /** Without a tick or the end, every batch sent is full. */
  lemma {:induction false} BatchesAreFull<D>(c: Config, s: State<D>, acts: seq<Action<D>>) returns (sent: seq<seq<D>>)
    requires Sane(c) && Conserved(c, s) && Run(c, s, acts) && NoEarlyFlush(acts)
    ensures After(c, s, acts).sent == s.sent + sent && forall i | 0 <= i < |sent| :: |sent[i]| == c.batchSize
    decreases |acts|
  {
    if acts == [] {
      sent := [];
      assert s.sent + [] == s.sent;
    } else {
      RestHasNoEarlyFlush(acts);
      Keeps(c, s, acts[0]);
      var now := SentNow(c, s, acts[0]);
      var later := BatchesAreFull(c, Do(c, s, acts[0]), acts[1..]);
      Regroup(s.sent, now, later);
      sent := now + later;
    }
  }

  function Repeat<D>(n: nat): seq<Action<D>> {
    if n == 0 then [Closed] else [Receive] + Repeat(n - 1)
  }

  /** Once the senders are gone, receiving what is left and then None stops the consumer with nothing lost. */
  lemma {:induction false} DrainStops<D>(c: Config, s: State<D>)
    requires Sane(c) && Conserved(c, s) && s.sendersGone && s.consumer.Selecting?
    ensures Run(c, s, Repeat(|s.channel|))
    ensures var t := After(c, s, Repeat(|s.channel|));
            t.consumer.Stopped? && t.accepted == s.accepted && Concat(t.sent) == s.accepted
    decreases |s.channel|
  {
    if s.channel == [] {
      Keeps(c, s, Closed);
      var t := Do(c, s, Closed);
      assert Concat(t.sent) + [] + [] == Concat(t.sent);
    } else {
      Keeps(c, s, Receive);
      DrainStops(c, Do(c, s, Receive));
      assert Repeat<D>(|s.channel|)[1..] == Repeat<D>(|s.channel| - 1);
    }
  }

  lemma {:induction false} RunConcat<D>(c: Config, s: State<D>, a: seq<Action<D>>, b: seq<Action<D>>)
    requires Run(c, s, a) && Run(c, After(c, s, a), b)
    ensures Run(c, s, a + b) && After(c, s, a + b) == After(c, After(c, s, a), b)
    decreases |a|
  {
    if a == [] {
      assert a + b == b;
    } else {
      RunConcat(c, Do(c, s, a[0]), a[1..], b);
      ConcatTail(a, b);
    }
  }
}
