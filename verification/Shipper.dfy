/** The shipper's handle and task (backend/src/monitoring/shipper.rs) with the fields and loop they have. */
module Shipper {
  import opened Pipeline
  import opened Bulk

  /** What happens next around the task; `select!` may take any ready branch. */
  datatype Turn = Produce(doc: LogDoc) | DropHandles | Ready | TickerFires

  /** The actions of one turn: a branch that is not ready does nothing, and the senders are silent once gone. */
  ghost function TurnActions(turn: Turn, s: State<LogDoc>): seq<Action<LogDoc>> {
    match turn
    case Produce(doc) => if s.sendersGone then [] else [Record(doc)]
    case DropHandles => if s.sendersGone then [] else [DropSenders]
    case Ready => if s.channel != [] then [Receive] else if s.sendersGone then [Closed] else []
    case TickerFires => [Tick, ReportDropped]
  }

  lemma OneAction(c: Config, s: State<LogDoc>, a: Action<LogDoc>)
    requires Enabled(s, a)
    ensures Pipeline.Run(c, s, [a]) && After(c, s, [a]) == Do(c, s, a)
  {
    assert [a][0] == a && [a][1..] == [];
  }

  lemma TurnRuns(c: Config, s: State<LogDoc>, turn: Turn)
    requires s.consumer.Selecting?
    ensures Pipeline.Run(c, s, TurnActions(turn, s))
  {
    var acts: seq<Action<LogDoc>> := [Tick, ReportDropped];
    assert acts[1..] == [ReportDropped];
  }

  /** The state after every turn of the schedule, in order, up to the turn that stops the task. */
  ghost function Played(c: Config, s: State<LogDoc>, schedule: seq<Turn>): State<LogDoc>
    decreases |schedule|
  {
    if schedule == [] || !s.consumer.Selecting? then s
    else
      TurnRuns(c, s, schedule[0]);
      Played(c, After(c, s, TurnActions(schedule[0], s)), schedule[1..])
  }

  ghost function Produced(schedule: seq<Turn>): nat {
    if schedule == [] then 0 else (if schedule[0].Produce? then 1 else 0) + Produced(schedule[1..])
  }

  lemma TurnCounts(c: Config, s: State<LogDoc>, turn: Turn)
    requires s.consumer.Selecting? && !s.sendersGone && !turn.DropHandles?
    ensures Pipeline.Run(c, s, TurnActions(turn, s))
    ensures var t := After(c, s, TurnActions(turn, s));
            t.consumer.Selecting? && !t.sendersGone && t.calls == s.calls + if turn.Produce? then 1 else 0
  {
    TurnRuns(c, s, turn);
    match turn
    case Produce(doc) => OneAction(c, s, Record(doc));
    case Ready => if s.channel != [] { OneAction(c, s, Receive); }
    case TickerFires =>
      var acts: seq<Action<LogDoc>> := [Tick, ReportDropped];
      assert acts[1..] == [ReportDropped];
      OneAction(c, Do(c, s, Tick), ReportDropped);
    case _ =>
  }

  /** As long as the handles are there, every producer of the schedule makes its call, and the task does not stop. */
  lemma {:induction false} EveryProducerCounts(c: Config, s: State<LogDoc>, schedule: seq<Turn>)
    requires s.consumer.Selecting? && !s.sendersGone && forall i | 0 <= i < |schedule| :: !schedule[i].DropHandles?
    ensures var t := Played(c, s, schedule); t.consumer.Selecting? && t.calls == s.calls + Produced(schedule)
    decreases |schedule|
  {
    if schedule != [] {
      TurnCounts(c, s, schedule[0]);
      forall i | 0 <= i < |schedule[1..]| ensures !schedule[1..][i].DropHandles? {
        assert schedule[1..][i] == schedule[i + 1];
      }
      EveryProducerCounts(c, After(c, s, TurnActions(schedule[0], s)), schedule[1..]);
    }
  }

  function Readies(n: nat): seq<Turn> {
    if n == 0 then [] else [Ready] + Readies(n - 1)
  }

  /** Once the handles are gone, as many turns as documents are queued, and one more, stop the task with all sent. */
  lemma {:induction false} ShutdownDrains(c: Config, s: State<LogDoc>, n: nat)
    requires Sane(c) && Conserved(c, s) && s.consumer.Selecting? && s.sendersGone && n > |s.channel|
    ensures var t := Played(c, s, Readies(n));
            t.consumer.Stopped? && t.accepted == s.accepted && Concat(t.sent) == s.accepted
    decreases n
  {
    assert Readies(n)[0] == Ready && Readies(n)[1..] == Readies(n - 1);
    if s.channel == [] {
      Pipeline.Keeps(c, s, Closed);
      OneAction(c, s, Closed);
      var t := Do(c, s, Closed);
      assert Concat(t.sent) + [] + [] == Concat(t.sent);
    } else {
      Pipeline.Keeps(c, s, Receive);
      OneAction(c, s, Receive);
      ShutdownDrains(c, Do(c, s, Receive), n - 1);
    }
  }

  /** Body number `i` frames exactly the documents of batch number `i`. */
  ghost predicate Framing(bodies: seq<string>, sent: seq<seq<LogDoc>>, prefix: string) {
    && |bodies| == |sent|
    && (forall i | 0 <= i < |bodies| :: Dated(sent[i]) && Frames(bodies[i], sent[i], prefix))
  }

  ghost predicate Flushed(bodies: seq<string>, bodies': seq<string>, buf: seq<LogDoc>, prefix: string)
    requires Dated(buf)
  {
    if buf == [] then bodies' == bodies
    else |bodies'| == |bodies| + 1 && bodies'[..|bodies|] == bodies && Frames(bodies'[|bodies|], buf, prefix)
  }

  lemma FlushFrames(bodies: seq<string>, bodies': seq<string>, s: State<LogDoc>, prefix: string)
    requires Framing(bodies, s.sent, prefix) && Dated(s.buf) && Flushed(bodies, bodies', s.buf, prefix)
    ensures Framing(bodies', Pipeline.Flush(s).sent, prefix)
  {
    if s.buf != [] {
      forall i | 0 <= i < |bodies| ensures bodies'[i] == bodies[i] { assert bodies'[i] == bodies'[..|bodies|][i]; }
    }
  }

  class Shipper {
    const cfg: Config
    const indexPrefix: string
    var channel: seq<LogDoc>
    var buf: seq<LogDoc>
    var dropped: nat
    var sendersGone: bool
    /** The bodies handed to the client, in order. */
    var bodies: seq<string>
    ghost var model: State<LogDoc>

    ghost predicate Valid()
      reads this
    {
      && Sane(cfg)
      && channel == model.channel && buf == model.buf && dropped == model.dropped && sendersGone == model.sendersGone
      && Dated(buf) && Dated(channel)
      && Framing(bodies, model.sent, indexPrefix)
    }

    constructor (cfg: Config, indexPrefix: string)
      requires Sane(cfg)
      ensures Valid() && model == Start<LogDoc>() && this.cfg == cfg && this.indexPrefix == indexPrefix
    {
      this.cfg, this.indexPrefix := cfg, indexPrefix;
      channel, buf, dropped, sendersGone, bodies := [], [], 0, false, [];
      model := Start<LogDoc>();
    }

    /** `MonitoringHandle::record`: never blocks. */
    method Record(doc: LogDoc)
      requires Valid() && !sendersGone && doc.date.Valid()
      modifies this
      ensures Valid() && model == Do(cfg, old(model), Action.Record(doc))
      ensures |old(channel)| < cfg.capacity ==> channel == old(channel) + [doc] && dropped == old(dropped)
      ensures |old(channel)| >= cfg.capacity ==> channel == old(channel) && dropped == old(dropped) + 1
      ensures buf == old(buf) && bodies == old(bodies)
    {
      if |channel| < cfg.capacity {
        channel := channel + [doc];
      } else {
        dropped := dropped + 1;
      }
      model := Do(cfg, model, Action.Record(doc));
    }

    /** `flush`: one bulk body that frames exactly the buffered documents, in order, unless there is none. */
    method Flush()
      requires Dated(buf)
      modifies this`buf, this`bodies
      ensures buf == [] && Flushed(old(bodies), bodies, old(buf), indexPrefix)
      ensures old(buf) == [] ==> bodies == old(bodies)
      ensures old(buf) != [] ==>
                && |bodies| == |old(bodies)| + 1 && bodies[..|old(bodies)|] == old(bodies)
                && Frames(bodies[|old(bodies)|], old(buf), indexPrefix)
    {
      if buf == [] {
        return;
      }
      var ndjson := ToBulkNdjson(buf, indexPrefix);
      buf := [];
      bodies := bodies + [ndjson];
    }

    /** `report_dropped`: logs and resets the count. */
    method ReportDropped() returns (n: nat)
      modifies this`dropped
      ensures n == old(dropped) && dropped == 0
    {
      n := dropped;
      dropped := 0;
    }

    /** A document arrived: buffer it, and flush a full buffer. */
    method OnEvent()
      requires Valid() && Enabled(model, Receive)
      modifies this
      ensures Valid() && model == Do(cfg, old(model), Receive)
      ensures channel == old(channel)[1..] && dropped == old(dropped)
      ensures if |old(buf)| + 1 >= cfg.batchSize
              then && buf == [] && |bodies| == |old(bodies)| + 1
                   && Frames(bodies[|old(bodies)|], old(buf) + [old(channel)[0]], indexPrefix)
              else buf == old(buf) + [old(channel)[0]] && bodies == old(bodies)
    {
      buf := buf + [channel[0]];
      channel := channel[1..];
      ghost var full := model.(channel := channel, buf := buf);
      model := Do(cfg, model, Receive);
      if |buf| >= cfg.batchSize {
        Flush();
        FlushFrames(old(bodies), bodies, full, indexPrefix);
      }
    }

    /** The channel is closed and empty: last flush. */
    method OnClosed()
      requires Valid() && Enabled(model, Closed)
      modifies this
      ensures Valid() && model == Do(cfg, old(model), Closed)
      ensures buf == [] && Flushed(old(bodies), bodies, old(buf), indexPrefix)
    {
      Flush();
      FlushFrames(old(bodies), bodies, model, indexPrefix);
      model := Do(cfg, model, Closed);
    }

    /** The ticker fired: flush, then report the drops. */
    method OnTick()
      requires Valid() && Enabled(model, Tick)
      modifies this
      ensures Valid() && model == Do(cfg, Do(cfg, old(model), Tick), Action.ReportDropped)
      ensures buf == [] && Flushed(old(bodies), bodies, old(buf), indexPrefix)
      ensures channel == old(channel) && dropped == 0
    {
      Flush();
      FlushFrames(old(bodies), bodies, model, indexPrefix);
      var n := ReportDropped();
      model := Do(cfg, Do(cfg, model, Tick), Action.ReportDropped);
    }

    /**
     `run`: the turns of the schedule, each in full and in order, until the turn that finds the channel closed
     and empty. Then every accepted document was sent, in order.
     */
    method Run(schedule: seq<Turn>) returns (stopped: bool)
      requires Valid() && model.consumer.Selecting? && Conserved(cfg, model)
      requires forall i | 0 <= i < |schedule| && schedule[i].Produce? :: schedule[i].doc.date.Valid()
      modifies this
      ensures Valid() && Conserved(cfg, model)
      ensures model == Played(cfg, old(model), schedule)
      ensures stopped <==> model.consumer.Stopped?
      ensures stopped ==> Concat(model.sent) == model.accepted
      ensures exists acts: seq<Action<LogDoc>> ::
                Pipeline.Run(cfg, old(model), acts) && After(cfg, old(model), acts) == model
    {
      stopped := false;
      ghost var acts: seq<Action<LogDoc>> := [];
      var i := 0;
      while i < |schedule| && !stopped
        invariant i <= |schedule| && Valid()
        invariant if stopped then model.consumer.Stopped? else model.consumer.Selecting?
        invariant Played(cfg, old(model), schedule) == Played(cfg, model, schedule[i..])
        invariant Pipeline.Run(cfg, old(model), acts) && After(cfg, old(model), acts) == model
      {
        ghost var more: seq<Action<LogDoc>>;
        assert schedule[i..][0] == schedule[i] && schedule[i..][1..] == schedule[i + 1..];
        stopped, more := TakeTurn(schedule[i]);
        RunConcat(cfg, old(model), acts, more);
        acts := acts + more;
        i := i + 1;
      }
      AlwaysConserved(cfg, old(model), acts);
      assert Concat(model.sent) + [] + [] == Concat(model.sent);
    }

    /** One producer's call, the departure of the producers, or one branch of `select!`. */
    method TakeTurn(turn: Turn) returns (stopped: bool, ghost acts: seq<Action<LogDoc>>)
      requires Valid() && model.consumer.Selecting?
      requires turn.Produce? ==> turn.doc.date.Valid()
      modifies this
      ensures Valid()
      ensures if stopped then model.consumer.Stopped? else model.consumer.Selecting?
      ensures acts == TurnActions(turn, old(model))
      ensures Pipeline.Run(cfg, old(model), acts) && After(cfg, old(model), acts) == model
    {
      stopped, acts := false, TurnActions(turn, model);
      TurnRuns(cfg, model, turn);
      match turn {
        case Produce(doc) =>
          if !sendersGone {
            OneAction(cfg, model, acts[0]);
            Record(doc);
          }
        case DropHandles =>
          if !sendersGone {
            OneAction(cfg, model, acts[0]);
            sendersGone := true;
            model := Do(cfg, model, DropSenders);
          }
        case Ready =>
          if channel != [] {
            OneAction(cfg, model, acts[0]);
            OnEvent();
          } else if sendersGone {
            OneAction(cfg, model, acts[0]);
            OnClosed();
            stopped := true;
          }
        case TickerFires =>
          assert acts[1..] == [Action.ReportDropped];
          OneAction(cfg, Do(cfg, model, Tick), Action.ReportDropped);
          OnTick();
      }
    }
  }
}
