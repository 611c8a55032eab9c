/** The dispatcher loop against the real sink, with its counters. */
module Dispatcher {
  import opened Wrappers
  import opened Event
  import opened Pipeline
  import Filter
  import Sink
  import Spool
  import Wire

  /** What one call of `emit` meets: its send attempts, the hour, the spool write. */
  datatype Answers = Answers(attempts: nat -> Sink.Attempt, stamp: nat, spoolOk: bool)

  datatype Counters = Counters(received: nat, emitted: nat, filtered: nat, errors: nat)

  ghost predicate SendsWireFormat(c: Config) {
    forall e: NormalizedEvent :: c.wire(e) == Wire.WireFormat(e)
  }

  function Ended(fate: Sink.Fate): Fate {
    match fate
    case Delivered => Delivered
    case Spooled => Spooled
    case Lost => Lost
  }

  ghost function FateOf(c: Config, e: NormalizedEvent, hasSpool: bool, a: Answers): Fate {
    if c.evaluate(e).None? then Filtered else Ended(Sink.EmitFate(a.attempts, hasSpool && a.spoolOk))
  }

  /** The fates of the first `k` events of a batch. */
  ghost function Fates(c: Config, events: seq<NormalizedEvent>, k: nat, hasSpool: bool, answers: nat -> Answers): seq<Done>
    requires k <= |events|
  {
    if k == 0 then [] else
      var e := events[k - 1];
      Fates(c, events, k - 1, hasSpool, answers) + [Done(e, FateOf(c, e, hasSpool, answers(k - 1)))]
  }

  function One(n: Counters, fate: Fate): Counters {
    var m := n.(received := n.received + 1);
    match fate
    case Filtered => m.(filtered := n.filtered + 1)
    case Lost => m.(errors := n.errors + 1)
    case _ => m.(emitted := n.emitted + 1)
  }

  /** What an event with its fate adds to the history of the sink. */
  ghost predicate Adds(c: Config, s: Spool.State, t: Spool.State, d: Done) {
    && t.direct == s.direct + (if d.fate.Delivered? then [Payload(c, d.event)] else [])
    && t.spooled == s.spooled + (if d.fate.Spooled? then [Payload(c, d.event)] else [])
  }

  /** Counters and sink history agree about what has been dealt with since `s`. */
  ghost predicate Booked(c: Config, s: Spool.State, t: Spool.State, done: seq<Done>, n: Counters) {
    && t.direct == s.direct + Payloads(c, done, Delivered)
    && t.spooled == s.spooled + Payloads(c, done, Spooled)
    && n == Counters(|done|, Count(done, Delivered) + Count(done, Spooled), Count(done, Filtered), Count(done, Lost))
  }

  lemma BooksGrow(c: Config, s: Spool.State, t: Spool.State, u: Spool.State, done: seq<Done>, n: Counters, d: Done)
    requires Booked(c, s, t, done, n) && Adds(c, t, u, d)
    ensures Booked(c, s, u, done + [d], One(n, d.fate))
  {
    assert (done + [d])[..|done|] == done;
    Regroup(s.direct, Payloads(c, done, Delivered), if d.fate.Delivered? then [Payload(c, d.event)] else []);
    Regroup(s.spooled, Payloads(c, done, Spooled), if d.fate.Spooled? then [Payload(c, d.event)] else []);
  }

  /** Filter one received event and emit what passes. */
  method DispatchOne(c: Config, event: NormalizedEvent, sink: Sink.UnixSocketSink, a: Answers, n: Counters)
      returns (fate: Fate, m: Counters)
    requires sink.Valid() && SendsWireFormat(c)
    modifies sink
    ensures sink.Valid() && m == One(n, fate)
    ensures fate == FateOf(c, event, sink.hasSpool, a)
    ensures Adds(c, old(sink.now), sink.now, Done(event, fate))
  {
    m := n.(received := n.received + 1);
    var passed := c.evaluate(event);
    if passed.None? {
      m := m.(filtered := m.filtered + 1);
      fate := Filtered;
    } else {
      var emitted, _, _ := sink.Emit(passed.value, a.attempts, a.stamp, a.spoolOk);
      fate := Ended(emitted);
      if emitted.Lost? {
        m := m.(errors := m.errors + 1);
      } else {
        m := m.(emitted := m.emitted + 1);
      }
    }
  }

  /** The loop deals with every event of the channel in order, and the sink's history
      and the counters agree about what became of them. */
  method Dispatch(c: Config, events: seq<NormalizedEvent>, sink: Sink.UnixSocketSink, answers: nat -> Answers)
      returns (n: Counters, ghost done: seq<Done>)
    requires sink.Valid() && SendsWireFormat(c)
    modifies sink
    ensures sink.Valid() && n.received == |events|
    ensures done == Fates(c, events, |events|, sink.hasSpool, answers)
    ensures Booked(c, old(sink.now), sink.now, done, n)
  {
    n := Counters(0, 0, 0, 0);
    done := [];
    for i := 0 to |events|
      invariant sink.Valid() && |done| == i
      invariant done == Fates(c, events, i, sink.hasSpool, answers)
      invariant Booked(c, old(sink.now), sink.now, done, n)
    {
      ghost var before, m := sink.now, n;
      var fate;
      fate, n := DispatchOne(c, events[i], sink, answers(i), n);
      BooksGrow(c, old(sink.now), before, sink.now, done, m, Done(events[i], fate));
      done := done + [Done(events[i], fate)];
    }
  }

  /** The configured connector: the filter is the rule engine, the payload the wire format. */
  method DispatchConnector(rx: Filter.Regexes, engine: Filter.Engine, events: seq<NormalizedEvent>,
                           sink: Sink.UnixSocketSink, answers: nat -> Answers)
      returns (n: Counters, ghost done: seq<Done>)
    requires sink.Valid()
    modifies sink
    ensures sink.Valid() && n.received == |events|
    ensures done == Fates(Connector(rx, engine), events, |events|, sink.hasSpool, answers)
    ensures Booked(Connector(rx, engine), old(sink.now), sink.now, done, n)
  {
    n, done := Dispatch(Connector(rx, engine), events, sink, answers);
  }
}
