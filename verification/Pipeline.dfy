/** The whole connector as one step system: supervised sources, the bounded channel,
    the dispatcher with filter and sink, the replay task, and the shutdown signal. */
module Pipeline {
  import opened Wrappers
  import opened Event
  import Framing
  import Disk
  import Filter
  import Spool
  import Wire

  const CHANNEL_CAPACITY: nat := 10_000

  /** Where a supervised source stands in its restart loop. A running source will send
      `budget` more events before it returns. */
  datatype Source = Waiting | Running(budget: nat) | Returned | Pausing | Stopped

  datatype Fate = Filtered | Delivered | Spooled | Lost

  datatype Done = Done(event: NormalizedEvent, fate: Fate)

  datatype Call = Emit(event: NormalizedEvent) | Flush

  /** The filter's verdict on an event, and the datagram that is sent for one. */
  datatype Config = Config(
    evaluate: NormalizedEvent -> Option<NormalizedEvent>,
    wire: NormalizedEvent -> string)

  /** The configuration of the connector itself. */
  function Connector(rx: Filter.Regexes, engine: Filter.Engine): Config {
    Config(e => Filter.Evaluate(rx, engine, e), e => Wire.WireFormat(e))
  }

  /** `version` and `signalled` are the watch channel, `seen` the version each task's
      receiver knows, `lateStarts` how often a source was started after the signal.
      `accepted` is what the channel took, `done` what the dispatcher has dealt with,
      `calls` its calls of the sink, `base` what was in the spool at the beginning. */
  datatype State = State(
    sources: seq<Source>,
    seen: seq<nat>,
    lateStarts: seq<nat>,
    version: nat,
    signalled: bool,
    accepted: seq<NormalizedEvent>,
    queue: seq<NormalizedEvent>,
    hand: Option<NormalizedEvent>,
    done: seq<Done>,
    calls: seq<Call>,
    ended: bool,
    spool: Spool.State,
    base: seq<string>)

  datatype Step =
    | Run(i: nat, budget: nat)
    | Send(i: nat, event: NormalizedEvent)
    | Return(i: nat)
    | Check(i: nat)
    | Wake(i: nat)
    | Interrupt(i: nat)
    | Signal
    | Receive
    | Settle(fate: Fate, stamp: nat)
    | End
    | Replay(step: Spool.Step)

  function Payload(c: Config, e: NormalizedEvent): string {
    match c.evaluate(e)
    case Some(x) => c.wire(x)
    case None => ""
  }

  predicate At(s: State, i: nat, source: Source) {
    i < |s.sources| && s.sources[i] == source
  }

  predicate AllStopped(sources: seq<Source>) {
    forall i :: 0 <= i < |sources| ==> sources[i].Stopped?
  }

  ghost predicate Enabled(c: Config, s: State, step: Step) {
    match step
    case Run(i, _) => At(s, i, Waiting)
    case Send(i, _) =>
      i < |s.sources| && s.sources[i].Running? && s.sources[i].budget > 0 && |s.queue| < CHANNEL_CAPACITY
    case Return(i) => At(s, i, Running(0))
    case Check(i) => At(s, i, Returned)
    case Wake(i) => At(s, i, Pausing)
    case Interrupt(i) => At(s, i, Pausing) && i < |s.seen| && s.seen[i] != s.version
    case Signal => !s.signalled
    case Receive => s.hand.None? && s.queue != [] && !s.ended
    case Settle(fate, stamp) =>
      && s.hand.Some?
      && (fate.Filtered? <==> c.evaluate(s.hand.value).None?)
      && (fate.Spooled? ==> Spool.Enabled(s.spool, Spool.Append(Payload(c, s.hand.value), stamp)))
    case End => s.hand.None? && s.queue == [] && AllStopped(s.sources) && !s.ended
    case Replay(step) => !step.Append? && !step.Deliver? && Spool.Enabled(s.spool, step)
  }

  function Put(s: State, i: nat, source: Source): State
    requires i < |s.sources|
  {
    s.(sources := s.sources[i := source])
  }

  ghost function Next(c: Config, s: State, step: Step): State
    requires Enabled(c, s, step)
  {
    match step
    case Run(i, budget) =>
      var late := if s.signalled && i < |s.lateStarts| then s.lateStarts[i := s.lateStarts[i] + 1] else s.lateStarts;
      Put(s, i, Running(budget)).(lateStarts := late)
    case Send(i, e) =>
      Put(s, i, Running(s.sources[i].budget - 1)).(accepted := s.accepted + [e], queue := s.queue + [e])
    case Return(i) => Put(s, i, Returned)
    case Check(i) => Put(s, i, if s.signalled then Stopped else Pausing)
    case Wake(i) => Put(s, i, Waiting)
    case Interrupt(i) => Put(s, i, Stopped)
    case Signal => s.(signalled := true, version := s.version + 1)
    case Receive => s.(hand := Some(s.queue[0]), queue := s.queue[1..])
    case Settle(fate, stamp) =>
      var e := s.hand.value;
      s.(hand := None,
         done := s.done + [Done(e, fate)],
         calls := if fate.Filtered? then s.calls else s.calls + [Emit(c.evaluate(e).value)],
         spool := match fate
                  case Delivered => Spool.Next(s.spool, Spool.Deliver(Payload(c, e)))
                  case Spooled => Spool.Next(s.spool, Spool.Append(Payload(c, e), stamp))
                  case _ => s.spool)
    case End => s.(ended := true, calls := s.calls + [Flush])
    case Replay(step) => s.(spool := Spool.Next(s.spool, step))
  }

  // ---- Where every event is ------------------------------------------------

  function Events(done: seq<Done>): seq<NormalizedEvent> {
    if done == [] then [] else Events(done[..|done| - 1]) + [done[|done| - 1].event]
  }

  function InHand(hand: Option<NormalizedEvent>): seq<NormalizedEvent> {
    if hand.Some? then [hand.value] else []
  }

  /** The emit calls for a sequence of received events: the filter-map of `evaluate`. */
  function EmitCalls(c: Config, events: seq<NormalizedEvent>): seq<Call> {
    if events == [] then [] else
      var last := c.evaluate(events[|events| - 1]);
      EmitCalls(c, events[..|events| - 1]) + (if last.Some? then [Emit(last.value)] else [])
  }

  /** The payloads of the events that met a given fate, in order. */
  function Payloads(c: Config, done: seq<Done>, fate: Fate): seq<string> {
    if done == [] then [] else
      var last := done[|done| - 1];
      Payloads(c, done[..|done| - 1], fate) + (if last.fate == fate then [Payload(c, last.event)] else [])
  }

  function Count(done: seq<Done>, fate: Fate): nat {
    if done == [] then 0 else
      Count(done[..|done| - 1], fate) + (if done[|done| - 1].fate == fate then 1 else 0)
  }

  ghost predicate Accounted(c: Config, s: State) {
    && s.accepted == Events(s.done) + InHand(s.hand) + s.queue && |s.queue| <= 10_000
    && s.calls == EmitCalls(c, Events(s.done)) + (if s.ended then [Flush] else [])
    && s.spool.direct == Payloads(c, s.done, Delivered)
    && s.spool.spooled == s.base + Payloads(c, s.done, Spooled)
    && (s.ended ==> s.queue == [] && s.hand.None? && AllStopped(s.sources))
  }

  lemma DoneOneMore(c: Config, done: seq<Done>, d: Done)
    ensures Events(done + [d]) == Events(done) + [d.event]
    ensures forall fate: Fate ::
              Payloads(c, done + [d], fate) == Payloads(c, done, fate) + (if d.fate == fate then [Payload(c, d.event)] else [])
    ensures EmitCalls(c, Events(done + [d]))
         == EmitCalls(c, Events(done)) + (if c.evaluate(d.event).Some? then [Emit(c.evaluate(d.event).value)] else [])
  {
    var more := done + [d];
    assert more[..|done|] == done;
    var events := Events(done) + [d.event];
    assert events[..|Events(done)|] == Events(done);
  }

  lemma SpoolHistory(s: Spool.State, step: Spool.Step)
    requires Spool.Enabled(s, step)
    ensures Spool.Next(s, step).direct == if step.Deliver? then s.direct + [step.payload] else s.direct
    ensures Spool.Next(s, step).spooled == if step.Append? then s.spooled + [step.payload] else s.spooled
  {
  }

  lemma SettleAccounted(c: Config, s: State, step: Step)
    requires Accounted(c, s) && Enabled(c, s, step) && step.Settle?
    ensures Accounted(c, Next(c, s, step))
  {
    var e, p := s.hand.value, Payload(c, s.hand.value);
    DoneOneMore(c, s.done, Done(e, step.fate));
    NilRight(Events(s.done) + [e]);
    NilRight(EmitCalls(c, Events(s.done)));
    NilRight(Payloads(c, s.done, Delivered));
    NilRight(Payloads(c, s.done, Spooled));
    Regroup(s.base, Payloads(c, s.done, Spooled), [p]);
    if step.fate.Delivered? {
      SpoolHistory(s.spool, Spool.Deliver(p));
    } else if step.fate.Spooled? {
      SpoolHistory(s.spool, Spool.Append(p, step.stamp));
    }
  }

  lemma ReceiveAccounted(c: Config, s: State, step: Step)
    requires Accounted(c, s) && Enabled(c, s, step) && step.Receive?
    ensures Accounted(c, Next(c, s, step))
  {
    NilRight(Events(s.done));
    Regroup(Events(s.done), [s.queue[0]], s.queue[1..]);
    assert s.queue == [s.queue[0]] + s.queue[1..];
  }

  lemma StepAccounted(c: Config, s: State, step: Step)
    requires Accounted(c, s) && Enabled(c, s, step)
    ensures Accounted(c, Next(c, s, step))
  {
    match step {
      case Settle(_, _) => SettleAccounted(c, s, step);
      case Send(_, e) => Regroup(Events(s.done) + InHand(s.hand), s.queue, [e]);
      case Receive => ReceiveAccounted(c, s, step);
      case Replay(r) => SpoolHistory(s.spool, r);
      case End => NilRight(EmitCalls(c, Events(s.done)));
      case _ =>
    }
  }

  // ---- Shutdown ------------------------------------------------------------

  /** No receiver has consumed a notification before its task stops, so the one change
      of the watch channel is still ahead of every task that pauses. */
  predicate Watched(s: State) {
    && |s.seen| == |s.sources| == |s.lateStarts|
    && s.version == (if s.signalled then 1 else 0)
    && forall i :: 0 <= i < |s.sources| ==>
         && s.seen[i] == 0
         && s.lateStarts[i] <= 1
         && (s.lateStarts[i] == 1 ==> s.signalled && !s.sources[i].Waiting? && !s.sources[i].Pausing?)
         && (s.sources[i].Stopped? ==> s.signalled)
  }

  lemma StepWatched(c: Config, s: State, step: Step)
    requires Watched(s) && Enabled(c, s, step)
    ensures Watched(Next(c, s, step))
  {
  }

  function Rank(source: Source): nat {
    match source
    case Pausing => 4
    case Waiting => 3
    case Running(_) => 2
    case Returned => 1
    case Stopped => 0
  }

  function Budget(source: Source): nat {
    if source.Running? then source.budget else 0
  }

  function Sum(sources: seq<Source>, weight: Source -> nat): nat {
    if sources == [] then 0 else weight(sources[0]) + Sum(sources[1..], weight)
  }

  lemma {:induction false} SumPut(sources: seq<Source>, i: nat, source: Source, weight: Source -> nat)
    requires i < |sources|
    ensures Sum(sources[i := source], weight) + weight(sources[i]) == Sum(sources, weight) + weight(source)
  {
    if i > 0 {
      assert sources[i := source][1..] == sources[1..][i - 1 := source];
      SumPut(sources[1..], i - 1, source, weight);
    }
  }

  /** What is left to do, most significant first: progress of the sources, events they
      still send, events in the channel and in the dispatcher's hand. */
  function Left(s: State): (nat, nat, nat) {
    (Sum(s.sources, Rank), Sum(s.sources, Budget),
     2 * |s.queue| + (if s.hand.Some? then 1 else 0) + (if s.ended then 0 else 1))
  }

  predicate Less(a: (nat, nat, nat), b: (nat, nat, nat)) {
    || a.0 < b.0
    || (a.0 == b.0 && a.1 < b.1)
    || (a.0 == b.0 && a.1 == b.1 && a.2 < b.2)
  }

  /** After the signal every step of a source or of the dispatcher brings the end nearer;
      the replay task changes nothing about it. */
  lemma ShutdownDescends(c: Config, s: State, step: Step)
    requires Watched(s) && s.signalled && Enabled(c, s, step)
    ensures if step.Replay? then Left(Next(c, s, step)) == Left(s) else Less(Left(Next(c, s, step)), Left(s))
  {
    hide Spool.Next, Spool.Enabled, Payload;
    match step {
      case Run(i, budget) => SumPut(s.sources, i, Running(budget), Rank);
      case Send(i, _) =>
        SumPut(s.sources, i, Running(s.sources[i].budget - 1), Rank);
        SumPut(s.sources, i, Running(s.sources[i].budget - 1), Budget);
      case Return(i) => SumPut(s.sources, i, Returned, Rank);
      case Check(i) => SumPut(s.sources, i, Stopped, Rank);
      case Wake(i) => SumPut(s.sources, i, Waiting, Rank);
      case Interrupt(i) => SumPut(s.sources, i, Stopped, Rank);
      case _ =>
    }
  }

  /** And until the dispatcher has ended there is always such a step to take, without
      waiting for a pause to run out: the signal interrupts every pause there is or will
      be, so no wake-up is lost. `next` is whatever a source that still has to send would
      send. */
  lemma ShutdownNeverStuck(c: Config, s: State, next: NormalizedEvent) returns (step: Step)
    requires Watched(s) && s.signalled && !s.ended
    ensures Enabled(c, s, step) && !step.Replay? && !step.Wake?
    ensures forall i :: At(s, i, Pausing) ==> Enabled(c, s, Interrupt(i))
  {
    if s.hand.Some? {
      return Settle(if c.evaluate(s.hand.value).None? then Filtered else Lost, 0);
    }
    if s.queue != [] {
      return Receive;
    }
    if AllStopped(s.sources) {
      return End;
    }
    var i :| 0 <= i < |s.sources| && !s.sources[i].Stopped?;
    match s.sources[i] {
      case Waiting => step := Run(i, 0);
      case Running(budget) =>
        step := if budget == 0 then Return(i) else Send(i, next);
      case Returned => step := Check(i);
      case Pausing => step := Interrupt(i);
    }
  }

  // ---- An emit that waits for the spool lock -------------------------------

  /** What replay still does before it lets go of the lock. */
  function LockWork(phase: Spool.Phase): nat {
    match phase
    case Draining(_, lines, done, _) => if done <= |lines| then 2 * (|lines| - done) + 2 else 2
    case Restoring(_, lines, done) => if done <= |lines| then 2 * (|lines| - done) + 1 else 1
    case _ => 0
  }

  /** Every step of replay while it holds the lock brings its release nearer. */
  lemma LockIsReleased(s: Spool.State, step: Spool.Step)
    requires Spool.Enabled(s, step) && s.phase.Locked() && !step.Append? && !step.Deliver?
    ensures LockWork(Spool.Next(s, step).phase) < LockWork(s.phase)
    ensures LockWork(Spool.Next(s, step).phase) == 0 <==> !Spool.Next(s, step).phase.Locked()
  {
  }

  /** An emit that has to spool its event can do so, or waits for a lock that replay is
      about to let go of. */
  lemma EmitNeverStuck(c: Config, s: State, stamp: nat) returns (step: Step)
    requires Spool.PhaseInv(s.spool) && s.hand.Some? && c.evaluate(s.hand.value).Some?
    requires Framing.Frameable(Payload(c, s.hand.value))
    ensures Enabled(c, s, step)
    ensures step == Settle(Spooled, stamp)
            || (step.Replay? && LockWork(Next(c, s, step).spool.phase) < LockWork(s.spool.phase))
  {
    if !s.spool.phase.Locked() {
      return Settle(Spooled, stamp);
    }
    var phase := s.spool.phase;
    var r := if phase.Restoring? then Spool.WriteBack(true)
             else if phase.done < |phase.lines| then Spool.SendOk
             else Spool.Remove(true);
    LockIsReleased(s.spool, r);
    step := Replay(r);
  }

  // ---- Main results over every run -----------------------------------------

  ghost predicate Initial(s: State) {
    && (forall i :: 0 <= i < |s.sources| ==> s.sources[i].Waiting?)
    && |s.seen| == |s.sources| == |s.lateStarts|
    && (forall i :: 0 <= i < |s.sources| ==> s.seen[i] == 0 && s.lateStarts[i] == 0)
    && s.version == 0 && !s.signalled
    && s.accepted == s.queue == [] && s.hand.None? && s.done == [] && s.calls == [] && !s.ended
    && Spool.Fresh(s.spool) && s.base == s.spool.spooled
  }

  type Run = History<State, Step>

  ghost predicate Legal(c: Config, run: Run)
    decreases run, 0
  {
    match run
    case Begun(s) => Initial(s)
    case Then(before, last) => Legal(c, before) && Enabled(c, Exec(c, before), last)
  }

  ghost function Exec(c: Config, run: Run): State
    requires Legal(c, run)
    decreases run, 1
  {
    match run
    case Begun(s) => s
    case Then(before, last) => Next(c, Exec(c, before), last)
  }

  /** The part of the step that concerns the spool, if any. */
  function SpoolStep(c: Config, s: State, step: Step): Option<Spool.Step> {
    match step
    case Replay(r) => Some(r)
    case Settle(Delivered, _) => if s.hand.Some? then Some(Spool.Deliver(Payload(c, s.hand.value))) else None
    case Settle(Spooled, stamp) => if s.hand.Some? then Some(Spool.Append(Payload(c, s.hand.value), stamp)) else None
    case _ => None
  }

  lemma SpoolFollows(c: Config, s: State, step: Step)
    requires Enabled(c, s, step)
    ensures match SpoolStep(c, s, step)
            case Some(r) => Spool.Enabled(s.spool, r) && Next(c, s, step).spool == Spool.Next(s.spool, r)
            case None => Next(c, s, step).spool == s.spool
    ensures Next(c, s, step).base == s.base
  {
  }

  /** The part of the run that concerns the spool is whole. */
  ghost predicate AllWhole(c: Config, run: Run)
    requires Legal(c, run)
  {
    run.Then? ==>
      && AllWhole(c, run.before)
      && var s := Exec(c, run.before);
         var r := SpoolStep(c, s, run.last);
         r.Some? ==> Spool.WholeStep(s.spool, r.value)
  }

  lemma SpoolKept(c: Config, s: State, step: Step)
    requires Enabled(c, s, step) && Spool.PhaseInv(s.spool) && Spool.Accounts(s.spool)
    ensures Spool.PhaseInv(Next(c, s, step).spool) && Spool.Accounts(Next(c, s, step).spool)
    ensures var r := SpoolStep(c, s, step);
            Spool.Stored(s.spool) && (r.Some? ==> Spool.WholeStep(s.spool, r.value)) ==> Spool.Stored(Next(c, s, step).spool)
  {
    SpoolFollows(c, s, step);
    hide Spool.PhaseInv, Spool.Accounts, Spool.Stored, Spool.WholeStep, Spool.Enabled, Enabled;
    var r := SpoolStep(c, s, step);
    if r.Some? {
      Spool.StepPhase(s.spool, r.value);
      Spool.StepAccounts(s.spool, r.value);
      if Spool.Stored(s.spool) && Spool.WholeStep(s.spool, r.value) {
        Spool.StepStored(s.spool, r.value);
      }
    }
  }

  lemma InitialHolds(c: Config, s: State)
    requires Initial(s)
    ensures Accounted(c, s) && Watched(s)
    ensures Spool.PhaseInv(s.spool) && Spool.Conserved(s.spool)
  {
    Spool.FreshHolds(s.spool);
    NilRight(s.base);
  }

  lemma {:induction false} RunHolds(c: Config, run: Run)
    requires Legal(c, run)
    ensures Accounted(c, Exec(c, run)) && Watched(Exec(c, run))
    ensures Spool.PhaseInv(Exec(c, run).spool) && Spool.Accounts(Exec(c, run).spool)
    ensures AllWhole(c, run) ==> Spool.Stored(Exec(c, run).spool)
  {
    match run
    case Begun(s) =>
      InitialHolds(c, s);
      Spool.ConservedParts(s.spool);
    case Then(before, last) =>
      RunHolds(c, before);
      hide Spool.PhaseInv, Spool.Accounts, Spool.Stored, Accounted, Watched, Enabled, Spool.WholeStep;
      StepAccounted(c, Exec(c, before), last);
      StepWatched(c, Exec(c, before), last);
      SpoolKept(c, Exec(c, before), last);
  }

  lemma {:induction false} CountsAddUp(c: Config, done: seq<Done>)
    ensures |Events(done)| == |done| == Count(done, Filtered) + Count(done, Delivered) + Count(done, Spooled) + Count(done, Lost)
    ensures forall fate: Fate :: |Payloads(c, done, fate)| == Count(done, fate)
    decreases |done|
  {
    if done != [] {
      CountsAddUp(c, done[..|done| - 1]);
    }
  }

  /** In every reachable state each event that the channel accepted is in one place:
      queued, in the dispatcher's hand, filtered, delivered, spooled or lost with an
      error; and the sink has been called for exactly the events that pass the filter, in
      order. What was spooled is on disk or was taken off it after being sent, if the run
      is whole. */
  lemma EndToEnd(c: Config, run: Run)
    requires Legal(c, run)
    ensures var s := Exec(c, run);
            && s.accepted == Events(s.done) + InHand(s.hand) + s.queue && |s.queue| <= 10_000
            && |s.accepted| == |s.queue| + |InHand(s.hand)| + Count(s.done, Filtered) + Count(s.done, Delivered)
                               + Count(s.done, Spooled) + Count(s.done, Lost)
            && s.calls == EmitCalls(c, Events(s.done)) + (if s.ended then [Flush] else [])
            && s.spool.direct == Payloads(c, s.done, Delivered)
            && multiset(s.spool.committed) <= multiset(s.spool.sent)
            && (AllWhole(c, run) ==>
                  multiset(s.base) + multiset(Payloads(c, s.done, Spooled))
                  == multiset(s.spool.committed) + multiset(Disk.Contents(s.spool.files)))
  {
    RunHolds(c, run);
    CountsAddUp(c, Exec(c, run).done);
  }

  /** The dispatcher ends only when every source has stopped and the channel is drained;
      after the signal no source is started more than once. */
  lemma GracefulEnd(c: Config, run: Run)
    requires Legal(c, run)
    ensures var s := Exec(c, run);
            && (s.ended ==> AllStopped(s.sources) && (s.signalled || s.sources == []))
            && (s.ended ==> s.accepted == Events(s.done))
            && forall i :: 0 <= i < |s.lateStarts| ==> s.lateStarts[i] <= 1
  {
    RunHolds(c, run);
    var s := Exec(c, run);
    NilRight(Events(s.done));
    if s.ended && s.sources != [] {
      assert s.sources[0].Stopped?;
    }
  }

  /** The sink is flushed exactly once, after the last event has been emitted. */
  lemma FlushComesLast(c: Config, run: Run, i: nat)
    requires Legal(c, run) && i < |Exec(c, run).calls|
    ensures Exec(c, run).calls[i].Flush? <==> Exec(c, run).ended && i == |Exec(c, run).calls| - 1
  {
    RunHolds(c, run);
    CallsAreEmits(c, Events(Exec(c, run).done));
  }

  lemma {:induction false} CallsAreEmits(c: Config, events: seq<NormalizedEvent>)
    ensures forall i :: 0 <= i < |EmitCalls(c, events)| ==> EmitCalls(c, events)[i].Emit?
    decreases |events|
  {
    if events != [] {
      CallsAreEmits(c, events[..|events| - 1]);
    }
  }

  /** A configured connector: the verdicts are those of the rule engine, the payloads
      those of the wire format, and every payload fits the spool's framing. */
  lemma ConnectorPayloads(rx: Filter.Regexes, engine: Filter.Engine, e: NormalizedEvent)
    ensures var c := Connector(rx, engine);
            && (Filter.Evaluate(rx, engine, e).Some? ==>
                  && Payload(c, e) == Wire.WireFormat(Filter.Evaluate(rx, engine, e).value)
                  && Framing.Frameable(Payload(c, e)))
  {
    if Filter.Evaluate(rx, engine, e).Some? {
      Wire.WireFrameable(Filter.Evaluate(rx, engine, e).value);
    }
  }
}
