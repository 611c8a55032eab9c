/** The audit poller in front of the pipeline, over any number of processes: a process
    that ends, in whatever way, takes what is in the channel and in the dispatcher's hand
    with it and leaves the cursor store and the spool directory to the next one. */
module Crashes {
  import opened Wrappers
  import opened Event
  import Audit
  import AuditPolls
  import AuditRuns
  import Disk
  import Json
  import Pipeline
  import Spool
  import StateStore

  datatype Setup = Setup(c: Pipeline.Config, normal: Audit.AuditEvent -> NormalizedEvent)

  /** The supervised source that is the audit poller. */
  const POLLER: nat := 0

  /** `ahead` is what the poller has sent of the page at hand. The rest is history: what
      other sources sent, or the poller of a page cut off by a crash; what the
      dispatchers of earlier processes dealt with, what was lost with them, what was in the
      spool at the very beginning, what earlier processes took off the disk, and what
      analysisd received from them. */
  datatype State = State(
    world: AuditRuns.World,
    pipe: Pipeline.State,
    ahead: seq<NormalizedEvent>,
    others: seq<NormalizedEvent>,
    past: seq<Pipeline.Done>,
    dropped: seq<NormalizedEvent>,
    origin: seq<string>,
    gone: seq<string>,
    reached: seq<string>)

  datatype Step =
    | Poll(step: AuditRuns.Step)
    | Work(move: Pipeline.Step)
    | Crash(pipe: Pipeline.State)

  function Normals(normal: Audit.AuditEvent -> NormalizedEvent, sent: seq<Audit.AuditEvent>): seq<NormalizedEvent> {
    seq(|sent|, i requires 0 <= i < |sent| => normal(sent[i]))
  }

  /** What the poller hands over in a step of its own. */
  function NewlySent(w: AuditRuns.World, step: AuditRuns.Step): seq<Audit.AuditEvent>
    requires AuditRuns.Enabled(w, step)
  {
    var n, sent := |w.view.sent|, AuditRuns.Next(w, step).view.sent;
    if n <= |sent| then sent[n..] else []
  }

  /** A page is over, and its cursor written, once the channel has taken what it brought.
      The channel closes after all sources have stopped, so polls start on an open one. */
  ghost predicate Enabled(p: Setup, s: State, step: Step) {
    match step
    case Poll(step) =>
      && !step.Restart? && AuditRuns.Enabled(s.world, step) && AuditRuns.Prudent(s.world, step)
      && (step.Fetch? ==> Normals(p.normal, NewlySent(s.world, step)) == s.ahead)
    case Work(move) => Pipeline.Enabled(p.c, s.pipe, move)
    case Crash(pipe) => Pipeline.Initial(pipe) && pipe.spool.files == s.pipe.spool.files
  }

  function SentBy(move: Pipeline.Step, poller: bool): seq<NormalizedEvent> {
    if move.Send? && (move.i == POLLER <==> poller) then [move.event] else []
  }

  ghost function Next(p: Setup, s: State, step: Step): State
    requires Enabled(p, s, step)
  {
    match step
    case Poll(step) => s.(world := AuditRuns.Next(s.world, step), ahead := if step.Fetch? then [] else s.ahead)
    case Work(move) =>
      s.(pipe := Pipeline.Next(p.c, s.pipe, move),
         ahead := s.ahead + SentBy(move, true),
         others := s.others + SentBy(move, false))
    case Crash(pipe) =>
      State(AuditRuns.Next(s.world, AuditRuns.Restart), pipe, [], s.others + s.ahead,
            s.past + s.pipe.done, s.dropped + Pipeline.InHand(s.pipe.hand) + s.pipe.queue,
            s.origin, s.gone + s.pipe.spool.committed, s.reached + s.pipe.spool.received)
  }

  ghost predicate Initial(s: State) {
    && AuditRuns.Initial(s.world) && Pipeline.Initial(s.pipe)
    && s.ahead == s.others == s.dropped == [] && s.past == [] && s.gone == s.reached == []
    && s.origin == s.pipe.base
  }

  type Run = History<State, Step>

  ghost predicate Legal(p: Setup, run: Run)
    decreases run, 0
  {
    match run
    case Begun(s) => Initial(s)
    case Then(before, last) => Legal(p, before) && Enabled(p, Exec(p, before), last)
  }

  ghost function Exec(p: Setup, run: Run): State
    requires Legal(p, run)
    decreases run, 1
  {
    match run
    case Begun(s) => s
    case Then(before, last) => Next(p, Exec(p, before), last)
  }

  // ---- The poller's part ---------------------------------------------------

  /** What the poller did in all processes together is a run of its own. */
  lemma {:induction false} PollerRun(p: Setup, run: Run) returns (polls: AuditRuns.Run)
    requires Legal(p, run)
    ensures AuditRuns.Legal(polls) && AuditRuns.AllPrudent(polls) && AuditRuns.Exec(polls) == Exec(p, run).world
  {
    match run
    case Begun(s) => polls := Begun(s.world);
    case Then(before, last) =>
      var some := PollerRun(p, before);
      match last
      case Poll(step) => polls := Then(some, step);
      case Work(_) => polls := some;
      case Crash(_) => polls := Then(some, AuditRuns.Restart);
  }

  lemma SentGrows(w: AuditRuns.World, step: AuditRuns.Step)
    requires AuditRuns.Enabled(w, step)
    ensures AuditRuns.Next(w, step).view.sent == w.view.sent + NewlySent(w, step)
    ensures !step.Fetch? ==> AuditRuns.Next(w, step).view.sent == w.view.sent
  {
    if step.Fetch? {
      AuditPolls.EntriesKeep(w.view, AuditRuns.Entries(w, step), 0, step.takes);
    }
  }

  lemma NormalsAppend(normal: Audit.AuditEvent -> NormalizedEvent, a: seq<Audit.AuditEvent>, b: seq<Audit.AuditEvent>)
    ensures Normals(normal, a + b) == Normals(normal, a) + Normals(normal, b)
  {
  }

  // ---- Where every event is ------------------------------------------------

  /** What the poller and the others sent is, with multiplicity, what was dealt with in earlier
      processes, what was dropped with them, and what the channel of this one took. */
  ghost predicate Placed(p: Setup, s: State) {
    multiset(Normals(p.normal, s.world.view.sent)) + multiset(s.ahead) + multiset(s.others)
    == multiset(Pipeline.Events(s.past)) + multiset(s.dropped) + multiset(s.pipe.accepted)
  }

  lemma {:induction false} EventsAppend(a: seq<Pipeline.Done>, b: seq<Pipeline.Done>)
    ensures Pipeline.Events(a + b) == Pipeline.Events(a) + Pipeline.Events(b)
    decreases |b|
  {
    if b == [] {
      NilRight(a);
      NilRight(Pipeline.Events(a));
    } else {
      var n := |b| - 1;
      assert (a + b)[..|a + b| - 1] == a + b[..n];
      EventsAppend(a, b[..n]);
    }
  }

  lemma {:induction false} PayloadsAppend(c: Pipeline.Config, a: seq<Pipeline.Done>, b: seq<Pipeline.Done>,
                                           fate: Pipeline.Fate)
    ensures Pipeline.Payloads(c, a + b, fate) == Pipeline.Payloads(c, a, fate) + Pipeline.Payloads(c, b, fate)
    decreases |b|
  {
    if b == [] {
      NilRight(a);
      NilRight(Pipeline.Payloads(c, a, fate));
    } else {
      var n := |b| - 1;
      assert (a + b)[..|a + b| - 1] == a + b[..n];
      PayloadsAppend(c, a, b[..n], fate);
    }
  }

  lemma PollPlaced(p: Setup, s: State, step: Step)
    requires Placed(p, s) && Enabled(p, s, step) && step.Poll?
    ensures Placed(p, Next(p, s, step))
  {
    var w, more := s.world, NewlySent(s.world, step.step);
    SentGrows(w, step.step);
    NormalsAppend(p.normal, w.view.sent, more);
  }

  lemma WorkAccepts(c: Pipeline.Config, s: Pipeline.State, move: Pipeline.Step)
    requires Pipeline.Enabled(c, s, move)
    ensures Pipeline.Next(c, s, move).accepted == s.accepted + (SentBy(move, true) + SentBy(move, false))
    ensures Pipeline.Next(c, s, move).base == s.base
  {
    NilRight(s.accepted);
  }

  lemma WorkPlaced(p: Setup, s: State, step: Step)
    requires Placed(p, s) && Enabled(p, s, step) && step.Work?
    ensures Placed(p, Next(p, s, step))
  {
    WorkAccepts(p.c, s.pipe, step.move);
    hide Pipeline.Next, Pipeline.Enabled, Pipeline.Events, Normals, SentBy;
    SentOn(multiset(Normals(p.normal, s.world.view.sent)), multiset(Pipeline.Events(s.past)) + multiset(s.dropped),
           s.ahead, s.others, s.pipe.accepted, SentBy(step.move, true), SentBy(step.move, false));
  }

  lemma SentOn<T>(sent: multiset<T>, rest: multiset<T>, ahead: seq<T>, others: seq<T>, accepted: seq<T>,
                  x: seq<T>, y: seq<T>)
    requires sent + multiset(ahead) + multiset(others) == rest + multiset(accepted)
    ensures sent + multiset(ahead + x) + multiset(others + y) == rest + multiset(accepted + (x + y))
  {
    assert multiset(accepted + (x + y)) == multiset(accepted) + multiset(x) + multiset(y);
    assert sent + (multiset(ahead) + multiset(x)) + (multiset(others) + multiset(y))
        == sent + multiset(ahead) + multiset(others) + multiset(x) + multiset(y);
  }

  lemma CrashPlaced(p: Setup, s: State, step: Step)
    requires Placed(p, s) && Pipeline.Accounted(p.c, s.pipe) && Enabled(p, s, step) && step.Crash?
    ensures Placed(p, Next(p, s, step))
  {
    EventsAppend(s.past, s.pipe.done);
    SentGrows(s.world, AuditRuns.Restart);
    hide Pipeline.Events, Pipeline.EmitCalls, Pipeline.Payloads, Normals;
    CutOff(multiset(Normals(p.normal, s.world.view.sent)), Pipeline.Events(s.past), s.ahead, s.others, s.dropped,
           s.pipe.accepted, Pipeline.Events(s.pipe.done), Pipeline.InHand(s.pipe.hand), s.pipe.queue);
  }

  lemma CutOff<T>(sent: multiset<T>, past: seq<T>, ahead: seq<T>, others: seq<T>, dropped: seq<T>,
                      accepted: seq<T>, done: seq<T>, hand: seq<T>, queue: seq<T>)
    requires sent + multiset(ahead) + multiset(others) == multiset(past) + multiset(dropped) + multiset(accepted)
    requires accepted == done + hand + queue
    ensures sent + multiset([]) + multiset(others + ahead)
         == multiset(past + done) + multiset(dropped + hand + queue) + multiset([])
  {
    assert multiset(accepted) == multiset(done) + multiset(hand) + multiset(queue);
    assert multiset(dropped + hand + queue) == multiset(dropped) + multiset(hand) + multiset(queue);
    assert multiset(past + done) == multiset(past) + multiset(done);
    assert multiset(others + ahead) == multiset(ahead) + multiset(others);
    assert sent + multiset([]) + multiset(others + ahead) == sent + multiset(ahead) + multiset(others);
  }

  // ---- Where every payload is ----------------------------------------------

  /** The spool is whole, and its books balance over all processes. */
  ghost predicate Durable(p: Setup, s: State) {
    && Spool.AllTidy(s.pipe.spool.files)
    && Spool.PhaseInv(s.pipe.spool) && Spool.Stored(s.pipe.spool) && Spool.Accounts(s.pipe.spool)
    && Balanced(p, s)
  }

  ghost predicate Balanced(p: Setup, s: State) {
    && multiset(s.origin) + multiset(Pipeline.Payloads(p.c, s.past, Pipeline.Spooled))
       == multiset(s.gone) + multiset(s.pipe.base)
    && multiset(s.gone) + multiset(Pipeline.Payloads(p.c, s.past, Pipeline.Delivered)) <= multiset(s.reached)
  }

  lemma WorkDurable(p: Setup, s: State, step: Step)
    requires Durable(p, s) && Enabled(p, s, step) && step.Work?
    ensures Durable(p, Next(p, s, step))
  {
    var move := step.move;
    Pipeline.SpoolKept(p.c, s.pipe, move);
    Pipeline.SpoolFollows(p.c, s.pipe, move);
    var r := Pipeline.SpoolStep(p.c, s.pipe, move);
    hide Spool.PhaseInv, Spool.Accounts, Spool.Stored, Spool.AllTidy, Spool.WholeStep, Spool.Enabled, Spool.Next;
    hide Pipeline.Next, Pipeline.Enabled, Pipeline.Payloads, Pipeline.SpoolStep;
    if r.Some? {
      Spool.StepTidy(s.pipe.spool, r.value);
    }
  }

  lemma CrashBalanced(p: Setup, s: State, step: Step)
    requires Durable(p, s) && Pipeline.Accounted(p.c, s.pipe) && Enabled(p, s, step) && step.Crash?
    ensures Balanced(p, Next(p, s, step))
  {
    PayloadsAppend(p.c, s.past, s.pipe.done, Pipeline.Spooled);
    PayloadsAppend(p.c, s.past, s.pipe.done, Pipeline.Delivered);
    hide Pipeline.Payloads, Pipeline.EmitCalls, Pipeline.Events, Disk.Contents, Spool.PhaseInv, Spool.AllTidy;
    var spool := s.pipe.spool;
    CarriedOver(s.origin, Pipeline.Payloads(p.c, s.past, Pipeline.Spooled), s.gone, s.pipe.base,
                Pipeline.Payloads(p.c, s.pipe.done, Pipeline.Spooled), spool.committed, step.pipe.base);
    ReachedMore(s.gone, Pipeline.Payloads(p.c, s.past, Pipeline.Delivered), s.reached, spool.committed,
                Pipeline.Payloads(p.c, s.pipe.done, Pipeline.Delivered), spool.sent, spool.received);
  }

  lemma CarriedOver(origin: seq<string>, past: seq<string>, gone: seq<string>, base: seq<string>,
                    spooled: seq<string>, committed: seq<string>, left: seq<string>)
    requires multiset(origin) + multiset(past) == multiset(gone) + multiset(base)
    requires multiset(committed) + multiset(left) == multiset(base + spooled)
    ensures multiset(origin) + multiset(past + spooled) == multiset(gone + committed) + multiset(left)
  {
    assert multiset(base + spooled) == multiset(base) + multiset(spooled);
    assert multiset(past + spooled) == multiset(past) + multiset(spooled);
    assert multiset(gone + committed) == multiset(gone) + multiset(committed);
    var before, after := multiset(origin) + multiset(past + spooled), multiset(gone + committed) + multiset(left);
    forall x ensures before[x] == after[x] {
      assert (multiset(origin) + multiset(past))[x] == (multiset(gone) + multiset(base))[x];
      assert (multiset(committed) + multiset(left))[x] == multiset(base + spooled)[x];
    }
  }

  lemma ReachedMore(gone: seq<string>, past: seq<string>, reached: seq<string>, committed: seq<string>,
                    direct: seq<string>, sent: seq<string>, received: seq<string>)
    requires multiset(gone) + multiset(past) <= multiset(reached)
    requires multiset(received) == multiset(direct) + multiset(sent) && multiset(committed) <= multiset(sent)
    ensures multiset(gone + committed) + multiset(past + direct) <= multiset(reached + received)
  {
    assert multiset(gone + committed) + multiset(past + direct)
        == (multiset(gone) + multiset(past)) + (multiset(committed) + multiset(direct));
  }

  lemma CrashDurable(p: Setup, s: State, step: Step)
    requires Durable(p, s) && Pipeline.Accounted(p.c, s.pipe) && Enabled(p, s, step) && step.Crash?
    ensures Durable(p, Next(p, s, step))
  {
    CrashBalanced(p, s, step);
    Pipeline.InitialHolds(p.c, step.pipe);
    Spool.ConservedParts(step.pipe.spool);
  }

  // ---- Every run -----------------------------------------------------------

  lemma StepPlaced(p: Setup, s: State, step: Step)
    requires Pipeline.Accounted(p.c, s.pipe) && Placed(p, s) && Enabled(p, s, step)
    ensures Pipeline.Accounted(p.c, Next(p, s, step).pipe) && Placed(p, Next(p, s, step))
  {
    hide Placed, Pipeline.Accounted, Pipeline.Enabled, Pipeline.Initial, Pipeline.Next;
    hide AuditRuns.Enabled, AuditRuns.Next;
    match step {
      case Poll(_) => PollPlaced(p, s, step);
      case Work(move) =>
        WorkPlaced(p, s, step);
        Pipeline.StepAccounted(p.c, s.pipe, move);
      case Crash(pipe) =>
        CrashPlaced(p, s, step);
        Pipeline.InitialHolds(p.c, pipe);
    }
  }

  lemma StepDurable(p: Setup, s: State, step: Step)
    requires Pipeline.Accounted(p.c, s.pipe) && Durable(p, s) && Enabled(p, s, step)
    ensures Durable(p, Next(p, s, step))
  {
    hide Durable, Pipeline.Accounted, Pipeline.Enabled, Pipeline.Initial, Pipeline.Next;
    hide AuditRuns.Enabled, AuditRuns.Next;
    match step {
      case Poll(_) => SamePipe(p, s, Next(p, s, step));
      case Work(_) => WorkDurable(p, s, step);
      case Crash(_) => CrashDurable(p, s, step);
    }
  }

  lemma SamePipe(p: Setup, s: State, t: State)
    requires Durable(p, s) && t.pipe == s.pipe && t.past == s.past
    requires t.origin == s.origin && t.gone == s.gone && t.reached == s.reached
    ensures Durable(p, t)
  {
  }

  ghost function First(run: Run): State {
    match run
    case Begun(s) => s
    case Then(before, _) => First(before)
  }

  /** The first process starts over segments as a sink leaves them. */
  ghost predicate Tidy(run: Run) {
    Spool.AllTidy(First(run).pipe.spool.files)
  }

  lemma InitialPlaced(p: Setup, s: State)
    requires Initial(s)
    ensures Pipeline.Accounted(p.c, s.pipe) && Placed(p, s)
    ensures Spool.AllTidy(s.pipe.spool.files) ==> Durable(p, s)
  {
    Pipeline.InitialHolds(p.c, s.pipe);
    Spool.ConservedParts(s.pipe.spool);
    hide Pipeline.Initial, Spool.AllTidy, Spool.PhaseInv, Spool.Stored, Spool.Accounts;
    assert Normals(p.normal, s.world.view.sent) == [];
  }

  /** Over any number of processes, every event that a source sent has one place. */
  lemma {:induction false} EverythingPlaced(p: Setup, run: Run)
    requires Legal(p, run)
    ensures Pipeline.Accounted(p.c, Exec(p, run).pipe) && Placed(p, Exec(p, run))
  {
    match run
    case Begun(s) => InitialPlaced(p, s);
    case Then(before, last) =>
      EverythingPlaced(p, before);
      hide Placed, Pipeline.Accounted, Enabled;
      StepPlaced(p, Exec(p, before), last);
  }

  /** And what was spooled by any of them is on disk or was taken off it after being sent. */
  lemma {:induction false} EverythingKept(p: Setup, run: Run)
    requires Legal(p, run) && Tidy(run)
    ensures Durable(p, Exec(p, run))
  {
    match run
    case Begun(s) => InitialPlaced(p, s);
    case Then(before, last) =>
      EverythingKept(p, before);
      EverythingPlaced(p, before);
      hide Placed, Durable, Pipeline.Accounted, Enabled;
      StepDurable(p, Exec(p, before), last);
  }

  // ---- Passed by the cursor ------------------------------------------------

  /** Entry `i` of the audit log has an id and lies between the first value of the date cursor
      and its present one. */
  predicate Passed(w: AuditRuns.World, i: nat) {
    && i < |w.log| && w.log[i].id.Some? && w.log[i].date.Some? && w.first.Some?
    && StateStore.GetInt(w.view.store, Audit.OLDEST_KEY).Some?
    && w.first.value <= w.log[i].date.value < StateStore.GetInt(w.view.store, Audit.OLDEST_KEY).value
  }

  predicate Met(done: seq<Pipeline.Done>, e: NormalizedEvent, fate: Pipeline.Fate) {
    exists i :: 0 <= i < |done| && done[i] == Pipeline.Done(e, fate)
  }

  /** On its way, dropped by a crash, or dealt with by some process: filtered, lost with an
      error, received by analysisd, or on disk. */
  ghost predicate Arrived(p: Setup, s: State, e: NormalizedEvent) {
    var payload, spool := Pipeline.Payload(p.c, e), s.pipe.spool;
    || e in s.pipe.queue || s.pipe.hand == Some(e)
    || e in s.dropped
    || Met(s.past + s.pipe.done, e, Pipeline.Filtered) || Met(s.past + s.pipe.done, e, Pipeline.Lost)
    || payload in s.reached || payload in spool.received || payload in Disk.Contents(spool.files)
  }

  lemma {:induction false} EventIsDone(done: seq<Pipeline.Done>, e: NormalizedEvent) returns (fate: Pipeline.Fate)
    requires e in Pipeline.Events(done)
    ensures Met(done, e, fate)
    decreases |done|
  {
    var n := |done| - 1;
    if done[n].event == e {
      fate := done[n].fate;
    } else {
      fate := EventIsDone(done[..n], e);
      var i :| 0 <= i < n && done[..n][i] == Pipeline.Done(e, fate);
      assert done[i] == Pipeline.Done(e, fate);
    }
  }

  lemma {:induction false} MetHasPayload(c: Pipeline.Config, done: seq<Pipeline.Done>, e: NormalizedEvent,
                                          fate: Pipeline.Fate)
    requires Met(done, e, fate)
    ensures Pipeline.Payload(c, e) in Pipeline.Payloads(c, done, fate)
    decreases |done|
  {
    var i :| 0 <= i < |done| && done[i] == Pipeline.Done(e, fate);
    if i < |done| - 1 {
      assert done[..|done| - 1][i] == done[i];
      MetHasPayload(c, done[..|done| - 1], e, fate);
    }
  }

  lemma InBag<T>(x: T, s: seq<T>)
    ensures x in s <==> x in multiset(s)
  {
  }

  lemma InEither<T>(x: T, a: multiset<T>, b: multiset<T>)
    ensures x in a + b <==> x in a || x in b
  {
  }

  /** Where a payload is that was spooled: taken off the disk by some process, or still there. */
  lemma SpooledIsKept(p: Setup, s: State, payload: string)
    requires Balanced(p, s) && Spool.Stored(s.pipe.spool)
    requires s.pipe.spool.spooled == s.pipe.base + Pipeline.Payloads(p.c, s.pipe.done, Pipeline.Spooled)
    requires payload in Pipeline.Payloads(p.c, s.past, Pipeline.Spooled)
          || payload in Pipeline.Payloads(p.c, s.pipe.done, Pipeline.Spooled)
    ensures payload in s.gone || payload in s.pipe.spool.committed || payload in Disk.Contents(s.pipe.spool.files)
  {
    hide Pipeline.Payloads, Disk.Contents;
    var past, spool := Pipeline.Payloads(p.c, s.past, Pipeline.Spooled), s.pipe.spool;
    var left := Disk.Contents(s.pipe.spool.files);
    InBag(payload, s.gone);
    InBag(payload, s.pipe.base);
    InBag(payload, spool.committed);
    InBag(payload, left);
    InBag(payload, spool.spooled);
    InEither(payload, multiset(s.gone), multiset(s.pipe.base));
    InEither(payload, multiset(spool.committed), multiset(left));
    if payload in past {
      InBag(payload, past);
      InEither(payload, multiset(s.origin), multiset(past));
    }
  }

  lemma InLarger<T>(x: T, a: multiset<T>, b: multiset<T>)
    requires a <= b && x in a
    ensures x in b
  {
  }

  /** A payload spooled or delivered by any process is with analysisd or on disk. */
  lemma PayloadIsKept(p: Setup, s: State, payload: string, fate: Pipeline.Fate)
    requires Pipeline.Accounted(p.c, s.pipe) && Durable(p, s) && (fate.Spooled? || fate.Delivered?)
    requires payload in Pipeline.Payloads(p.c, s.past, fate) || payload in Pipeline.Payloads(p.c, s.pipe.done, fate)
    ensures payload in s.reached || payload in s.pipe.spool.received || payload in Disk.Contents(s.pipe.spool.files)
  {
    hide Pipeline.Payloads, Pipeline.Events, Pipeline.EmitCalls, Disk.Contents, Spool.AllTidy, Spool.PhaseInv, Placed;
    var spool, past := s.pipe.spool, Pipeline.Payloads(p.c, s.past, Pipeline.Delivered);
    if fate.Spooled? {
      SpooledIsKept(p, s, payload);
    }
    hide Spool.Stored;
    InBag(payload, s.gone);
    InBag(payload, past);
    InBag(payload, s.reached);
    InEither(payload, multiset(s.gone), multiset(past));
    if payload in s.gone || payload in past {
      InLarger(payload, multiset(s.gone) + multiset(past), multiset(s.reached));
    }
    InBag(payload, spool.committed);
    InBag(payload, spool.sent);
    InBag(payload, spool.direct);
    InBag(payload, spool.received);
    InEither(payload, multiset(spool.direct), multiset(spool.sent));
  }

  /** What was handed over has been dealt with, was dropped, or is on its way. */
  lemma HandedIsSomewhere(p: Setup, s: State, k: nat)
    requires Placed(p, s) && Pipeline.Accounted(p.c, s.pipe) && k < |s.world.view.sent|
    ensures var e := p.normal(s.world.view.sent[k]);
            e in Pipeline.Events(s.past) || e in Pipeline.Events(s.pipe.done) || e in s.dropped
            || e in s.pipe.queue || s.pipe.hand == Some(e)
  {
    hide Pipeline.Events, Pipeline.EmitCalls, Pipeline.Payloads;
    var sent, e := Normals(p.normal, s.world.view.sent), p.normal(s.world.view.sent[k]);
    assert sent[k] == e;
    InBag(e, sent);
    InEither(e, multiset(sent), multiset(s.ahead));
    InEither(e, multiset(sent) + multiset(s.ahead), multiset(s.others));
    InEither(e, multiset(Pipeline.Events(s.past)), multiset(s.dropped));
    InEither(e, multiset(Pipeline.Events(s.past)) + multiset(s.dropped), multiset(s.pipe.accepted));
    InBag(e, Pipeline.Events(s.past));
    InBag(e, s.dropped);
    InBag(e, s.pipe.accepted);
  }

  lemma HandedArrives(p: Setup, s: State, k: nat)
    requires Pipeline.Accounted(p.c, s.pipe) && Placed(p, s) && Durable(p, s) && k < |s.world.view.sent|
    ensures Arrived(p, s, p.normal(s.world.view.sent[k]))
  {
    var e, all := p.normal(s.world.view.sent[k]), s.past + s.pipe.done;
    HandedIsSomewhere(p, s, k);
    EventsAppend(s.past, s.pipe.done);
    hide Durable, Pipeline.Accounted, Placed, Disk.Contents, Pipeline.Payloads, Pipeline.Payload, Pipeline.Events;
    if e in Pipeline.Events(all) {
      var fate := EventIsDone(all, e);
      MetHasPayload(p.c, all, e, fate);
      PayloadsAppend(p.c, s.past, s.pipe.done, fate);
      hide Met;
      if fate.Spooled? || fate.Delivered? {
        PayloadIsKept(p, s, Pipeline.Payload(p.c, e), fate);
      }
    }
  }

  /** An entry that the date cursor has passed was handed over by some process, and its event
      has been dealt with by a dispatcher, was dropped with a process, or is on its way. */
  lemma PassedIsPlaced(p: Setup, run: Run, i: nat) returns (k: nat)
    requires Legal(p, run) && Passed(Exec(p, run).world, i)
    ensures var s := Exec(p, run);
            && k < |s.world.view.sent| && s.world.view.sent[k].id == s.world.log[i].id.value
            && var e := p.normal(s.world.view.sent[k]);
               e in Pipeline.Events(s.past) || e in Pipeline.Events(s.pipe.done) || e in s.dropped
               || e in s.pipe.queue || s.pipe.hand == Some(e)
  {
    var polls := PollerRun(p, run);
    AuditRuns.NoLoss(polls, i);
    EverythingPlaced(p, run);
    var s := Exec(p, run);
    k :| 0 <= k < |s.world.view.sent| && s.world.view.sent[k].id == s.world.log[i].id.value;
    HandedIsSomewhere(p, s, k);
  }

  /** And dealt with means filtered, lost with an error, received by analysisd or on disk, over
      any number of processes that end anyhow. */
  lemma PassedIsArrived(p: Setup, run: Run, i: nat) returns (k: nat)
    requires Legal(p, run) && Tidy(run) && Passed(Exec(p, run).world, i)
    ensures var s := Exec(p, run);
            && k < |s.world.view.sent| && s.world.view.sent[k].id == s.world.log[i].id.value
            && Arrived(p, s, p.normal(s.world.view.sent[k]))
  {
    k := PassedIsPlaced(p, run, i);
    EverythingPlaced(p, run);
    EverythingKept(p, run);
    HandedArrives(p, Exec(p, run), k);
  }

  // ---- Dropped by a crash --------------------------------------------------

  /** Every process ended with nothing in the channel or in the dispatcher's hand. */
  ghost predicate AllDrained(p: Setup, run: Run)
    requires Legal(p, run)
  {
    run.Then? ==>
      && AllDrained(p, run.before)
      && (run.last.Crash? ==> Exec(p, run.before).pipe.hand.None? && Exec(p, run.before).pipe.queue == [])
  }

  lemma {:induction false} NothingDroppedIff(p: Setup, run: Run)
    requires Legal(p, run)
    ensures Exec(p, run).dropped == [] <==> AllDrained(p, run)
  {
    match run
    case Begun(_) =>
    case Then(before, last) =>
      NothingDroppedIff(p, before);
      if last.Crash? {
        var s := Exec(p, before);
        assert |Exec(p, run).dropped| == |s.dropped| + |Pipeline.InHand(s.pipe.hand)| + |s.pipe.queue|;
      }
  }

  /** One source, nothing spooled. */
  function Empty(): Pipeline.State {
    Pipeline.State([Pipeline.Waiting], [0], [0], 0, false, [], [], None, [], [], false,
                   Spool.State(map[], 0, Spool.Idle, [], [], [], [], [], [], 0), [])
  }

  function NewEntry(): Audit.Entry { Audit.Entry(Some("a"), Some(5), Json.Null) }

  function TwoEntries(): seq<Audit.Entry> { [NewEntry(), Audit.Entry(None, Some(7), Json.Null)] }

  function NewEvent(): Audit.AuditEvent { Audit.AuditEvent("a", 5, Json.Null) }

  function BeforePoll(): AuditRuns.World {
    AuditRuns.World(Audit.View(map[Audit.OLDEST_KEY := StateStore.Print(0)], [], [], true), Audit.Idle,
                    TwoEntries(), map[], 0, Some(0))
  }

  function OnePage(): AuditRuns.Step { AuditRuns.Fetch(TwoEntries(), 2, None, 1, true, true) }

  lemma PageOfTwo(v: Audit.View)
    requires v.accepted == [] && v.sent == [] && v.open
    ensures Audit.HandleEntries(v, TwoEntries(), 0, 1) == Audit.Outcome(v.(accepted := ["a"], sent := [NewEvent()]), false)
    ensures Audit.Newest(TwoEntries(), 0, 0) == 7
  {
    var u, entries := v.(accepted := ["a"], sent := [NewEvent()]), TwoEntries();
    assert [] + ["a"] == ["a"] && [] + [NewEvent()] == [NewEvent()];
    assert Audit.HandleEntry(v, entries[0], true) == (u, Audit.Handed);
    assert Audit.HandleEntry(u, entries[1], false) == (u, Audit.Skipped);
    assert Audit.HandleEntries(u, entries, 1, 0) == Audit.HandleEntries(u, entries, 2, 0) == Audit.Outcome(u, false);
    assert Audit.Newest(entries, 1, 5) == 7;
  }

  /** One poll of the two entries, the first of which is handed over. */
  lemma PollOfTwo() returns (t: AuditRuns.World)
    ensures AuditRuns.Initial(BeforePoll()) && AuditRuns.Enabled(BeforePoll(), AuditRuns.Start(0))
    ensures var w := AuditRuns.Next(BeforePoll(), AuditRuns.Start(0));
            w.view == BeforePoll().view && AuditRuns.Enabled(w, OnePage()) && t == AuditRuns.Next(w, OnePage())
    ensures t.view.sent == [NewEvent()] && t.log == TwoEntries() && Passed(t, 0)
  {
    StateStore.ParsePrint(0);
    StateStore.ParsePrint(7);
    PageOfTwo(BeforePoll().view);
    hide StateStore.Print, StateStore.Parse, Audit.HandleEntries, Audit.Newest;
    var run: AuditRuns.Run := Begun(BeforePoll());
    AuditRuns.ShortPoll(run, OnePage());
    t := AuditRuns.Exec(Then(Then(run, AuditRuns.Start(0)), OnePage()));
  }

  lemma StartsEmpty()
    ensures Pipeline.Initial(Empty())
  {
    assert Disk.Contents(map[]) == [];
  }

  /** The source is started and sends one event, which nobody receives. */
  lemma OneQueued(c: Pipeline.Config, e: NormalizedEvent) returns (started: Pipeline.State)
    ensures var move := Pipeline.Run(POLLER, 1);
            Pipeline.Enabled(c, Empty(), move) && started == Pipeline.Next(c, Empty(), move)
    ensures var move := Pipeline.Send(POLLER, e);
            && Pipeline.Enabled(c, started, move)
            && Pipeline.Next(c, started, move) == Empty().(sources := [Pipeline.Running(0)], accepted := [e], queue := [e])
  {
    started := Pipeline.Next(c, Empty(), Pipeline.Run(POLLER, 1));
    assert started == Empty().(sources := [Pipeline.Running(1)]);
  }

  lemma Go(p: Setup, run: Run, step: Step)
    requires Legal(p, run) && Enabled(p, Exec(p, run), step)
    ensures Legal(p, Then(run, step)) && Exec(p, Then(run, step)) == Next(p, Exec(p, run), step)
    ensures Tidy(Then(run, step)) <==> Tidy(run)
  {
  }

  /** A page of one event is being handed over: the event is in the channel. */
  lemma HandingOver(p: Setup) returns (run: Run, s: State)
    ensures Legal(p, run) && Tidy(run) && Exec(p, run) == s
    ensures s.world == AuditRuns.Next(BeforePoll(), AuditRuns.Start(0)) && s.pipe.done == [] && s.pipe.hand.None?
    ensures s.pipe.queue == s.ahead == [p.normal(NewEvent())] && s.dropped == [] && s.past == []
    ensures s.reached == [] && s.pipe.spool == Empty().spool
  {
    var t := PollOfTwo();
    StartsEmpty();
    var e := p.normal(NewEvent());
    var started := OneQueued(p.c, e);
    hide AuditRuns.Next, AuditRuns.Enabled, AuditRuns.Initial, Pipeline.Initial, Pipeline.Next, Pipeline.Enabled;
    run := Begun(State(BeforePoll(), Empty(), [], [], [], [], [], [], []));
    assert Legal(p, run) && Tidy(run);
    Go(p, run, Poll(AuditRuns.Start(0)));
    run := Then(run, Poll(AuditRuns.Start(0)));
    Go(p, run, Work(Pipeline.Run(POLLER, 1)));
    run := Then(run, Work(Pipeline.Run(POLLER, 1)));
    Go(p, run, Work(Pipeline.Send(POLLER, e)));
    run := Then(run, Work(Pipeline.Send(POLLER, e)));
    s := Exec(p, run);
  }

  lemma PageEnds(p: Setup, s: State, t: AuditRuns.World)
    requires AuditRuns.Enabled(s.world, OnePage()) && t == AuditRuns.Next(s.world, OnePage())
    requires s.world.view.sent == [] && t.view.sent == [NewEvent()] && s.ahead == [p.normal(NewEvent())]
    ensures Enabled(p, s, Poll(OnePage())) && Next(p, s, Poll(OnePage())) == s.(world := t, ahead := [])
  {
    hide AuditRuns.Next, AuditRuns.Enabled;
    assert Normals(p.normal, NewlySent(s.world, OnePage())) == s.ahead;
  }

  lemma CrashDrops(p: Setup, s: State, pipe: Pipeline.State)
    requires Pipeline.Initial(pipe) && pipe.spool.files == s.pipe.spool.files
    requires s.pipe.hand.None? && s.dropped == [] && s.past == s.pipe.done == []
    requires s.reached == [] && s.pipe.spool.received == []
    ensures Enabled(p, s, Crash(pipe))
    ensures var t := Next(p, s, Crash(pipe));
            && t.world.view == s.world.view.(accepted := [], open := true)
            && t.world.log == s.world.log && t.world.first == s.world.first
            && t.dropped == s.pipe.queue && t.past == [] && t.pipe == pipe && t.reached == []
  {
    hide Pipeline.Initial;
    assert [] + [] + s.pipe.queue == s.pipe.queue;
  }

  /** The promise that a cursor moves only after the sink has emitted does not hold: the
      process ends with an event in the channel, and the date cursor has passed its entry.
      Nothing of it is left anywhere. */
  lemma PassedAndDropped(p: Setup) returns (run: Run)
    ensures Legal(p, run) && Tidy(run)
    ensures var s := Exec(p, run);
            && Passed(s.world, 0) && s.world.log[0] == NewEntry() && s.world.view.sent == [NewEvent()]
            && s.dropped == [p.normal(NewEvent())] && s.past == [] && s.pipe == Empty() && s.reached == []
  {
    var t := PollOfTwo();
    StartsEmpty();
    var before, s := HandingOver(p);
    hide Enabled, Next, Legal, Exec, Tidy, AuditRuns.Next, AuditRuns.Enabled, Pipeline.Initial;
    PageEnds(p, s, t);
    Go(p, before, Poll(OnePage()));
    run := Then(before, Poll(OnePage()));
    CrashDrops(p, s.(world := t, ahead := []), Empty());
    Go(p, run, Crash(Empty()));
    run := Then(run, Crash(Empty()));
  }
}
