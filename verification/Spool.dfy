/** The spool of the analysisd sink as a step system: any number of emitters append
    under the spool lock, one replay task walks a directory listing that it took
    without the lock. Every step is atomic; any interleaving is a run. */
module Spool {
  import opened Wrappers
  import opened Framing
  import opened Disk

  // ---- State and steps -----------------------------------------------------

  /** Where the replay task stands. It holds the spool lock while it drains a
      segment and while it writes the unsent tail of one back. */
  datatype Phase =
    | Idle
    | Walking(todo: seq<nat>)
    | Draining(seg: nat, lines: seq<string>, done: nat, todo: seq<nat>)
    | Restoring(seg: nat, lines: seq<string>, done: nat)
  {
    predicate Locked() { Draining? || Restoring? }

    /** Sent from the open segment, but the segment still shows it. */
    function InFlight(): seq<string> {
      if Locked() && done <= |lines| then lines[..done] else []
    }

    /** Listed segments that are still to be removed. */
    function Remaining(): seq<nat> {
      match this
      case Walking(todo) => todo
      case Draining(seg, _, _, todo) => [seg] + todo
      case _ => []
    }
  }

  /** `files` is the spool directory and `hour` the latest stamp handed out. The
      rest is history: what analysisd received, what was spooled, what emitters sent
      to analysisd themselves, what replay sent, what it took off the disk, what it
      sent without taking it off, and how much had been spooled when the current
      listing was taken. */
  datatype State = State(
    files: map<nat, string>,
    hour: nat,
    phase: Phase,
    received: seq<string>,
    spooled: seq<string>,
    direct: seq<string>,
    sent: seq<string>,
    committed: seq<string>,
    resent: seq<string>,
    mark: nat)

  datatype Step =
    | Append(payload: string, stamp: nat)
    | Deliver(payload: string)
    | List(names: seq<nat>)
    | Open(ok: bool)
    | SendOk
    | SendFail
    | WriteBack(ok: bool)
    | Remove(ok: bool)
    | Finish
    | Abort

  ghost predicate Enabled(s: State, step: Step) {
    match step
    case Append(p, _) => Frameable(p) && !s.phase.Locked()
    case Deliver(_) => true
    case List(names) => s.phase.Idle? && Distinct(names) && forall n :: n in names <==> n in s.files
    case Open(_) => s.phase.Walking? && s.phase.todo != []
    case SendOk => s.phase.Draining? && s.phase.done < |s.phase.lines|
    case SendFail => s.phase.Draining? && s.phase.done < |s.phase.lines|
    case WriteBack(_) => s.phase.Restoring? && s.phase.done < |s.phase.lines|
    case Remove(_) => s.phase.Draining? && s.phase.done == |s.phase.lines|
    case Finish => s.phase == Walking([])
    case Abort => !s.phase.Idle?
  }

  /** The replay task lets go of everything it sent from the open segment: the
      segment keeps its old text, so those payloads will be sent again. */
  function GiveUp(s: State): State {
    s.(phase := Idle, resent := s.resent + s.phase.InFlight())
  }

  ghost function Next(s: State, step: Step): State
    requires Enabled(s, step)
  {
    match step
    case Append(p, stamp) =>
      s.(files := Appended(s.files, p, stamp), hour := stamp, spooled := s.spooled + [p])
    case Deliver(p) => s.(received := s.received + [p], direct := s.direct + [p])
    case List(names) => s.(phase := Walking(Sort(names)), mark := |s.spooled|)
    case Open(ok) =>
      var seg := s.phase.todo[0];
      if ok && seg in s.files
      then s.(phase := Draining(seg, SpoolLines(s.files[seg]), 0, s.phase.todo[1..]))
      else s.(phase := Idle)
    case SendOk =>
      s.(phase := Draining(s.phase.seg, s.phase.lines, s.phase.done + 1, s.phase.todo),
         received := s.received + [s.phase.lines[s.phase.done]],
         sent := s.sent + [s.phase.lines[s.phase.done]])
    case SendFail => s.(phase := Restoring(s.phase.seg, s.phase.lines, s.phase.done))
    case WriteBack(ok) =>
      if !ok then GiveUp(s) else
        var unsent := s.phase.lines[s.phase.done..];
        s.(files := s.files[s.phase.seg := Join(unsent, "\n") + "\n"],
           committed := s.committed + s.phase.lines[..s.phase.done],
           phase := Idle)
    case Remove(ok) =>
      if !ok then GiveUp(s) else
        s.(files := s.files - {s.phase.seg},
           committed := s.committed + s.phase.lines,
           phase := Walking(s.phase.todo))
    case Finish => s.(phase := Idle)
    case Abort => GiveUp(s)
  }

  // ---- Runs ----------------------------------------------------------------

  /** A sink that has just been opened over the segments of an earlier process, the last
      of which may have been cut off in the middle of a line. */
  ghost predicate Fresh(s: State) {
    && s.phase == Idle
    && (forall h :: h in s.files ==> h <= s.hour)
    && s.spooled == Contents(s.files)
    && s.received == s.direct == s.sent == s.committed == s.resent == []
    && s.mark == 0
  }

  type Run = History<State, Step>

  ghost predicate Legal(run: Run)
    decreases run, 0
  {
    match run
    case Begun(s) => Fresh(s)
    case Then(before, last) => Legal(before) && Enabled(Exec(before), last)
  }

  ghost function Exec(run: Run): State
    requires Legal(run)
    decreases run, 1
  {
    match run
    case Begun(s) => s
    case Then(before, last) => Next(Exec(before), last)
  }

  /** The clock never hands out an earlier hour than before. */
  ghost predicate Timely(run: Run)
    requires Legal(run)
  {
    run.Then? ==>
      Timely(run.before) && (run.last.Append? ==> Exec(run.before).hour <= run.last.stamp)
  }

  /** No payload is appended to a line that was cut off, and no line that ends with a
      carriage return is written back. */
  ghost predicate WholeStep(s: State, step: Step) {
    match step
    case Append(_, stamp) => Whole(s.files, stamp)
    case WriteBack(true) =>
      s.phase.Restoring? && s.phase.done <= |s.phase.lines| ==> AllFrameable(s.phase.lines[s.phase.done..])
    case _ => true
  }

  ghost predicate AllWhole(run: Run)
    requires Legal(run)
  {
    run.Then? ==> AllWhole(run.before) && WholeStep(Exec(run.before), run.last)
  }

  /** Some run of a sink leads here, a whole one if so asked. */
  ghost predicate Reached(t: State, whole: bool) {
    exists run: Run :: Legal(run) && Exec(run) == t && (whole ==> AllWhole(run))
  }

  lemma ReachedNext(t: State, whole: bool, step: Step)
    requires Reached(t, whole) && Enabled(t, step)
    ensures Reached(Next(t, step), whole && WholeStep(t, step))
  {
    var run: Run :| Legal(run) && Exec(run) == t && (whole ==> AllWhole(run));
    var further := Then(run, step);
    assert Legal(further) && Exec(further) == Next(t, step);
  }

  // ---- The open segment ----------------------------------------------------

  ghost predicate PhaseInv(s: State) {
    && (s.phase.Locked() ==>
          && s.phase.seg in s.files
          && s.phase.lines == SpoolLines(s.files[s.phase.seg])
          && s.phase.done <= |s.phase.lines|)
    && (s.phase.Restoring? ==> s.phase.done < |s.phase.lines|)
  }

  lemma WriteBackReads(s: State)
    requires PhaseInv(s) && Enabled(s, WriteBack(true))
    ensures var lines := s.phase.lines[s.phase.done..];
            var content := Next(s, WriteBack(true)).files[s.phase.seg];
            && Terminated(content)
            && (AllFrameable(lines) ==> SpoolLines(content) == lines)
            && (multiset(SpoolLines(content)) == multiset(lines) <==> AllFrameable(lines))
  {
    SpoolLinesListed(s.files[s.phase.seg]);
    hide SpoolLines, AllFrameable, Listed, Terminated;
    WriteBackIff(s.phase.lines, s.phase.done);
  }

  lemma StepPhase(s: State, step: Step)
    requires PhaseInv(s) && Enabled(s, step)
    ensures PhaseInv(Next(s, step))
  {
    hide SpoolLines;
  }

  // ---- What was received and sent ------------------------------------------

  /** What replay sent are the payloads that it took off the disk, those in flight, and
      the ones that it will have to repeat. */
  ghost predicate Accounts(s: State) {
    && multiset(s.received) == multiset(s.direct) + multiset(s.sent)
    && multiset(s.sent) == multiset(s.committed) + multiset(s.phase.InFlight()) + multiset(s.resent)
    && (s.resent == [] ==> s.sent == s.committed + s.phase.InFlight())
  }

  lemma OneMoreSent(s: State, t: State, l: string)
    requires Accounts(s) && t.phase.InFlight() == s.phase.InFlight() + [l]
    requires t.sent == s.sent + [l] && t.received == s.received + [l]
    requires t.direct == s.direct && t.committed == s.committed && t.resent == s.resent
    ensures Accounts(t)
  {
    Regroup(s.committed, s.phase.InFlight(), [l]);
  }

  lemma SendAccounts(s: State)
    requires PhaseInv(s) && Accounts(s) && Enabled(s, SendOk)
    ensures Accounts(Next(s, SendOk))
  {
    var lines, done := s.phase.lines, s.phase.done;
    hide SpoolLines, Accounts;
    assert lines[..done + 1] == lines[..done] + [lines[done]];
    OneMoreSent(s, Next(s, SendOk), lines[done]);
  }

  lemma DeliverAccounts(s: State, step: Step)
    requires Accounts(s) && Enabled(s, step) && step.Deliver?
    ensures Accounts(Next(s, step))
  {
    var t, p := Next(s, step), step.payload;
    assert t == s.(received := s.received + [p], direct := s.direct + [p]);
  }

  lemma QuietAccounts(s: State, step: Step)
    requires Accounts(s) && Enabled(s, step)
    requires step.Append? || step.List? || step.Open? || step.SendFail? || step.Finish?
    ensures Accounts(Next(s, step))
  {
    hide SpoolLines;
    var t := Next(s, step);
    assert t.phase.InFlight() == s.phase.InFlight() && t.sent == s.sent && t.committed == s.committed;
  }

  lemma CommitAccounts(s: State, step: Step)
    requires PhaseInv(s) && Accounts(s) && Enabled(s, step)
    requires step.WriteBack? || step.Remove? || step.Abort?
    ensures Accounts(Next(s, step))
  {
    hide SpoolLines, Accounts;
    if step.Remove? {
      assert s.phase.InFlight() == s.phase.lines;
    }
    SettleAccounts(s, Next(s, step));
  }

  /** Taking what is in flight off the disk, or giving it up, changes no send. */
  lemma SettleAccounts(s: State, t: State)
    requires Accounts(s) && t.phase.InFlight() == []
    requires t.sent == s.sent && t.received == s.received && t.direct == s.direct
    requires (t.committed == s.committed + s.phase.InFlight() && t.resent == s.resent)
          || (t.committed == s.committed && t.resent == s.resent + s.phase.InFlight())
    ensures Accounts(t)
  {
    NilRight(t.committed);
    assert multiset(t.committed) + multiset(t.resent)
        == multiset(s.committed) + multiset(s.phase.InFlight()) + multiset(s.resent);
    if t.resent == [] && t.committed == s.committed {
      assert s.resent == [] && s.phase.InFlight() == [];
      NilRight(s.committed);
    }
  }

  lemma StepAccounts(s: State, step: Step)
    requires PhaseInv(s) && Accounts(s) && Enabled(s, step)
    ensures Accounts(Next(s, step))
  {
    hide *;
    match step {
      case SendOk => SendAccounts(s);
      case WriteBack(_) => CommitAccounts(s, step);
      case Remove(_) => CommitAccounts(s, step);
      case Abort => CommitAccounts(s, step);
      case Deliver(_) => DeliverAccounts(s, step);
      case _ => QuietAccounts(s, step);
    }
  }

  // ---- Conservation for an arbitrary clock ---------------------------------

  /** Nothing spooled is missing and nothing is invented, counted as multisets. */
  ghost predicate Stored(s: State) {
    multiset(s.committed) + multiset(Contents(s.files)) == multiset(s.spooled)
  }

  ghost predicate Conserved(s: State) {
    Stored(s) && Accounts(s)
  }

  /** An append keeps the count exactly if it is not glued to a line that was cut off. */
  lemma AppendStoredIff(s: State, step: Step)
    requires Stored(s) && Enabled(s, step) && step.Append?
    ensures Stored(Next(s, step)) <==> WholeStep(s, step)
  {
    var t, p := Next(s, step), step.payload;
    AppendBagIff(s.files, p, step.stamp);
    hide Contents, SpoolLines;
    assert t.committed == s.committed && t.files == Appended(s.files, p, step.stamp);
    assert multiset(t.spooled) == multiset(s.spooled) + multiset{p};
    var c := multiset(s.committed);
    BagCancel(multiset(Contents(t.files)), multiset(Contents(s.files)), c, p);
    assert multiset(Contents(s.files)) + c == c + multiset(Contents(s.files));
    assert multiset(Contents(t.files)) + c == c + multiset(Contents(t.files));
  }

  lemma CommitStoredIff(s: State, t: State)
    requires Stored(s) && t.spooled == s.spooled && t.committed == s.committed + s.phase.InFlight()
    ensures Stored(t) <==> multiset(s.phase.InFlight()) + multiset(Contents(t.files)) == multiset(Contents(s.files))
  {
    hide Contents;
    var c, more := multiset(s.committed), multiset(s.phase.InFlight());
    var left, all := multiset(Contents(t.files)), multiset(Contents(s.files));
    assert multiset(t.committed) == c + more;
    SameRest(c, more + left, all, multiset{});
    assert c + (more + left + multiset{}) == c + more + left && c + all + multiset{} == c + all;
  }

  /** A write-back keeps the count exactly if no line that it writes ends with a carriage return. */
  lemma WriteBackStoredIff(s: State)
    requires PhaseInv(s) && Stored(s) && Enabled(s, WriteBack(true))
    ensures Stored(Next(s, WriteBack(true))) <==> WholeStep(s, WriteBack(true))
  {
    var t, seg, done := Next(s, WriteBack(true)), s.phase.seg, s.phase.done;
    WriteBackReads(s);
    CommitBagIff(s.files, seg, done, t.files[seg]);
    hide Contents, SpoolLines, AllFrameable;
    assert s.phase.InFlight() == s.phase.lines[..done];
    assert t == s.(files := t.files, committed := s.committed + s.phase.InFlight(), phase := Idle);
    CommitStoredIff(s, t);
  }

  lemma RemoveCommits(s: State)
    requires PhaseInv(s) && Enabled(s, Remove(true))
    ensures var t := Next(s, Remove(true));
            && s.phase.Draining? && s.phase.seg in s.files && s.phase.InFlight() == SpoolLines(s.files[s.phase.seg])
            && t.files == s.files - {s.phase.seg} && t.spooled == s.spooled
            && t.committed == s.committed + s.phase.InFlight()
  {
    hide SpoolLines;
    assert s.phase.lines[..|s.phase.lines|] == s.phase.lines;
  }

  lemma RemoveStored(s: State)
    requires PhaseInv(s) && Stored(s) && Enabled(s, Remove(true))
    ensures Stored(Next(s, Remove(true)))
  {
    hide *;
    RemoveCommits(s);
    ContentsBag(s.files, s.phase.seg);
    CommitStoredIff(s, Next(s, Remove(true)));
  }

  lemma QuietStored(s: State, step: Step)
    requires Stored(s) && Enabled(s, step)
    requires !step.Append? && step != WriteBack(true) && step != Remove(true)
    ensures Stored(Next(s, step))
  {
    hide Contents, SpoolLines;
    var t := Next(s, step);
    assert t.files == s.files && t.committed == s.committed && t.spooled == s.spooled;
  }

  lemma StepStored(s: State, step: Step)
    requires PhaseInv(s) && Stored(s) && Enabled(s, step) && WholeStep(s, step)
    ensures Stored(Next(s, step))
  {
    hide *;
    if step.Append? {
      AppendStoredIff(s, step);
    } else if step == WriteBack(true) {
      WriteBackStoredIff(s);
    } else if step == Remove(true) {
      RemoveStored(s);
    } else {
      QuietStored(s, step);
    }
  }

  /** One step of anybody keeps the books, whatever the clock says. */
  lemma StepConserves(s: State, step: Step)
    requires PhaseInv(s) && Conserved(s) && Enabled(s, step) && WholeStep(s, step)
    ensures PhaseInv(Next(s, step)) && Conserved(Next(s, step))
  {
    hide *;
    StepPhase(s, step);
    ConservedParts(s);
    StepAccounts(s, step);
    StepStored(s, step);
    ConservedWhole(Next(s, step));
  }

  lemma ConservedParts(s: State)
    requires Conserved(s)
    ensures Stored(s) && Accounts(s)
  {
  }

  lemma ConservedWhole(s: State)
    requires Stored(s) && Accounts(s)
    ensures Conserved(s)
  {
  }

  // ---- First in, first out for a clock that does not run backwards ---------

  /** Payloads leave the disk in the order in which they were spooled, and a walk has the
      oldest segments ahead of it. */
  ghost predicate InOrder(s: State) {
    && (forall h :: h in s.files ==> h <= s.hour)
    && OldestFirst(s.files, s.phase.Remaining())
    && s.committed + Contents(s.files) == s.spooled
    && (s.phase.Restoring? ==> forall h :: h in s.files ==> s.phase.seg <= h)
  }

  lemma AppendInOrder(s: State, step: Step)
    requires InOrder(s) && Enabled(s, step)
    requires step.Append? && s.hour <= step.stamp && WholeStep(s, step)
    ensures InOrder(Next(s, step))
  {
    var p, stamp, names, t := step.payload, step.stamp, s.phase.Remaining(), Next(s, step);
    var content := t.files[stamp];
    assert t == s.(files := s.files[stamp := content], hour := stamp, spooled := s.spooled + [p]);
    EmptyFramed();
    AppendLine(if stamp in s.files then s.files[stamp] else "", p);
    ContentsAppend(s.files, stamp, content, p);
    AppendKeepsListing(s.files, names, stamp, content);
    hide Contents, SpoolLines, OldestFirst;
    Regroup(s.committed, Contents(s.files), [p]);
  }

  lemma WriteBackInOrder(s: State, step: Step)
    requires PhaseInv(s) && InOrder(s) && Enabled(s, step) && step == WriteBack(true) && WholeStep(s, step)
    ensures InOrder(Next(s, step))
  {
    var seg, lines, done, t := s.phase.seg, s.phase.lines, s.phase.done, Next(s, step);
    var content := t.files[seg];
    hide Contents, SpoolLines, AllFrameable, Terminated;
    assert t == s.(files := s.files[seg := content], committed := s.committed + lines[..done], phase := Idle);
    WriteBackReads(s);
    WriteBackDisk(s.files, seg, done, content);
    NothingListed(t.files);
    hide OldestFirst;
    Regroup(s.committed, lines[..done], Contents(t.files));
  }

  lemma RemoveInOrder(s: State, step: Step)
    requires PhaseInv(s) && InOrder(s) && Enabled(s, step) && step == Remove(true)
    ensures InOrder(Next(s, step))
  {
    var seg, lines, todo, t := s.phase.seg, s.phase.lines, s.phase.todo, Next(s, step);
    assert t == s.(files := s.files - {seg}, committed := s.committed + lines, phase := Walking(todo));
    var names := s.phase.Remaining();
    assert names == [seg] + todo && names[1..] == todo == t.phase.Remaining();
    DropHead(s.files, names);
    RemoveDisk(s.files, names);
    hide Contents, SpoolLines, OldestFirst;
    Regroup(s.committed, lines, Contents(t.files));
  }

  /** The walk goes on with the same segments ahead of it, or is given up. */
  lemma RephasedInOrder(s: State, t: State)
    requires InOrder(s) && t.files == s.files && t.hour == s.hour && t.committed == s.committed && t.spooled == s.spooled
    requires t.phase.Remaining() == s.phase.Remaining() || t.phase.Remaining() == []
    requires t.phase.Restoring? ==> forall h :: h in t.files ==> t.phase.seg <= h
    ensures InOrder(t)
  {
    hide Contents, OldestFirst, Ascending;
    if t.phase.Remaining() == [] {
      NothingListed(t.files);
    }
  }

  lemma NothingListed(files: map<nat, string>)
    ensures OldestFirst(files, [])
  {
  }

  lemma OpenPhase(s: State, step: Step)
    requires Enabled(s, step) && step.Open?
    ensures var t := Next(s, step);
            t == s.(phase := t.phase)
            && (t.phase.Idle? || (t.phase.Draining? && t.phase.Remaining() == s.phase.Remaining()))
  {
    assert [s.phase.todo[0]] + s.phase.todo[1..] == s.phase.todo;
  }

  lemma OpenInOrder(s: State, step: Step)
    requires InOrder(s) && Enabled(s, step) && step.Open?
    ensures InOrder(Next(s, step))
  {
    OpenPhase(s, step);
    RephasedInOrder(s, Next(s, step));
  }

  lemma ListInOrder(s: State, step: Step)
    requires InOrder(s) && Enabled(s, step) && step.List?
    ensures InOrder(Next(s, step))
  {
    ListedOldestFirst(s.files, step.names);
    hide Contents, OldestFirst;
    assert Next(s, step).phase.Remaining() == Sort(step.names);
  }

  /** The steps that only change where the replay task stands. */
  lemma QuietInOrder(s: State, step: Step)
    requires PhaseInv(s) && InOrder(s) && Enabled(s, step)
    requires step.Deliver? || step.SendOk? || step.SendFail? || step.Finish? || step.Abort?
          || step == WriteBack(false) || step == Remove(false)
    ensures InOrder(Next(s, step))
  {
    hide Contents, SpoolLines, OldestFirst;
    if s.phase.Draining? {
      HeadIsLeast(s.files, s.phase.Remaining());
    }
    RephasedInOrder(s, Next(s, step));
  }

  lemma StepInOrder(s: State, step: Step)
    requires PhaseInv(s) && InOrder(s) && Enabled(s, step) && WholeStep(s, step)
    requires step.Append? ==> s.hour <= step.stamp
    ensures InOrder(Next(s, step))
  {
    hide InOrder, PhaseInv;
    match step {
      case Append(_, _) => AppendInOrder(s, step);
      case List(_) => ListInOrder(s, step);
      case Open(_) => OpenInOrder(s, step);
      case WriteBack(ok) => if ok { WriteBackInOrder(s, step); } else { QuietInOrder(s, step); }
      case Remove(ok) => if ok { RemoveInOrder(s, step); } else { QuietInOrder(s, step); }
      case _ => QuietInOrder(s, step);
    }
  }

  // ---- Main results over every run -----------------------------------------

  lemma FreshHolds(s: State)
    requires Fresh(s)
    ensures PhaseInv(s) && Conserved(s) && InOrder(s)
  {
    assert s.phase.InFlight() == [] && s.phase.Remaining() == [];
    assert [] + s.spooled == s.spooled;
  }

  /** In every run, what replay sent is what it took off the disk, has in flight, or will
      have to repeat. */
  lemma {:induction false} SendsAccounted(run: Run)
    requires Legal(run)
    ensures PhaseInv(Exec(run)) && Accounts(Exec(run))
  {
    match run
    case Begun(s) => FreshHolds(s);
    case Then(before, last) =>
      SendsAccounted(before);
      hide PhaseInv, Accounts;
      StepPhase(Exec(before), last);
      StepAccounts(Exec(before), last);
  }

  /** For every interleaving, whatever fails and whatever the clock says: what replay took
      off the disk and what is still there are together exactly what was spooled, as long
      as no payload is appended to a line that was cut off and no line that ends with a
      carriage return is written back. */
  lemma {:induction false} NothingLost(run: Run)
    requires Legal(run) && AllWhole(run)
    ensures PhaseInv(Exec(run)) && Conserved(Exec(run))
  {
    match run
    case Begun(s) => FreshHolds(s);
    case Then(before, last) =>
      NothingLost(before);
      hide PhaseInv, Conserved;
      StepConserves(Exec(before), last);
  }

  /** The count is right in every state that the run goes through. */
  ghost predicate AlwaysStored(run: Run)
    requires Legal(run)
  {
    Stored(Exec(run)) && (run.Then? ==> AlwaysStored(run.before))
  }

  /** And that is the exact condition. */
  lemma {:induction false} NothingLostIff(run: Run)
    requires Legal(run)
    ensures AlwaysStored(run) <==> AllWhole(run)
  {
    match run
    case Begun(s) => FreshHolds(s);
    case Then(before, last) =>
      NothingLostIff(before);
      hide Stored, Enabled;
      if AllWhole(before) {
        NothingLost(before);
        ConservedParts(Exec(before));
        if last.Append? {
          AppendStoredIff(Exec(before), last);
        } else if last == WriteBack(true) {
          WriteBackStoredIff(Exec(before));
        } else {
          StepStored(Exec(before), last);
        }
      }
  }

  /** A sink over one inherited segment. */
  function Inherited(h: nat, content: string): State {
    State(map[h := content], h, Idle, [], SpoolLines(content), [], [], [], [], 0)
  }

  lemma InheritedHolds(h: nat, content: string)
    ensures Fresh(Inherited(h, content)) && Stored(Inherited(h, content))
  {
    ContentsOfOne(map[h := content], h);
    assert multiset([]) + multiset(SpoolLines(content)) == multiset(SpoolLines(content));
  }

  /** Any segment that lacks its last line feed: a payload spooled in its hour breaks the count. */
  lemma GluedAppendLoses(h: nat, content: string, p: string) returns (run: Run)
    requires !Terminated(content) && Frameable(p)
    ensures Legal(run) && run == Then(Begun(Inherited(h, content)), Append(p, h))
    ensures !AllWhole(run) && !Stored(Exec(run))
  {
    InheritedHolds(h, content);
    run := Then(Begun(Inherited(h, content)), Append(p, h));
    AppendStoredIff(Inherited(h, content), Append(p, h));
  }

  lemma ListOne(s: State, h: nat)
    requires s.phase.Idle? && s.files.Keys == {h}
    ensures Enabled(s, List([h]))
    ensures Next(s, List([h])) == s.(phase := Walking([h]), mark := |s.spooled|)
  {
    hide SpoolLines, Contents;
    assert Sort([h]) == [h] by { assert [h][1..] == []; }
  }

  /** Any segment with a line that ends with a carriage return, as two before a line feed leave
      it: a replay that fails at its first line breaks the count. */
  lemma ReturnWrittenLoses(h: nat, content: string) returns (run: Run)
    requires SpoolLines(content) != [] && !Readable(content)
    ensures Legal(run)
    ensures run == Then(Then(Then(Then(Begun(Inherited(h, content)), List([h])), Open(true)), SendFail), WriteBack(true))
    ensures !AllWhole(run) && !Stored(Exec(run))
  {
    InheritedHolds(h, content);
    var s, lines := Inherited(h, content), SpoolLines(content);
    hide SpoolLines, Contents, AllFrameable;
    run := Begun(s);
    ListOne(s, h);
    run := Then(run, List([h]));
    assert Legal(run) && Exec(run) == Next(s, List([h]));
    assert Exec(run) == s.(phase := Walking([h]), mark := |lines|);
    assert [h][1..] == [];
    run := Then(Then(run, Open(true)), SendFail);
    var t := s.(phase := Restoring(h, lines, 0), mark := |lines|);
    assert Legal(run) && Exec(run) == t;
    assert PhaseInv(t) && Stored(t) && Enabled(t, WriteBack(true)) && lines[0..] == lines;
    WriteBackStoredIff(t);
    run := Then(run, WriteBack(true));
  }

  /** Segments that end with a line feed and of whose lines none ends with a carriage return. */
  predicate AllTidy(files: map<nat, string>) {
    forall h :: h in files ==> Terminated(files[h]) && Readable(files[h])
  }

  /** A sink that starts over such segments, as a sink leaves them, has whole runs only. */
  lemma {:induction false} TidyIsWhole(run: Run)
    requires Legal(run) && AllTidy(First(run).files)
    ensures AllWhole(run) && AllTidy(Exec(run).files)
  {
    match run
    case Begun(_) =>
    case Then(before, last) =>
      TidyIsWhole(before);
      SendsAccounted(before);
      hide AllTidy, Enabled, WholeStep, PhaseInv;
      StepTidy(Exec(before), last);
  }

  ghost function First(run: Run): State {
    match run
    case Begun(s) => s
    case Then(before, _) => First(before)
  }

  lemma TidyAppend(content: string, p: string)
    requires Terminated(content) && Readable(content) && Frameable(p)
    ensures Terminated(content + p + "\n") && Readable(content + p + "\n")
  {
    AppendLine(content, p);
  }

  lemma StepTidy(s: State, step: Step)
    requires Enabled(s, step) && PhaseInv(s) && AllTidy(s.files)
    ensures WholeStep(s, step) && AllTidy(Next(s, step).files)
  {
    hide SpoolLines, Terminated, Frameable;
    if step.Append? {
      EmptyFramed();
      TidyAppend(if step.stamp in s.files then s.files[step.stamp] else "", step.payload);
    } else if step == WriteBack(true) {
      WriteBackReads(s);
    }
  }

  /** With hour stamps that never go back, spooled payloads leave in order. */
  lemma {:induction false} FirstInFirstOut(run: Run)
    requires Legal(run) && Timely(run) && AllWhole(run)
    ensures InOrder(Exec(run))
  {
    match run
    case Begun(s) => FreshHolds(s);
    case Then(before, last) =>
      FirstInFirstOut(before);
      SendsAccounted(before);
      hide InOrder, PhaseInv;
      StepInOrder(Exec(before), last);
  }

  // ---- What a walk gets done -----------------------------------------------

  /** What was spooled when the listing was taken has been taken off the disk or is in the
      segments that the walk still has ahead of it, whatever the clock says. */
  ghost predicate WalkInv(s: State) {
    s.phase.Walking? || s.phase.Draining? ==>
      && Ascending(s.phase.Remaining())
      && s.mark <= |s.spooled|
      && multiset(s.spooled[..s.mark]) <= multiset(s.committed) + Bag(s.files, s.phase.Remaining())
  }

  lemma ListWalks(s: State, step: Step)
    requires Stored(s) && Enabled(s, step) && step.List?
    ensures WalkInv(Next(s, step))
  {
    var t := Next(s, step);
    SortListing(step.names);
    hide Contents, SpoolLines, Bag, Ascending, Sort, Distinct;
    assert t.phase.Remaining() == Sort(step.names);
    BagOfListing(s.files, Sort(step.names));
    assert t.spooled[..t.mark] == s.spooled;
  }

  lemma AppendWalks(s: State, step: Step)
    requires WalkInv(s) && Enabled(s, step) && step.Append? && WholeStep(s, step)
    ensures WalkInv(Next(s, step))
  {
    var t, prior := Next(s, step), if step.stamp in s.files then s.files[step.stamp] else "";
    if s.phase.Walking? {
      EmptyFramed();
      AppendLine(prior, step.payload);
      hide SpoolLines, Bag;
      BagGrows(s.files, s.phase.Remaining(), step.stamp, t.files[step.stamp]);
      assert t.spooled[..t.mark] == s.spooled[..s.mark];
    }
  }

  lemma RemoveWalks(s: State)
    requires PhaseInv(s) && WalkInv(s) && Enabled(s, Remove(true))
    ensures WalkInv(Next(s, Remove(true)))
  {
    var t, seg, todo := Next(s, Remove(true)), s.phase.seg, s.phase.todo;
    var names := [seg] + todo;
    assert s.phase.Remaining() == names && names[1..] == todo;
    TailAscending(names);
    BagWithout(s.files, todo, seg);
    assert Bag(s.files, names) == multiset(s.phase.lines) + Bag(t.files, todo);
    hide Bag, SpoolLines, Ascending;
    assert multiset(t.committed) == multiset(s.committed) + multiset(s.phase.lines);
  }

  lemma StepWalks(s: State, step: Step)
    requires PhaseInv(s) && Stored(s) && WalkInv(s) && Enabled(s, step) && WholeStep(s, step)
    ensures WalkInv(Next(s, step))
  {
    match step {
      case List(_) => ListWalks(s, step);
      case Append(_, _) => AppendWalks(s, step);
      case Remove(true) => RemoveWalks(s);
      case Open(_) => OpenPhase(s, step); hide Bag, SpoolLines, Ascending;
      case _ => hide Bag, SpoolLines, Ascending;
    }
  }

  lemma {:induction false} RunWalks(run: Run)
    requires Legal(run) && AllWhole(run)
    ensures WalkInv(Exec(run))
  {
    match run
    case Begun(_) =>
    case Then(before, last) =>
      RunWalks(before);
      NothingLost(before);
      ConservedParts(Exec(before));
      hide WalkInv, PhaseInv, Stored, Enabled;
      StepWalks(Exec(before), last);
  }

  /** A walk that gets to its end has sent all that was spooled before its listing, each
      payload as often as it was spooled, whatever was appended in the meantime and
      whatever the clock said. */
  lemma FinishedWalkDrains(run: Run)
    requires Legal(run) && AllWhole(run) && Exec(run).phase == Walking([])
    ensures var t := Exec(run);
            && t.mark <= |t.spooled|
            && multiset(t.spooled[..t.mark]) <= multiset(t.sent) <= multiset(t.received)
            && (Timely(run) ==> t.mark <= |t.committed| && t.committed <= t.spooled)
  {
    RunWalks(run);
    NothingLost(run);
    if Timely(run) {
      FirstInFirstOut(run);
    }
    WalkedPast(Exec(run));
  }

  lemma WalkedPast(t: State)
    requires WalkInv(t) && Conserved(t) && t.phase == Walking([])
    ensures t.mark <= |t.spooled| && t.mark <= |t.committed|
    ensures multiset(t.spooled[..t.mark]) <= multiset(t.sent) <= multiset(t.received)
  {
    assert t.phase.Remaining() == [] && Bag(t.files, []) == multiset{};
    var before, c := multiset(t.spooled[..t.mark]), multiset(t.committed);
    assert before <= c;
    SmallerBag(before, c);
  }

  lemma {:induction false} SmallerBag(a: multiset<string>, b: multiset<string>)
    requires a <= b
    ensures |a| <= |b|
  {
    assert b == a + (b - a);
  }

  // ---- Exactly once, and at least once -------------------------------------

  /** The step leaves the open segment as it is although part of it has been sent:
      a failed write-back, a failed removal, or the replay task being aborted. */
  ghost predicate Repeats(s: State, step: Step) {
    && (step == WriteBack(false) || step == Remove(false) || step == Abort)
    && s.phase.InFlight() != []
  }

  ghost predicate Clean(run: Run)
    requires Legal(run)
  {
    run.Then? ==> Clean(run.before) && !Repeats(Exec(run.before), run.last)
  }

  lemma ResentGrows(s: State, step: Step)
    requires Enabled(s, step)
    ensures Next(s, step).resent == if Repeats(s, step) then s.resent + s.phase.InFlight() else s.resent
  {
    hide SpoolLines;
    NilRight(s.resent);
  }

  /** The only payloads that will be sent a second time are the part already sent of
      the one segment being drained. */
  lemma OnlySentPrefixRepeats(s: State, step: Step)
    requires PhaseInv(s) && Enabled(s, step) && Repeats(s, step)
    ensures Next(s, step).resent == s.resent + s.phase.InFlight()
    ensures s.phase.seg in Next(s, step).files && s.phase.InFlight() <= SpoolLines(Next(s, step).files[s.phase.seg])
  {
    ResentGrows(s, step);
  }

  /** On a clock that does not run backwards they are still at the front of the disk. */
  lemma SentPrefixInFront(s: State, step: Step)
    requires PhaseInv(s) && InOrder(s) && Enabled(s, step) && Repeats(s, step)
    ensures s.phase.InFlight() <= Contents(Next(s, step).files)
  {
    if s.phase.Draining? {
      HeadIsLeast(s.files, s.phase.Remaining());
    }
    FrontOfDisk(s.files, s.phase.seg, s.phase.done);
  }

  lemma {:induction false} ResentIff(run: Run)
    requires Legal(run)
    ensures Exec(run).resent == [] <==> Clean(run)
  {
    match run
    case Begun(_) =>
    case Then(before, last) =>
      ResentIff(before);
      ResentGrows(Exec(before), last);
  }

  /** What replay sent is what it took off the disk and what is in flight, exactly if no
      write-back, removal or abort leaves a partly sent segment unchanged. */
  lemma SentIsCommittedIff(run: Run)
    requires Legal(run)
    ensures var t := Exec(run);
            t.sent == t.committed + t.phase.InFlight() <==> Clean(run)
  {
    SendsAccounted(run);
    ResentIff(run);
    var t := Exec(run);
    assert |multiset(t.sent)| == |t.sent|;
    assert |multiset(t.committed) + multiset(t.phase.InFlight()) + multiset(t.resent)|
        == |t.committed| + |t.phase.InFlight()| + |t.resent|;
  }

  /** Between two replays of a clean run on a steady clock, what replay has sent and
      what is on disk, in file-name order, spell out what was spooled. */
  lemma CleanRunIsExact(run: Run)
    requires Legal(run) && Timely(run) && AllWhole(run) && Clean(run)
    requires !Exec(run).phase.Locked()
    ensures var t := Exec(run); t.sent + Contents(t.files) == t.spooled
  {
    SentIsCommittedIff(run);
    FirstInFirstOut(run);
    hide Contents, Legal, Exec;
    var t := Exec(run);
    assert t.phase.InFlight() == [];
    NilRight(t.committed);
  }

  /** Whatever fails, each spooled payload has reached analysisd or is still on disk,
      at least as often as it was spooled. */
  lemma AtLeastOnce(run: Run, p: string)
    requires Legal(run) && AllWhole(run)
    ensures var t := Exec(run);
            multiset(t.spooled)[p] <= multiset(t.sent)[p] + multiset(Contents(t.files))[p]
    ensures var t := Exec(run);
            multiset(t.received)[p] == multiset(t.direct)[p] + multiset(t.sent)[p]
  {
    NothingLost(run);
    hide Contents, Legal, Exec, PhaseInv;
    var t := Exec(run);
    assert (multiset(t.committed) + multiset(Contents(t.files)))[p] == multiset(t.spooled)[p];
    assert multiset(t.sent)[p]
        == multiset(t.committed)[p] + multiset(t.phase.InFlight())[p] + multiset(t.resent)[p];
  }
}
