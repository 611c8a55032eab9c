/** What replay sends more than once: exactly when a payload is sent twice. */
module Duplicates {
  import opened Wrappers
  import opened Framing
  import opened Disk
  import opened Spool

  // ---- How often a payload is sent -----------------------------------------

  lemma InFlightOnDisk(s: State)
    requires PhaseInv(s)
    ensures multiset(s.phase.InFlight()) <= multiset(Contents(s.files))
  {
    if s.phase.Locked() {
      ContentsBag(s.files, s.phase.seg);
      SplitBag(s.phase.lines, s.phase.done);
    }
  }

  lemma SentBound(t: State)
    requires PhaseInv(t) && Conserved(t)
    ensures multiset(t.sent) <= multiset(t.spooled) + multiset(t.resent)
  {
    InFlightOnDisk(t);
  }

  /** Whatever the clock says, replay sends no payload more often than it was spooled, but
      for the ones it sent without taking them off the disk; in a clean run there are none. */
  lemma SentWithinSpooled(run: Run)
    requires Legal(run) && AllWhole(run)
    ensures multiset(Exec(run).sent) <= multiset(Exec(run).spooled) + multiset(Exec(run).resent)
    ensures Clean(run) ==> multiset(Exec(run).sent) <= multiset(Exec(run).spooled)
  {
    NothingLost(run);
    SentBound(Exec(run));
    ResentIff(run);
  }

  lemma {:induction false} DistinctCount(payloads: seq<string>, p: string)
    requires Distinct(payloads)
    ensures multiset(payloads)[p] <= 1
  {
    if payloads != [] {
      var rest, last := payloads[..|payloads| - 1], payloads[|payloads| - 1];
      assert payloads == rest + [last];
      DistinctCount(rest, p);
      if p == last {
        assert p !in rest;
      }
    }
  }

  /** Some payload is sent more often than it was spooled. */
  ghost predicate TooOften(sent: seq<string>, spooled: seq<string>) {
    exists p :: multiset(sent)[p] > multiset(spooled)[p]
  }

  /** Replay sends a payload that it has sent before without taking it off the disk. */
  ghost predicate SendsResent(s: State, step: Step)
    requires Enabled(s, step)
  {
    step.SendOk? && s.phase.lines[s.phase.done] in s.resent
  }

  ghost predicate Resends(run: Run)
    requires Legal(run)
  {
    run.Then? && (Resends(run.before) || SendsResent(Exec(run.before), run.last))
  }

  lemma SentHistory(s: State, step: Step)
    requires Enabled(s, step)
    ensures s.spooled <= Next(s, step).spooled
    ensures Next(s, step).sent == if step.SendOk? then s.sent + [s.phase.lines[s.phase.done]] else s.sent
  {
  }

  lemma OneMoreTaken(lines: seq<string>, n: nat)
    requires n < |lines|
    ensures multiset(lines[..n]) + multiset{lines[n]} <= multiset(lines)
  {
    assert lines == lines[..n] + [lines[n]] + lines[n + 1..];
  }

  lemma NextSendOnDisk(s: State)
    requires PhaseInv(s) && Enabled(s, SendOk)
    ensures multiset(s.phase.InFlight()) + multiset{s.phase.lines[s.phase.done]} <= multiset(Contents(s.files))
  {
    var lines, done := s.phase.lines, s.phase.done;
    ContentsBag(s.files, s.phase.seg);
    hide Contents, SpoolLines;
    OneMoreTaken(lines, done);
  }

  /** A payload that was spooled once and is not to be repeated is sent for the first time. */
  lemma FirstSend(s: State, p: string)
    requires PhaseInv(s) && Conserved(s) && Enabled(s, SendOk) && p == s.phase.lines[s.phase.done]
    requires p !in s.resent && multiset(s.spooled)[p] <= 1
    ensures multiset(s.sent)[p] == 0 && multiset(s.spooled)[p] == 1
  {
    NextSendOnDisk(s);
    hide Contents, SpoolLines, PhaseInv;
    var c, f, d := multiset(s.committed), multiset(s.phase.InFlight()), multiset(Contents(s.files));
    assert (f + multiset{p})[p] <= d[p];
    assert (c + d)[p] == multiset(s.spooled)[p];
    assert (c + f + multiset(s.resent))[p] == multiset(s.sent)[p];
  }

  lemma OneMoreWithin(sent: seq<string>, spooled: seq<string>, p: string)
    requires multiset(sent) <= multiset(spooled) && multiset(sent)[p] == 0 && multiset(spooled)[p] == 1
    ensures multiset(sent + [p]) <= multiset(spooled)
  {
  }

  lemma LaterWithin(sent: seq<string>, spooled: seq<string>, later: seq<string>)
    requires multiset(sent) <= multiset(spooled) && spooled <= later
    ensures multiset(sent) <= multiset(later)
  {
    assert later == spooled + later[|spooled|..];
  }

  lemma SendStaysWithin(s: State, step: Step)
    requires PhaseInv(s) && Conserved(s) && Enabled(s, step) && Distinct(s.spooled) && !SendsResent(s, step)
    requires multiset(s.sent) <= multiset(s.spooled)
    ensures multiset(Next(s, step).sent) <= multiset(Next(s, step).spooled)
  {
    SentHistory(s, step);
    if step.SendOk? {
      var p := s.phase.lines[s.phase.done];
      DistinctCount(s.spooled, p);
      FirstSend(s, p);
      OneMoreWithin(s.sent, s.spooled, p);
    }
    hide *;
    LaterWithin(Next(s, step).sent, s.spooled, Next(s, step).spooled);
  }

  lemma {:induction false} NotResentIsWithin(run: Run)
    requires Legal(run) && AllWhole(run) && Distinct(Exec(run).spooled) && !Resends(run)
    ensures multiset(Exec(run).sent) <= multiset(Exec(run).spooled)
  {
    match run
    case Begun(_) =>
    case Then(before, last) =>
      SentHistory(Exec(before), last);
      assert Distinct(Exec(before).spooled);
      NotResentIsWithin(before);
      NothingLost(before);
      hide PhaseInv, Conserved, Distinct, Enabled;
      SendStaysWithin(Exec(before), last);
  }

  lemma ResentCounts(s: State, step: Step)
    requires Accounts(s) && Enabled(s, step) && SendsResent(s, step)
    ensures multiset(Next(s, step).sent)[s.phase.lines[s.phase.done]] >= 2
  {
    var p := s.phase.lines[s.phase.done];
    SentHistory(s, step);
    assert p in multiset(s.resent);
    assert multiset(s.sent)[p] >= 1;
  }

  lemma {:induction false} ResentIsSentTwice(run: Run) returns (p: string)
    requires Legal(run) && Resends(run)
    ensures multiset(Exec(run).sent)[p] >= 2
  {
    var before, last := run.before, run.last;
    SendsAccounted(before);
    SentHistory(Exec(before), last);
    hide PhaseInv, Accounts;
    if Resends(before) {
      p := ResentIsSentTwice(before);
    } else {
      p := Exec(before).phase.lines[Exec(before).phase.done];
      ResentCounts(Exec(before), last);
    }
  }

  /** The source claims that nothing is duplicated across retries. Whatever the clock says,
      and for payloads that can be told apart, some payload is sent more often than it was
      spooled exactly if replay sends one that it has sent before and left on the disk. */
  lemma SentTooOftenIff(run: Run)
    requires Legal(run) && AllWhole(run) && Distinct(Exec(run).spooled)
    ensures TooOften(Exec(run).sent, Exec(run).spooled) <==> Resends(run)
  {
    if Resends(run) {
      var p := ResentIsSentTwice(run);
      DistinctCount(Exec(run).spooled, p);
    } else {
      NotResentIsWithin(run);
    }
  }

  // ---- The place of each send ----------------------------------------------

  /** The place, in the order of spooling, of the payload that each send was for: the
      committed ones are ahead of it, and those sent before it from the open segment. */
  ghost function Sends(run: Run): seq<nat>
    requires Legal(run)
  {
    match run
    case Begun(_) => []
    case Then(before, last) =>
      Sends(before) + Places(Exec(before), last)
  }

  ghost function Places(s: State, step: Step): seq<nat>
    requires Enabled(s, step)
  {
    if step.SendOk? then [|s.committed| + s.phase.done] else []
  }

  /** Replay has sent something after a partly sent segment was left as it was. */
  ghost predicate SentAgain(run: Run)
    requires Legal(run)
  {
    run.Then? && (SentAgain(run.before) || (run.last.SendOk? && !Clean(run.before)))
  }

  lemma SplitAt(committed: seq<string>, lines: seq<string>, rest: seq<string>, n: nat)
    requires n < |lines|
    ensures |committed| + n < |committed + (lines + rest)|
    ensures (committed + (lines + rest))[|committed| + n] == lines[n]
  {
  }

  lemma NextSent(s: State)
    requires PhaseInv(s) && InOrder(s) && s.phase.Draining? && s.phase.done < |s.phase.lines|
    ensures |s.committed| + s.phase.done < |s.spooled|
    ensures s.spooled[|s.committed| + s.phase.done] == s.phase.lines[s.phase.done]
  {
    var names, seg := s.phase.Remaining(), s.phase.seg;
    assert names[0] == seg;
    RemoveDisk(s.files, names);
    SplitAt(s.committed, s.phase.lines, Contents(s.files - {seg}), s.phase.done);
  }

  predicate Placed(places: seq<nat>, sent: seq<string>, spooled: seq<string>) {
    && |places| == |sent|
    && forall k :: 0 <= k < |places| ==> places[k] < |spooled| && sent[k] == spooled[places[k]]
  }

  lemma PlacedGrows(places: seq<nat>, more: seq<nat>, sent: seq<string>, after: seq<string>,
                    spooled: seq<string>, later: seq<string>)
    requires Placed(places, sent, spooled) && spooled <= later
    requires (more == [] && after == sent)
          || (|more| == 1 && more[0] < |spooled| && after == sent + [spooled[more[0]]])
    ensures Placed(places + more, after, later)
  {
  }

  lemma PlacedStep(s: State, step: Step, places: seq<nat>)
    requires PhaseInv(s) && InOrder(s) && Enabled(s, step) && Placed(places, s.sent, s.spooled)
    ensures Placed(places + Places(s, step), Next(s, step).sent, Next(s, step).spooled)
  {
    hide Placed, InOrder;
    SentHistory(s, step);
    if step.SendOk? {
      NextSent(s);
    }
    hide PhaseInv, Enabled, Next;
    PlacedGrows(places, Places(s, step), s.sent, Next(s, step).sent, s.spooled, Next(s, step).spooled);
  }

  /** On a clock that does not run backwards each send is of the payload spooled at its
      place. */
  lemma {:induction false} SendsAre(run: Run)
    requires Legal(run) && Timely(run) && AllWhole(run)
    ensures Placed(Sends(run), Exec(run).sent, Exec(run).spooled)
  {
    match run
    case Begun(_) =>
    case Then(before, last) =>
      SendsAre(before);
      FirstInFirstOut(before);
      SendsAccounted(before);
      hide PhaseInv, InOrder, Placed, Enabled;
      PlacedStep(Exec(before), last, Sends(before));
  }

  function Upto(n: nat): seq<nat> {
    seq(n, i requires 0 <= i < n => i)
  }

  function Front(s: State): nat {
    |s.committed| + |s.phase.InFlight()|
  }

  lemma FrontOfSend(s: State)
    requires PhaseInv(s) && Enabled(s, SendOk)
    ensures Front(s) == |s.committed| + s.phase.done && Front(Next(s, SendOk)) == Front(s) + 1
  {
    var t := Next(s, SendOk);
    assert t.committed == s.committed;
    assert |s.phase.InFlight()| == s.phase.done && |t.phase.InFlight()| == s.phase.done + 1;
  }

  lemma FrontOfRepeat(s: State, step: Step)
    requires Enabled(s, step) && Repeats(s, step)
    ensures Front(Next(s, step)) < Front(s)
  {
    var t := GiveUp(s);
    assert Next(s, step) == t && t.committed == s.committed && t.phase.InFlight() == [];
  }

  lemma FrontStays(s: State, step: Step)
    requires PhaseInv(s) && Enabled(s, step) && !step.SendOk? && !Repeats(s, step)
    ensures Front(Next(s, step)) == Front(s)
  {
    var t := Next(s, step);
    if step.WriteBack? || step.Remove? {
      assert t.phase.InFlight() == [] && t.committed == s.committed + s.phase.InFlight();
    } else {
      assert t.committed == s.committed && t.phase.InFlight() == s.phase.InFlight();
    }
  }

  /** How the front of what replay has sent and will not send again moves. */
  lemma FrontMoves(s: State, step: Step)
    requires PhaseInv(s) && Enabled(s, step)
    ensures Places(s, step) == if step.SendOk? then [Front(s)] else []
    ensures step.SendOk? ==> Front(Next(s, step)) == Front(s) + 1
    ensures Repeats(s, step) ==> Front(Next(s, step)) < Front(s)
    ensures !step.SendOk? && !Repeats(s, step) ==> Front(Next(s, step)) == Front(s)
  {
    if step.SendOk? {
      FrontOfSend(s);
    } else if Repeats(s, step) {
      FrontOfRepeat(s, step);
    } else {
      FrontStays(s, step);
    }
  }

  /** A clean run has sent all places once, in order, up to its front. One that is not
      clean has sent places beyond its front, and what it sends next is one of them. */
  ghost predicate Sent(clean: bool, again: bool, front: nat, places: seq<nat>) {
    && (clean ==> !again && places == Upto(front))
    && (!clean && !again ==> front < |places| && places == Upto(|places|))
    && (again ==> !Distinct(places))
  }

  lemma SentOneMore(clean: bool, again: bool, front: nat, places: seq<nat>)
    requires Sent(clean, again, front, places)
    ensures Sent(clean, again || !clean, front + 1, places + [front])
  {
    var more := places + [front];
    if clean {
      assert Upto(front) + [front] == Upto(front + 1);
    } else if again {
      var i, j :| 0 <= i < j < |places| && places[i] == places[j];
      assert more[i] == more[j];
    } else {
      assert more[front] == more[|places|];
    }
  }

  lemma SentStep(clean: bool, again: bool, front: nat, places: seq<nat>, sendOk: bool, repeats: bool,
                 more: seq<nat>, next: nat)
    requires Sent(clean, again, front, places)
    requires more == if sendOk then [front] else []
    requires sendOk ==> !repeats && next == front + 1
    requires repeats ==> next < front
    requires !sendOk && !repeats ==> next == front
    ensures Sent(clean && !repeats, again || (sendOk && !clean), next, places + more)
  {
    if sendOk {
      SentOneMore(clean, again, front, places);
    } else {
      assert places + [] == places;
    }
  }

  lemma {:induction false} SentHolds(run: Run)
    requires Legal(run)
    ensures Sent(Clean(run), SentAgain(run), Front(Exec(run)), Sends(run))
  {
    match run
    case Begun(_) =>
    case Then(before, last) =>
      SentHolds(before);
      SendsAccounted(before);
      var s := Exec(before);
      FrontMoves(s, last);
      SentStep(Clean(before), SentAgain(before), Front(s), Sends(before), last.SendOk?, Repeats(s, last),
               Places(s, last), Front(Next(s, last)));
  }

  /** On a clock that does not run backwards, equal payloads or not: no place is sent twice
      exactly if replay sends nothing after it has left a partly sent segment unchanged. */
  lemma NothingSentTwiceIff(run: Run)
    requires Legal(run) && Timely(run) && AllWhole(run)
    ensures Placed(Sends(run), Exec(run).sent, Exec(run).spooled)
    ensures Distinct(Sends(run)) <==> !SentAgain(run)
  {
    SendsAre(run);
    SentHolds(run);
    if !SentAgain(run) {
      assert Sends(run) == Upto(|Sends(run)|);
    }
  }

  /** A segment with two equal payloads. */
  const TWICE: string := Segment(["a", "a"])

  lemma TwoLines()
    ensures SpoolLines(TWICE) == ["a", "a"]
  {
    assert !IsSpace("a"[0]) && Frameable("a");
    hide RawLines, KeepNonBlank, Blank, IsSpace, Segment;
    SegmentRoundTrip(["a", "a"]);
  }

  /** A replay that sends one line of the only segment. */
  function SendingOne(run: Run): Run {
    Then(Then(Then(run, List([0])), Open(true)), SendOk)
  }

  lemma SendOne(run: Run, s: State, content: string)
    requires Legal(run) && Exec(run) == s && s.phase.Idle? && s.files == map[0 := content] && SpoolLines(content) != []
    ensures var lines := SpoolLines(content);
            && Legal(SendingOne(run))
            && Exec(SendingOne(run)) == s.(phase := Draining(0, lines, 1, []), mark := |s.spooled|,
                                           received := s.received + [lines[0]], sent := s.sent + [lines[0]])
  {
    var listed := Then(run, List([0]));
    assert [0][1..] == [] && Sort([0]) == [0];
    assert Legal(listed) && Exec(listed) == s.(phase := Walking([0]), mark := |s.spooled|);
    var open := Then(listed, Open(true));
    assert Legal(open) && Exec(open) == s.(phase := Draining(0, SpoolLines(content), 0, []), mark := |s.spooled|);
  }

  lemma SameHistory(run: Run)
    requires Legal(run) && Legal(SendingOne(run)) && Timely(run)
    ensures Timely(SendingOne(run))
    ensures !Clean(run) ==> SentAgain(SendingOne(run))
    ensures AllWhole(run) ==> AllWhole(SendingOne(run))
  {
    assert Timely(Then(Then(run, List([0])), Open(true)));
  }

  lemma AbortOne(run: Run, s: State)
    requires Legal(run) && Exec(run) == s && s.phase.Draining? && s.phase.InFlight() != []
    requires Timely(run) && AllWhole(run)
    ensures var aborted := Then(run, Abort);
            Legal(aborted) && Timely(aborted) && AllWhole(aborted) && !Clean(aborted) && Exec(aborted) == GiveUp(s)
  {
    assert Repeats(s, Abort);
  }

  lemma SpooledTwice() returns (run: Run)
    ensures Legal(run) && Timely(run) && AllWhole(run)
    ensures Exec(run) == State(map[0 := TWICE], 0, Idle, [], ["a", "a"], [], [], [], [], 0)
  {
    TwoLines();
    ContentsOfOne(map[0 := TWICE], 0);
    run := Begun(State(map[0 := TWICE], 0, Idle, [], ["a", "a"], [], [], [], [], 0));
  }

  lemma SentOnce() returns (run: Run)
    ensures Legal(run) && Timely(run) && AllWhole(run)
    ensures Exec(run) == State(map[0 := TWICE], 0, Draining(0, ["a", "a"], 1, []), ["a"], ["a", "a"], [], ["a"], [], [], 2)
  {
    TwoLines();
    var before := SpooledTwice();
    SendOne(before, Exec(before), TWICE);
    SameHistory(before);
    run := SendingOne(before);
  }

  /** The first of two equal payloads is sent, and the replay aborted. */
  lemma SentAndAborted() returns (run: Run)
    ensures Legal(run) && Timely(run) && AllWhole(run) && !Clean(run)
    ensures Exec(run) == State(map[0 := TWICE], 0, Idle, ["a"], ["a", "a"], [], ["a"], [], ["a"], 2)
  {
    var once := SentOnce();
    assert Exec(once).phase.InFlight() == ["a", "a"][..1] == ["a"];
    AbortOne(once, Exec(once));
    run := Then(once, Abort);
  }

  /** Equal payloads can hide it: the first of two is sent again after an abort, and yet
      the two have not been sent more often than they were spooled. */
  lemma EqualPayloadsHide() returns (run: Run)
    ensures Legal(run) && Timely(run) && AllWhole(run) && SentAgain(run) && Resends(run)
    ensures !TooOften(Exec(run).sent, Exec(run).spooled)
  {
    TwoLines();
    var aborted := SentAndAborted();
    SendOne(aborted, Exec(aborted), TWICE);
    SameHistory(aborted);
    run := SendingOne(aborted);
    assert ["a"] + ["a"] == ["a", "a"];
  }
}
