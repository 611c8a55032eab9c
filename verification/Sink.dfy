/** The analysisd socket sink. Socket, disk and clock answer as the scripts passed to
    the methods say, so a statement about a method is one about every such script.
    The ghost log of steps ties what the methods do to the step system in Spool. */
module Sink {
  import opened Wrappers
  import opened Framing
  import opened Disk
  import opened Spool
  import Event
  import Wire

  datatype Io = Success | WouldBlock | Failure

  /** What the socket calls of one attempt return, as far as they are made. */
  datatype Attempt = Attempt(first: Io, reconnect: Io, second: Io)
  {
    /** The first send gets through, or the one after a reconnect. */
    predicate Delivers() {
      first.Success? || (first.Failure? && reconnect.Success? && second.Success?)
    }

    /** The last call made reports a full queue. */
    predicate MeetsFullQueue() {
      || first.WouldBlock?
      || (first.Failure? && (reconnect.WouldBlock? || (reconnect.Success? && second.WouldBlock?)))
    }
  }

  /** Outcome of sending with at most one reconnect. A full queue, wherever it is
      reported, is left to the caller. */
  function Verdict(a: Attempt): Io {
    match a
    case Attempt(Failure, Success, second) => second
    case Attempt(Failure, reconnect, _) => reconnect
    case Attempt(first, _, _) => first
  }

  const MAX_ATTEMPTS: nat := 5

  /** The first attempt, from the given one on, that meets no full queue. */
  function FirstSettled(attempts: nat -> Attempt, from: nat): (k: nat)
    requires from <= MAX_ATTEMPTS
    ensures from <= k <= MAX_ATTEMPTS
    ensures forall j :: from <= j < k ==> Verdict(attempts(j)) == WouldBlock
    ensures k < MAX_ATTEMPTS ==> Verdict(attempts(k)) != WouldBlock
    decreases MAX_ATTEMPTS - from
  {
    if from == MAX_ATTEMPTS || Verdict(attempts(from)) != WouldBlock then from
    else FirstSettled(attempts, from + 1)
  }

  /** The pause after attempt `k`, counted from zero, in milliseconds. */
  function Pause(k: nat): nat { Min(25 * Pow2(k), 1000) }

  /** Doubling the last pause up to the limit gives the next one. */
  lemma PauseNext(k: nat)
    ensures Pause(k + 1) == Min(Pause(k) * 2, 1000)
  {
    assert Pow2(k + 1) == 2 * Pow2(k);
  }

  function Pauses(k: nat): nat { if k == 0 then 0 else Pauses(k - 1) + Pause(k - 1) }

  lemma PausesBound(k: nat)
    requires k <= MAX_ATTEMPTS
    ensures Pauses(k) <= 775 && (k == MAX_ATTEMPTS ==> Pauses(k) == 775)
  {
    assert Pauses(0) == 0;
    assert Pow2(0) == 1 && Pow2(1) == 2 && Pow2(2) == 4 && Pow2(3) == 8 && Pow2(4) == 16;
    assert Pauses(1) == 25;
    assert Pauses(2) == 75;
    assert Pauses(3) == 175;
    assert Pauses(4) == 375;
    assert Pauses(5) == 775;
  }

  /** How an emitted event ends up; only `Lost` is reported as an error. */
  datatype Fate = Delivered | Spooled | Lost

  /** The answer the retries end with; a full queue if every attempt met one. */
  function AttemptsVerdict(attempts: nat -> Attempt): Io {
    var k := FirstSettled(attempts, 0);
    if k < MAX_ATTEMPTS then Verdict(attempts(k)) else WouldBlock
  }

  function EmitFate(attempts: nat -> Attempt, spoolable: bool): Fate {
    if AttemptsVerdict(attempts).Success? then Delivered else if spoolable then Spooled else Lost
  }

  lemma VerdictIs(a: Attempt)
    ensures Verdict(a).Success? <==> a.Delivers()
    ensures Verdict(a).WouldBlock? <==> a.MeetsFullQueue()
  {
  }

  /** In what the socket answers: delivery happens exactly when some attempt of the five
      gets through after nothing but full queues; without it the event is spooled exactly
      when it can be. */
  lemma EmitOutcome(attempts: nat -> Attempt, spoolable: bool)
    ensures EmitFate(attempts, spoolable).Delivered? <==>
              exists k :: 0 <= k < 5 && attempts(k).Delivers() && forall j :: 0 <= j < k ==> attempts(j).MeetsFullQueue()
    ensures EmitFate(attempts, spoolable).Spooled? <==> !EmitFate(attempts, spoolable).Delivered? && spoolable
  {
    var k := FirstSettled(attempts, 0);
    forall i: nat {
      VerdictIs(attempts(i));
    }
    forall i | 0 <= i < 5 && attempts(i).Delivers() && forall j :: 0 <= j < i ==> attempts(j).MeetsFullQueue()
      ensures k == i
    {
      SettledAt(attempts, 0, i);
    }
  }

  lemma {:induction false} SettledAt(attempts: nat -> Attempt, from: nat, i: nat)
    requires from <= i < MAX_ATTEMPTS && !Verdict(attempts(i)).WouldBlock?
    requires forall j :: from <= j < i ==> Verdict(attempts(j)).WouldBlock?
    ensures FirstSettled(attempts, from) == i
    decreases i - from
  {
    if from < i {
      SettledAt(attempts, from + 1, i);
    }
  }

  /** Answers met by one replay. `others` are the payloads, with their hour stamps,
      that emitters append before the segment with that number is locked. */
  datatype ReplayScript = ReplayScript(
    readable: nat -> bool,
    sends: (nat, nat) -> Attempt,
    writable: bool,
    removable: nat -> bool,
    others: nat -> seq<(string, nat)>)
  {
    /** Nothing fails while the segment with that number is drained. */
    ghost predicate Fine(k: nat) {
      readable(k) && removable(k) && forall i: nat :: sends(k, i).Delivers()
    }
  }

  class UnixSocketSink {
    const hasSpool: bool
    var connection: nat
    var analysisd: seq<string>
    var files: map<nat, string>
    ghost var now: State
    ghost var whole: bool

    /** The ghost state is one that the step system can reach, and what it says about
        the disk and about analysisd is what is there. */
    ghost predicate Logged()
      reads `analysisd, `files, `now, `whole
    {
      Reached(now, whole) && now.files == files && now.received == analysisd
    }

    ghost predicate Valid()
      reads `analysisd, `files, `now, `whole
    {
      Logged() && now.phase.Idle?
    }

    /** The segments of an earlier process are taken over as they are, whatever they hold. */
    constructor (hasSpool: bool, files: map<nat, string>, hour: nat)
      requires forall h :: h in files ==> h <= hour
      ensures Valid() && whole && this.hasSpool == hasSpool && this.files == files
      ensures analysisd == [] && now.spooled == Contents(files)
    {
      var s := State(files, hour, Idle, [], Contents(files), [], [], [], [], 0);
      this.hasSpool := hasSpool;
      connection := 0;
      analysisd := [];
      this.files := files;
      now := s;
      whole := true;
      new;
      ghost var run: Run := Begun(s);
      assert Legal(run) && Exec(run) == s && AllWhole(run);
    }

    ghost method Log(step: Step)
      requires Reached(now, whole) && Enabled(now, step)
      modifies `now, `whole
      ensures now == Next(old(now), step) && Reached(now, whole)
      ensures whole == (old(whole) && WholeStep(old(now), step))
    {
      ReachedNext(now, whole, step);
      whole := whole && WholeStep(now, step);
      now := Next(now, step);
    }

    method TrySend(payload: string, answer: Io) returns (r: Io)
      modifies this`analysisd
      ensures r == answer
      ensures analysisd == if r.Success? then old(analysisd) + [payload] else old(analysisd)
    {
      r := answer;
      if answer.Success? {
        analysisd := analysisd + [payload];
      }
    }

    /** One attempt delivers the payload once or not at all. */
    method SendReconnecting(payload: string, a: Attempt) returns (r: Io, sends: nat)
      modifies this`analysisd, this`connection
      ensures r == Verdict(a)
      ensures r.Success? <==> a.first.Success? || (a.first.Failure? && a.reconnect.Success? && a.second.Success?)
      ensures r.WouldBlock? <==>
                || a.first.WouldBlock?
                || (a.first.Failure? && (a.reconnect.WouldBlock? || (a.reconnect.Success? && a.second.WouldBlock?)))
      ensures sends == if a.first.Failure? && a.reconnect.Success? then 2 else 1
      ensures analysisd == if r.Success? then old(analysisd) + [payload] else old(analysisd)
      ensures connection != old(connection) <==> a.first.Failure? && a.reconnect.Success?
    {
      sends := 1;
      r := TrySend(payload, a.first);
      if r.Failure? {
        r := a.reconnect;
        if r.Success? {
          connection := connection + 1;
          sends := 2;
          r := TrySend(payload, a.second);
        }
      }
    }

    method SpoolEvent(payload: string, stamp: nat, ok: bool) returns (stored: bool)
      requires Valid() && Frameable(payload)
      modifies this`files, this`now, this`whole
      ensures Valid() && stored == (hasSpool && ok)
      ensures now == if stored then Next(old(now), Append(payload, stamp)) else old(now)
      ensures whole == (old(whole) && (stored ==> Whole(old(files), stamp)))
    {
      if !hasSpool || !ok {
        return false;
      }
      var prior := if stamp in files then files[stamp] else "";
      files := files[stamp := prior + payload + "\n"];
      Log(Append(payload, stamp));
      stored := true;
    }

    /** The retry loop of `emit`: stop at the first answer that is not a full queue. */
    method SendWithBackoff(payload: string, attempts: nat -> Attempt) returns (r: Io, sends: nat, slept: nat)
      modifies this`analysisd, this`connection
      ensures r == AttemptsVerdict(attempts)
      ensures analysisd == if r.Success? then old(analysisd) + [payload] else old(analysisd)
      ensures sends <= 10
      ensures slept == Pauses(FirstSettled(attempts, 0)) <= 775
    {
      var delay := 25;
      var attempt := 0;
      sends, slept := 0, 0;
      PausesBound(FirstSettled(attempts, 0));
      while attempt < MAX_ATTEMPTS
        invariant attempt <= MAX_ATTEMPTS && analysisd == old(analysisd)
        invariant FirstSettled(attempts, 0) == FirstSettled(attempts, attempt)
        invariant delay == Pause(attempt) && sends <= 2 * attempt && slept == Pauses(attempt)
      {
        var n;
        r, n := SendReconnecting(payload, attempts(attempt));
        sends := sends + n;
        if !r.WouldBlock? {
          return;
        }
        slept := slept + delay;
        PauseNext(attempt);
        delay := Min(delay * 2, 1000);
        attempt := attempt + 1;
      }
      r := WouldBlock;
    }

    /** An event is delivered once or spooled once, never both; it is lost only when
        it was not delivered and could not be spooled. */
    method Emit(event: Event.NormalizedEvent, attempts: nat -> Attempt, stamp: nat, spoolOk: bool)
        returns (fate: Fate, sends: nat, slept: nat)
      requires Valid()
      modifies this
      ensures Valid()
      ensures fate == EmitFate(attempts, hasSpool && spoolOk)
      ensures Frameable(Wire.WireFormat(event))
      ensures now == match fate
                case Delivered => Next(old(now), Deliver(Wire.WireFormat(event)))
                case Spooled => Next(old(now), Append(Wire.WireFormat(event), stamp))
                case Lost => old(now)
      ensures whole == (old(whole) && (fate.Spooled? ==> Whole(old(files), stamp)))
      ensures sends <= 10
      ensures slept == Pauses(FirstSettled(attempts, 0)) <= 775
    {
      var payload := Wire.WireFormat(event);
      Wire.WireFrameable(event);
      var r;
      r, sends, slept := SendWithBackoff(payload, attempts);
      if r.Success? {
        Log(Deliver(payload));
        fate := Delivered;
      } else {
        var stored := SpoolEvent(payload, stamp, spoolOk);
        fate := if stored then Spooled else Lost;
      }
    }

    /** The directory in whatever order the file system lists it. */
    method ListDirectory() returns (names: seq<nat>)
      ensures Distinct(names) && forall n :: n in names <==> n in files
    {
      names := [];
      var rest := files.Keys;
      while rest != {}
        invariant Distinct(names) && rest <= files.Keys
        invariant forall n :: n in names <==> n in files && n !in rest
        decreases rest
      {
        var n :| n in rest;
        names := names + [n];
        rest := rest - {n};
      }
    }

    /** Appends of other emitters while the replay task does not hold the lock. */
    method Interleave(batch: seq<(string, nat)>)
      requires Logged() && !now.phase.Locked()
      requires forall i :: 0 <= i < |batch| ==> Frameable(batch[i].0)
      modifies this`files, this`now, this`whole
      ensures Logged()
      ensures now.phase == old(now).phase && now.mark == old(now).mark
      ensures old(now).spooled <= now.spooled && old(files).Keys <= files.Keys
    {
      for i := 0 to |batch|
        invariant Logged()
        invariant now.phase == old(now).phase && now.mark == old(now).mark
        invariant old(now).spooled <= now.spooled && old(files).Keys <= files.Keys
      {
        var payload, stamp := batch[i].0, batch[i].1;
        var prior := if stamp in files then files[stamp] else "";
        files := files[stamp := prior + payload + "\n"];
        Log(Append(payload, stamp));
      }
    }

    /** Send line `n` of the open segment. */
    method SendLine(ghost seg: nat, lines: seq<string>, n: nat, ghost rest: seq<nat>, a: Attempt) returns (sent: bool)
      requires Logged() && n < |lines| && now.phase == Draining(seg, lines, n, rest)
      modifies this`analysisd, this`connection, this`now, this`whole
      ensures Logged() && sent == a.Delivers()
      ensures analysisd == if sent then old(analysisd) + [lines[n]] else old(analysisd)
      ensures now.phase == if sent then Draining(seg, lines, n + 1, rest) else Restoring(seg, lines, n)
      ensures now.mark == old(now).mark && now.spooled == old(now).spooled
    {
      var r, _ := SendReconnecting(lines[n], a);
      sent := r.Success?;
      Log(if sent then SendOk else SendFail);
    }

    /** Send the lines of the open segment up to the first one that does not get through. */
    method SendLines(ghost seg: nat, lines: seq<string>, ghost rest: seq<nat>, k: nat, script: ReplayScript) returns (n: nat)
      requires Logged() && now.phase == Draining(seg, lines, 0, rest)
      modifies this`analysisd, this`connection, this`now, this`whole
      ensures Logged() && n <= |lines| && analysisd == old(analysisd) + lines[..n]
      ensures forall i :: 0 <= i < n ==> script.sends(k, i).Delivers()
      ensures n < |lines| ==> !script.sends(k, n).Delivers()
      ensures now.phase == if n < |lines| then Restoring(seg, lines, n) else Draining(seg, lines, n, rest)
      ensures now.mark == old(now).mark && now.spooled == old(now).spooled
    {
      hide Reached;
      n := 0;
      while n < |lines|
        invariant n <= |lines| && analysisd == old(analysisd) + lines[..n]
        invariant forall i :: 0 <= i < n ==> script.sends(k, i).Delivers()
        invariant Logged()
        invariant now.phase == Draining(seg, lines, n, rest)
        invariant now.mark == old(now).mark && now.spooled == old(now).spooled
      {
        var sent := SendLine(seg, lines, n, rest, script.sends(k, n));
        if !sent {
          return;
        }
        OneMore(old(analysisd), lines, n);
        n := n + 1;
      }
    }

    /** Drain one segment under the lock. Either all of it reaches analysisd and the
        segment goes, or a prefix does and the segment keeps the rest; only a failed
        write or removal leaves the segment as it was. */
    method DrainSegment(seg: nat, ghost rest: seq<nat>, k: nat, script: ReplayScript) returns (ok: bool, n: nat)
      requires Logged() && now.phase == Walking([seg] + rest)
      modifies this`analysisd, this`connection, this`files, this`now, this`whole
      ensures Logged()
      ensures now.phase == if ok then Walking(rest) else Idle
      ensures now.mark == old(now).mark && now.spooled == old(now).spooled
      ensures ok <==> script.readable(k) && seg in old(files) && script.removable(k)
                      && forall i :: 0 <= i < |SpoolLines(old(files)[seg])| ==> script.sends(k, i).Delivers()
      ensures ok || n > 0 ==> seg in old(files) && n <= |SpoolLines(old(files)[seg])|
      ensures analysisd == old(analysisd) + (if n > 0 then SpoolLines(old(files)[seg])[..n] else [])
      ensures ok ==> n == |SpoolLines(old(files)[seg])| && files == old(files) - {seg}
      ensures !ok ==> files == old(files)
                      || (seg in old(files) && n < |SpoolLines(old(files)[seg])| && script.writable
                          && files == old(files)[seg := Segment(SpoolLines(old(files)[seg])[n..])])
    {
      if !script.readable(k) || seg !in files {
        Log(Open(script.readable(k)));
        return false, 0;
      }
      var lines := SpoolLines(files[seg]);
      Log(Open(true));
      n := SendLines(seg, lines, rest, k, script);
      if n < |lines| {
        JoinIsSegment(lines[n..]);
        if script.writable {
          files := files[seg := Join(lines[n..], "\n") + "\n"];
        }
        Log(WriteBack(script.writable));
        return false, n;
      }
      if script.removable(k) {
        files := files - {seg};
      }
      Log(Remove(script.removable(k)));
      ok := script.removable(k);
    }

    /** One round of the replay loop: others get at the spool, then the segment is drained. */
    method VisitSegment(seg: nat, ghost rest: seq<nat>, k: nat, script: ReplayScript) returns (ok: bool)
      requires Logged() && now.phase == Walking([seg] + rest)
      requires forall i :: 0 <= i < |script.others(k)| ==> Frameable(script.others(k)[i].0)
      modifies this`analysisd, this`connection, this`files, this`now, this`whole
      ensures Logged() && now.phase == (if ok then Walking(rest) else Idle)
      ensures now.mark == old(now).mark && old(now).spooled <= now.spooled
      ensures old(files).Keys - {seg} <= files.Keys
      ensures seg in old(files) && script.Fine(k) ==> ok
    {
      Interleave(script.others(k));
      var drained, _ := DrainSegment(seg, rest, k, script);
      ok := drained;
    }

    method TakeListing() returns (todo: seq<nat>)
      requires Valid()
      modifies this`now, this`whole
      ensures Logged() && now == old(now).(phase := Walking(todo), mark := |old(now).spooled|)
      ensures Ascending(todo) && forall n :: n in todo <==> n in files
    {
      var names := ListDirectory();
      SortListing(names);
      todo := Sort(names);
      Log(List(names));
    }

    /** One replay. If it reports success, the walk over the listing got to its end; if the
        run is whole, all that was spooled before the replay has then reached analysisd,
        each payload as often as it was spooled, whatever the clock says. */
    method ReplayOnce(script: ReplayScript) returns (drained: bool)
      requires Valid()
      requires forall k: nat, i :: 0 <= i < |script.others(k)| ==> Frameable(script.others(k)[i].0)
      modifies this`analysisd, this`connection, this`files, this`now, this`whole
      ensures Valid() && old(now).spooled <= now.spooled
      ensures drained && whole ==> multiset(old(now).spooled) <= multiset(analysisd)
      ensures (forall k: nat :: script.Fine(k)) ==> drained
    {
      var todo := TakeListing();
      var k := 0;
      while k < |todo|
        invariant k <= |todo|
        invariant Logged() && now.phase == Walking(todo[k..])
        invariant now.mark == |old(now).spooled| && old(now).spooled <= now.spooled
        invariant forall j :: k <= j < |todo| ==> todo[j] in files
      {
        Uncons(todo, k);
        var ok := VisitSegment(todo[k], todo[k + 1..], k, script);
        if !ok {
          return false;
        }
        k := k + 1;
      }
      if whole {
        AllReceived(now, old(now).spooled);
      }
      Log(Finish);
      drained := true;
    }
  }

  lemma OneMore(before: seq<string>, lines: seq<string>, n: nat)
    requires n < |lines|
    ensures before + lines[..n] + [lines[n]] == before + lines[..n + 1]
  {
  }

  lemma Uncons(names: seq<nat>, k: nat)
    requires k < |names|
    ensures names[k..] == [names[k]] + names[k + 1..]
  {
  }

  lemma AllReceived(t: State, before: seq<string>)
    requires Reached(t, true) && t.phase == Walking([])
    requires t.mark == |before| && before <= t.spooled
    ensures multiset(before) <= multiset(t.received)
  {
    var run: Run :| Legal(run) && Exec(run) == t && AllWhole(run);
    FinishedWalkDrains(run);
    assert t.spooled[..t.mark] == before;
  }
}
