/** What polling the audit log on a closed channel comes to: nothing is handed over, and
    yet the polls go on, so that the date cursor can pass any entry there is. */
module ClosedChannel {
  import opened Wrappers
  import opened StateStore
  import opened Dedup
  import opened Audit
  import AuditPolls
  import opened AuditRuns
  import Json

  // ---- Between two polls ---------------------------------------------------

  /** No poll is under way, the channel is closed, and there is a date cursor. */
  predicate Stuck(w: World) {
    Steady(w) && w.poll.Idle? && !w.view.open && w.first.Some?
  }

  /** Nothing that the promise is about has changed. */
  predicate Same(w: World, t: World) {
    && t.view.sent == w.view.sent && t.log == w.log && t.first == w.first
    && GetInt(t.view.store, OLDEST_KEY) == GetInt(w.view.store, OLDEST_KEY)
  }

  /** Stuck in the middle of a listing. */
  predicate At(w: World, snap: Snap) {
    && Stuck(w) && snap.pos <= |snap.list|
    && Persisted(w.view.store).Some?
    && w.tokens[Persisted(w.view.store).value] == snap
  }

  lemma {:induction false} LongerThanAll(keys: set<string>) returns (t: string)
    ensures t != "" && forall k :: k in keys ==> |k| < |t|
  {
    if keys == {} {
      t := "x";
    } else {
      var k :| k in keys;
      t := LongerThanAll(keys - {k});
      if |k| >= |t| {
        t := k + "x";
      }
    }
  }

  lemma FreshToken(tokens: map<string, Snap>) returns (t: string)
    ensures t != "" && t !in tokens
  {
    t := LongerThanAll(tokens.Keys);
  }

  predicate Suppressed(w: World, entry: Entry) {
    entry.id.Some? ==> entry.id.value in Window(w.view.accepted, CAPACITY)
  }

  // ---- One entry a poll ----------------------------------------------------

  /** A poll that fetches one entry on a closed channel. */
  function OneEntry(run: Run, token: string): Run {
    Then(Then(run, Start(0)), Fetch([], 1, Some(token), 0, true, false))
  }

  lemma PollOne(run: Run, snap: Snap, token: string)
    requires Legal(run) && At(Exec(run), snap) && snap.pos < |snap.list| && token != "" && token !in Exec(run).tokens
    ensures Legal(OneEntry(run, token))
    ensures var w, t := Exec(run), Exec(OneEntry(run, token));
            var (v, poll) := HandleReply(w.view, Begin(w.view.store, 0), Page([snap.list[snap.pos]], Some(token), 0, true, false));
            && t.view == v && t.poll == poll && t.log == w.log && t.first == w.first
            && t.tokens == w.tokens[token := snap.(pos := snap.pos + 1)]
  {
    var w, started := Exec(run), Then(run, Start(0));
    var s := w.(poll := Begin(w.view.store, 0), asked := Bound(w.view.store, 0));
    assert Legal(started) && Exec(started) == s;
    var fetch := Fetch([], 1, Some(token), 0, true, false);
    assert Answers(s, fetch);
    assert Entries(s, fetch) == [snap.list[snap.pos]];
  }

  lemma HandleOne(v: View, entry: Entry)
    requires !v.open
    ensures var (w, mark) := HandleEntry(v, entry, false);
            HandleEntries(v, [entry], 0, 0) == Outcome(w, mark.Refused?)
  {
  }

  /** An entry that is suppressed is skipped, and the listing read on. */
  lemma Skip(run: Run, snap: Snap) returns (more: Run)
    requires Legal(run) && At(Exec(run), snap) && snap.pos < |snap.list| && Suppressed(Exec(run), snap.list[snap.pos])
    ensures Legal(more) && Extends(run, more)
    ensures At(Exec(more), snap.(pos := snap.pos + 1)) && Same(Exec(run), Exec(more))
  {
    var w := Exec(run);
    var token := FreshToken(w.tokens);
    PollOne(run, snap, token);
    HandleOne(w.view, snap.list[snap.pos]);
    var polled := OneEntry(run, token);
    assert Exec(polled).view == w.view.(store := w.view.store[CURSOR_KEY := token]);
    more := Then(polled, Reject);
    RunSteady(more);
    assert Extends(run, more) by { assert Extends(run, polled.before); }
  }

  /** An entry that is not is refused, and suppressed from then on. */
  lemma Remembered(run: Run, snap: Snap) returns (more: Run)
    requires Legal(run) && At(Exec(run), snap) && snap.pos < |snap.list| && !Suppressed(Exec(run), snap.list[snap.pos])
    ensures Legal(more) && Extends(run, more)
    ensures At(Exec(more), snap) && Same(Exec(run), Exec(more)) && Suppressed(Exec(more), snap.list[snap.pos])
  {
    var w, entry := Exec(run), snap.list[snap.pos];
    var token := FreshToken(w.tokens);
    PollOne(run, snap, token);
    HandleOne(w.view, entry);
    more := OneEntry(run, token);
    var accepted := w.view.accepted + [entry.id.value];
    assert Exec(more).view == w.view.(accepted := accepted);
    assert accepted[|accepted| - 1] == entry.id.value;
    assert Window(accepted, CAPACITY)[|Window(accepted, CAPACITY)| - 1] == entry.id.value;
    RunSteady(more);
    assert Extends(run, more) by { assert Extends(run, more.before); }
  }

  /** Entry by entry, any part of a listing can be read on the closed channel. */
  lemma {:induction false} ReadTo(run: Run, snap: Snap, goal: nat) returns (more: Run)
    requires Legal(run) && At(Exec(run), snap) && snap.pos <= goal <= |snap.list|
    ensures Legal(more) && Extends(run, more)
    ensures At(Exec(more), snap.(pos := goal)) && Same(Exec(run), Exec(more))
    decreases goal - snap.pos
  {
    if snap.pos == goal {
      more := run;
    } else {
      var ready := run;
      if !Suppressed(Exec(run), snap.list[snap.pos]) {
        ready := Remembered(run, snap);
      }
      var next := Skip(ready, snap);
      more := ReadTo(next, snap.(pos := snap.pos + 1), goal);
      ExtendsFurther(run, ready, next);
      ExtendsFurther(run, next, more);
    }
  }

  // ---- Ending a listing ----------------------------------------------------

  /** A poll that reads the last `count` entries of the listing. */
  function LastPage(run: Run, count: nat): Run {
    Then(Then(run, Start(0)), Fetch([], count, None, 0, true, true))
  }

  lemma Ended(run: Run, snap: Snap, count: nat)
    requires Legal(run) && At(Exec(run), snap) && snap.pos + count == |snap.list|
    requires var w, rest := Exec(run), snap.list[snap.pos..]; HandleEntries(w.view, rest, 0, 0) == Outcome(w.view, false)
    ensures Legal(LastPage(run, count))
    ensures var w, t := Exec(run), Exec(LastPage(run, count));
            var stored := GetInt(w.view.store, OLDEST_KEY).value;
            && Stuck(t) && t.view.sent == w.view.sent && t.log == w.log && t.first == w.first
            && Persisted(t.view.store).None?
            && GetInt(t.view.store, OLDEST_KEY) == Some(Newest(snap.list[snap.pos..], 0, stored))
  {
    var w, started := Exec(run), Then(run, Start(0));
    var s := w.(poll := Begin(w.view.store, 0), asked := Bound(w.view.store, 0));
    assert Legal(started) && Exec(started) == s;
    var fetch := Fetch([], count, None, 0, true, true);
    assert Answers(s, fetch);
    assert Entries(s, fetch) == snap.list[snap.pos..];
    var n := Newest(snap.list[snap.pos..], 0, GetInt(w.view.store, OLDEST_KEY).value);
    SetThenGet(w.view.store, OLDEST_KEY, n);
    var store := w.view.store[OLDEST_KEY := Print(n)];
    assert GetInt(store[CURSOR_KEY := ""], OLDEST_KEY) == GetInt(store, OLDEST_KEY);
    RunSteady(LastPage(run, count));
  }

  lemma ExtendsByTwo(run: Run, a: Step, b: Step)
    ensures Extends(run, Then(Then(run, a), b))
  {
    assert Extends(run, Then(run, a));
  }

  /** The listing under way, if there is one, can be read to its end. */
  lemma ReadOut(run: Run) returns (more: Run)
    requires Legal(run) && Stuck(Exec(run))
    ensures Legal(more) && Extends(run, more)
    ensures Stuck(Exec(more)) && Same(Exec(run), Exec(more)) && Persisted(Exec(more).view.store).None?
  {
    var c := Persisted(Exec(run).view.store);
    if c.None? {
      more := run;
    } else {
      var snap := Exec(run).tokens[c.value];
      var read := ReadTo(run, snap, |snap.list|);
      var w, end := Exec(read), snap.(pos := |snap.list|);
      assert end.list[end.pos..] == [];
      Ended(read, end, 0);
      more := LastPage(read, 0);
      ExtendsByTwo(read, Start(0), Fetch([], 0, None, 0, true, true));
      ExtendsFurther(run, read, more);
    }
  }

  // ---- Passing everything --------------------------------------------------

  const LATEST: I64 := 0x7FFF_FFFF_FFFF_FFFF

  /** An entry without id, dated as late as can be. */
  const MARKER: Entry := Entry(None, Some(LATEST), Json.Null)

  /** The log grows by the marker, and a new listing of all of it is begun. */
  function Relisted(run: Run, listing: seq<Entry>, token: string): Run {
    Then(Then(Then(Then(run, Grow(MARKER)), Start(0)), Fetch(listing, 0, Some(token), 0, true, false)), Reject)
  }

  lemma Relist(run: Run, token: string)
    requires Legal(run) && Stuck(Exec(run)) && Persisted(Exec(run).view.store).None?
    requires token != "" && token !in Exec(run).tokens
    ensures var w := Exec(run);
            var log := w.log + [MARKER];
            var more := Relisted(run, log, token);
            && Legal(more) && Extends(run, more)
            && At(Exec(more), Snap(log, 0, log, GetInt(w.view.store, OLDEST_KEY).value))
            && Same(w.(log := log), Exec(more))
  {
    var w := Exec(run);
    var log := w.log + [MARKER];
    var grown := Then(run, Grow(MARKER));
    assert Legal(grown) && Exec(grown) == w.(log := log);
    var started := Then(grown, Start(0));
    var s := w.(log := log, poll := Begin(w.view.store, 0), asked := Bound(w.view.store, 0));
    assert Legal(started) && Exec(started) == s;
    var fetch := Fetch(log, 0, Some(token), 0, true, false);
    assert Answers(s, fetch) && Entries(s, fetch) == [];
    assert HandleEntries(w.view, [], 0, 0) == Outcome(w.view, false);
    var fetched := Then(started, fetch);
    assert Exec(fetched).view == w.view.(store := w.view.store[CURSOR_KEY := token]);
    RunSteady(Relisted(run, log, token));
    assert Extends(run, grown) && Extends(run, started) && Extends(run, fetched);
  }

  lemma MarkerSkipped(v: View)
    requires !v.open
    ensures HandleEntries(v, [MARKER], 0, 0) == Outcome(v, false)
  {
    HandleOne(v, MARKER);
  }

  /** Polling on after the channel has closed can move the date cursor to the end of time
      without handing over anything. */
  lemma CursorRunsAway(run: Run) returns (more: Run)
    requires Legal(run) && Stuck(Exec(run))
    ensures Legal(more) && Extends(run, more)
    ensures var w, t := Exec(run), Exec(more);
            && t.view.sent == w.view.sent && w.log <= t.log && t.first == w.first
            && GetInt(t.view.store, OLDEST_KEY) == Some(LATEST)
  {
    var out := ReadOut(run);
    var w := Exec(out);
    var token := FreshToken(w.tokens);
    Relist(out, token);
    var log, stored := w.log + [MARKER], GetInt(w.view.store, OLDEST_KEY).value;
    var listed := Relisted(out, log, token);
    var snap := Snap(log, 0, log, stored);
    var read := ReadTo(listed, snap, |log| - 1);
    var end := snap.(pos := |log| - 1);
    assert end.list[end.pos..] == [MARKER];
    MarkerSkipped(Exec(read).view);
    Ended(read, end, 1);
    AuditPolls.NewestIs([MARKER], 0, stored);
    more := LastPage(read, 1);
    ExtendsByTwo(read, Start(0), Fetch([], 1, None, 0, true, true));
    ExtendsFurther(run, out, listed);
    ExtendsFurther(run, listed, read);
    ExtendsFurther(run, read, more);
  }

  /** An entry that no-loss speaks about has been passed. */
  predicate PassedEntry(w: World, i: nat) {
    && i < |w.log| && w.log[i].id.Some? && w.log[i].date.Some?
    && w.first.Some? && GetInt(w.view.store, OLDEST_KEY).Some?
    && w.first.value <= w.log[i].date.value < GetInt(w.view.store, OLDEST_KEY).value
    && !HandedId(w.view.sent, w.log[i].id.value)
  }

  /** That polls start on an open channel only is the exact condition of no-loss: from
      every idle state of every run on a closed channel, every entry that was not handed
      over and is dated at or after the first cursor can be passed by polling on. */
  lemma ClosedChannelPasses(run: Run, i: nat) returns (more: Run)
    requires Legal(run) && Exec(run).poll.Idle? && !Exec(run).view.open
    requires var w := Exec(run);
             && i < |w.log| && w.log[i].id.Some? && w.log[i].date.Some? && w.first.Some?
             && w.first.value <= w.log[i].date.value < LATEST
             && !HandedId(w.view.sent, w.log[i].id.value)
    ensures Legal(more) && Extends(run, more)
    ensures Exec(run).log <= Exec(more).log && PassedEntry(Exec(more), i)
  {
    RunSteady(run);
    more := CursorRunsAway(run);
  }
}
