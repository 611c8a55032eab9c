/** What audit polls ask for before a date is stored, and what a first poll that goes on in
    the listing of an earlier one comes to. */
module ColdStart {
  import opened Wrappers
  import opened StateStore
  import opened Audit
  import opened AuditRuns
  import Json

  // ---- What a poll asks for ------------------------------------------------

  lemma ExtendsByOne(run: Run, more: Run, step: Step)
    requires Extends(run, more)
    ensures Extends(run, Then(more, step))
  {
  }

  /** Every request of a poll asks for what is dated from the stored date on or, if none was
      stored when the poll was started, from a day before that. */
  lemma {:induction false} PollAsks(run: Run) returns (before: Run, now: Clock)
    requires Legal(run) && AllPrudent(run) && Exec(run).poll.Polling?
    ensures Legal(before) && Extends(Then(before, Start(now)), run)
    ensures var stored := GetInt(Exec(before).view.store, "audit.oldest");
            Exec(run).poll.oldest == Exec(run).asked == if stored.Some? then stored.value else now - 86_400
    ensures Exec(before).log <= Exec(run).log
  {
    RunKeeps(run);
    if run.last.Start? {
      before, now := run.before, run.last.now;
    } else {
      before, now := PollAsks(run.before);
      ExtendsByOne(Then(before, Start(now)), run.before, run.last);
    }
  }

  /** And so does the listing that a cursor goes on with, for the poll that began it. */
  lemma {:induction false} ListingAsks(run: Run, token: string) returns (before: Run, now: Clock)
    requires Legal(run) && AllPrudent(run) && token in Exec(run).tokens
    ensures Legal(before) && Extends(Then(before, Start(now)), run)
    ensures var stored, snap := GetInt(Exec(before).view.store, "audit.oldest"), Exec(run).tokens[token];
            && snap.base == (if stored.Some? then stored.value else now - 86_400)
            && Exec(before).log <= snap.seen <= Exec(run).log
  {
    var w, step := Exec(run.before), run.last;
    hide HandleReply, GetInt, Inv, Lists;
    if token in w.tokens && Exec(run).tokens[token] == w.tokens[token] {
      before, now := ListingAsks(run.before, token);
    } else if w.poll.cursor.Some? {
      before, now := ListingAsks(run.before, w.poll.cursor.value);
    } else {
      before, now := PollAsks(run.before);
    }
    ExtendsByOne(Then(before, Start(now)), run.before, step);
  }

  /** Where the promise of a run that begins without a stored date starts from: the first poll
      to complete and the poll whose listing it read both ask for a day, and the later of
      the two dates counts. They are the same poll unless it goes on with a stored page cursor. */
  lemma FirstIs(run: Run, step: Step) returns (own: Run, now: Clock, listed: Run, at: Clock)
    requires Legal(run) && AllPrudent(run) && Exec(run).first.None?
    requires step.Fetch? && Enabled(Exec(run), step) && Completes(Exec(run), step)
    ensures Legal(own) && Extends(Then(own, Start(now)), run)
    ensures Legal(listed) && Extends(Then(listed, Start(at)), run)
    ensures Served(Exec(run), step.listing).base == at - 86_400
    ensures Next(Exec(run), step).first == Some(if at > now then at - 86_400 else now - 86_400)
    ensures Exec(run).poll.cursor.None? ==> (own, now) == (listed, at)
  {
    own, now := PollAsks(run);
    CompletedWorld(Exec(run), step);
    NoDateYet(run, Then(own, Start(now)));
    if Exec(run).poll.cursor.None? {
      listed, at := own, now;
    } else {
      listed, at := ListingAsks(run, Exec(run).poll.cursor.value);
      NoDateYet(run, Then(listed, Start(at)));
    }
  }

  /** While no date is stored, none was. */
  lemma {:induction false} NoDateYet(run: Run, before: Run)
    requires Legal(run) && AllPrudent(run) && Extends(before, run) && before.Then? && Exec(run).first.None?
    ensures Legal(before) && Legal(before.before) && GetInt(Exec(before.before).view.store, OLDEST_KEY).None?
  {
    RunSteady(run.before);
    if before != run {
      NoDateYet(run.before, before);
    }
  }

  // ---- Going on in an earlier listing --------------------------------------

  /** When a date is stored for the first time, an entry dated from what the listing was asked
      for on is passed only if it has arrived after the listing was made and is dated before
      what the completing poll itself would have asked for. */
  lemma PassedAtColdStart(run: Run, step: Step, i: nat)
    requires Legal(run) && AllPrudent(run) && Exec(run).first.None?
    requires step.Fetch? && Enabled(Exec(run), step) && Completes(Exec(run), step)
    requires var w := Exec(run); i < |w.log| && w.log[i].id.Some? && w.log[i].date.Some?
    requires var w, stored := Exec(run), GetInt(Next(Exec(run), step).view.store, OLDEST_KEY);
             stored.Some? && Served(w, step.listing).base <= w.log[i].date.value < stored.value
    ensures var w := Exec(run);
            || HandedId(Next(w, step).view.sent, w.log[i].id.value)
            || (|Served(w, step.listing).seen| <= i && w.log[i].date.value < w.asked)
  {
    var w, t := Exec(run), Next(Exec(run), step);
    var snap := Served(w, step.listing);
    RunKeeps(run);
    ServedOk(w, step);
    if i < |snap.seen| {
      assert snap.seen[i] == w.log[i];
      CompletedPollHands(run, step, w.log[i]);
    } else if w.asked <= w.log[i].date.value {
      var all := Then(run, step);
      CompletedWorld(w, step);
      NoLoss(all, i);
    }
  }

  lemma {:induction false} TakesAll(v: View, entries: seq<Entry>, i: nat, takes: nat, id: string)
    requires i <= |entries| && v.open && |entries| - i <= takes
    requires !HandedId(v.sent, id) && forall j :: i <= j < |entries| ==> entries[j].id != Some(id)
    ensures var o := HandleEntries(v, entries, i, takes);
            !o.refused && !HandedId(o.view.sent, id)
    decreases |entries| - i
  {
    if i < |entries| {
      var (w, mark) := HandleEntry(v, entries[i], takes > 0);
      TakesAll(w, entries, i + 1, if mark.Handed? then takes - 1 else takes, id);
    }
  }

  lemma {:induction false} NothingNewer(entries: seq<Entry>, i: nat, newest: I64)
    requires i <= |entries|
    requires forall j :: i <= j < |entries| && entries[j].date.Some? ==> entries[j].date.value <= newest
    ensures Newest(entries, i, newest) == newest
    decreases |entries| - i
  {
    if i < |entries| {
      NothingNewer(entries, i + 1, newest);
    }
  }

  /** A first poll that is to go on with the listing of an earlier one: no date is stored, a
      page cursor is, and by now a poll would ask for later entries than the log holds. */
  predicate Resuming(w: World, now: Clock) {
    && w.poll.Idle? && w.view.open && GetInt(w.view.store, OLDEST_KEY).None?
    && Persisted(w.view.store).Some? && Persisted(w.view.store).value in w.tokens
    && forall i :: 0 <= i < |w.log| && w.log[i].date.Some? ==> w.log[i].date.value < now - 86_400
  }

  /** An entry that can still arrive, with an id of its own, dated between what that listing
      was asked for and what a poll would ask for now. */
  predicate InBetween(w: World, now: Clock, e: Entry)
    requires Resuming(w, now)
  {
    && e.id.Some? && e.date.Some? && Enabled(w, Grow(e))
    && w.tokens[Persisted(w.view.store).value].base <= e.date.value < now - 86_400
    && !HandedId(w.view.sent, e.id.value) && forall i :: 0 <= i < |w.log| ==> w.log[i].id != e.id
  }

  function ReadRest(snap: Snap): Step
    requires snap.pos <= |snap.list|
  {
    Fetch([], |snap.list| - snap.pos, None, |snap.list|, true, true)
  }

  lemma ResumedPoll(run: Run, now: Clock, e: Entry) returns (polling: Run, snap: Snap)
    requires Legal(run) && AllPrudent(run) && Resuming(Exec(run), now) && InBetween(Exec(run), now, e)
    ensures polling == Then(Then(run, Start(now)), Grow(e)) && Legal(polling) && AllPrudent(polling)
    ensures var w, t := Exec(run), Exec(polling);
            && snap == w.tokens[Persisted(w.view.store).value]
            && snap.pos <= |snap.list|
            && (forall x :: x in snap.list ==> x in w.log)
            && t.view == w.view && t.log == w.log + [e]
            && t.poll == Polling(now - 86_400, Persisted(w.view.store), now - 86_400)
            && Enabled(t, ReadRest(snap)) && Entries(t, ReadRest(snap)) == snap.list[snap.pos..]
  {
    RunKeeps(run);
    var w, started := Exec(run), Then(run, Start(now));
    snap := w.tokens[Persisted(w.view.store).value];
    var s := w.(poll := Begin(w.view.store, now), asked := Bound(w.view.store, now));
    assert Legal(started) && Exec(started) == s;
    hide Inv, GetInt;
    polling := Then(started, Grow(e));
    assert Legal(polling) && Exec(polling) == s.(log := w.log + [e]);
    assert snap.list[snap.pos..snap.pos + (|snap.list| - snap.pos)] == snap.list[snap.pos..];
  }

  /** It is passed: the resumed poll reads the old listing to its end and stores the date that
      it would have asked for itself. */
  lemma ResumedColdStartPasses(run: Run, now: Clock, e: Entry) returns (more: Run)
    requires Legal(run) && AllPrudent(run) && Resuming(Exec(run), now) && InBetween(Exec(run), now, e)
    ensures Legal(more) && AllPrudent(more) && Extends(run, more)
    ensures var t := Exec(more);
            && t.log == Exec(run).log + [e] && !HandedId(t.view.sent, e.id.value)
            && GetInt(t.view.store, OLDEST_KEY) == Some(now - 86_400)
  {
    var polling, snap := ResumedPoll(run, now, e);
    var w, rest := Exec(polling), snap.list[snap.pos..];
    forall x | x in rest ensures x.id != e.id && (x.date.Some? ==> x.date.value < now - 86_400) {
      assert x in snap.list && x in Exec(run).log;
      var i :| 0 <= i < |Exec(run).log| && Exec(run).log[i] == x;
    }
    TakesAll(w.view, rest, 0, |snap.list|, e.id.value);
    NothingNewer(rest, 0, now - 86_400);
    more := Then(polling, ReadRest(snap));
    CompletedWorld(w, ReadRest(snap));
    assert Extends(run, polling.before);
  }
}
