/** Runs of the audit poller against a server that may answer anything at any time. */
module AuditPolls {
  import opened Wrappers
  import opened StateStore
  import opened Dedup
  import opened Audit

  /** `boot` and `shown` are what had been handed over when the process started and the
      ids returned to it since. */
  datatype State = State(view: View, poll: Poll, boot: nat, shown: set<string>)

  datatype Step = Start(now: Clock) | Answer(reply: Reply) | Restart

  predicate Enabled(s: State, step: Step) {
    match step
    case Start(_) => s.poll.Idle?
    case Answer(_) => s.poll.Polling?
    case Restart => true
  }

  function Ids(entries: seq<Entry>): set<string> {
    set i | 0 <= i < |entries| && entries[i].id.Some? :: entries[i].id.value
  }

  function Next(s: State, step: Step): State
    requires Enabled(s, step)
  {
    match step
    case Start(now) => s.(poll := Begin(s.view.store, now))
    case Answer(reply) =>
      var (v, poll) := HandleReply(s.view, s.poll, reply);
      s.(view := v, poll := poll, shown := if reply.Page? then s.shown + Ids(reply.entries) else s.shown)
    case Restart =>
      State(s.view.(accepted := [], open := true), Idle, |s.view.sent|, {})
  }

  /** A first process over any store, one that an interrupted poll has left included. */
  predicate Initial(s: State) {
    && s.view.accepted == [] && s.view.sent == [] && s.view.open
    && s.poll.Idle? && s.boot == 0 && s.shown == {}
  }

  type Run = History<State, Step>

  predicate Legal(run: Run)
    decreases run, 0
  {
    match run
    case Begun(s) => Initial(s)
    case Then(before, last) => Legal(before) && Enabled(Exec(before), last)
  }

  function Exec(run: Run): State
    requires Legal(run)
    decreases run, 1
  {
    match run
    case Begun(s) => s
    case Then(before, last) => Next(Exec(before), last)
  }

  // ---- What one page does --------------------------------------------------

  lemma {:induction false} EntriesKeep(v: View, entries: seq<Entry>, i: nat, takes: nat)
    requires i <= |entries|
    ensures var o := HandleEntries(v, entries, i, takes);
            o.view.store == v.store && v.sent <= o.view.sent && (!v.open ==> o.view.sent == v.sent && !o.view.open)
    decreases |entries| - i
  {
    if i < |entries| {
      var (w, mark) := HandleEntry(v, entries[i], takes > 0);
      if !mark.Refused? {
        EntriesKeep(w, entries, i + 1, if mark.Handed? then takes - 1 else takes);
      }
    }
  }

  predicate Dates(entries: seq<Entry>, date: I64) {
    exists i :: 0 <= i < |entries| && entries[i].date == Some(date)
  }

  lemma {:induction false} NewestIs(entries: seq<Entry>, i: nat, newest: I64)
    requires i <= |entries|
    ensures var n := Newest(entries, i, newest);
            && newest <= n
            && (n == newest || Dates(entries, n))
            && forall j :: i <= j < |entries| && entries[j].date.Some? ==> entries[j].date.value <= n
    decreases |entries| - i
  {
    if i < |entries| {
      var later := Later(entries[i], newest);
      assert later != newest ==> entries[i].date == Some(later);
      NewestIs(entries, i + 1, later);
    }
  }

  // ---- Rate limits ---------------------------------------------------------

  function Unlimited(script: seq<Reply>): seq<Reply> {
    if script == [] then []
    else (if script[0].RateLimited? then [] else [script[0]]) + Unlimited(script[1..])
  }

  /** A request that is answered with a rate limit is made again, and nothing else: the poll
      comes to the same without such answers. */
  lemma {:induction false} LimitsChangeNothing(v: View, poll: Poll, script: seq<Reply>)
    ensures HandleReplies(v, poll, script) == HandleReplies(v, poll, Unlimited(script))
    decreases |script|
  {
    if poll.Polling? && script != [] {
      var (w, next) := HandleReply(v, poll, script[0]);
      LimitsChangeNothing(w, next, script[1..]);
      if !script[0].RateLimited? {
        assert ([script[0]] + Unlimited(script[1..]))[1..] == Unlimited(script[1..]);
      } else {
        assert [] + Unlimited(script[1..]) == Unlimited(script[1..]);
      }
    }
  }

  /** A request that is rejected ends the poll and changes nothing, however the script would
      go on. */
  lemma RejectionEnds(v: View, poll: Poll, script: seq<Reply>)
    requires poll.Polling? && script != [] && script[0].Rejected?
    ensures HandleReplies(v, poll, script) == (v, Idle)
  {
  }

  // ---- The date cursor -----------------------------------------------------

  function Stored(s: State): Option<I64> {
    GetInt(s.view.store, OLDEST_KEY)
  }

  /** A poll starts from the stored date and only ever looks at later ones. */
  predicate Onward(s: State) {
    s.poll.Polling? ==>
      s.poll.oldest <= s.poll.newest && (Stored(s).Some? ==> s.poll.oldest == Stored(s).value)
  }

  /** The last page of a listing, taken whole and with its date stored. */
  predicate Completes(s: State, step: Step) {
    && step.Answer? && step.reply.Page?
    && !HandleEntries(s.view, step.reply.entries, 0, step.reply.takes).refused
    && step.reply.stored && (step.reply.next.None? || step.reply.next.value == "")
  }

  lemma PageMoves(s: State, step: Step)
    requires Onward(s) && Enabled(s, step) && step.Answer? && step.reply.Page?
    ensures Onward(Next(s, step))
    ensures if Completes(s, step) then Stored(Next(s, step)) == Some(Newest(step.reply.entries, 0, s.poll.newest))
            else Stored(Next(s, step)) == Stored(s)
    ensures s.poll.oldest <= Newest(step.reply.entries, 0, s.poll.newest)
  {
    var entries, n := step.reply.entries, Newest(step.reply.entries, 0, s.poll.newest);
    EntriesKeep(s.view, entries, 0, step.reply.takes);
    NewestIs(entries, 0, s.poll.newest);
    hide HandleEntries, Newest;
    var store := s.view.store;
    if Completes(s, step) {
      SetThenGet(store, OLDEST_KEY, n);
      assert GetInt(store[OLDEST_KEY := Print(n)][CURSOR_KEY := ""], OLDEST_KEY) == Some(n);
    } else if step.reply.next.Some? {
      assert GetInt(store[CURSOR_KEY := step.reply.next.value], OLDEST_KEY) == GetInt(store, OLDEST_KEY);
    }
  }

  lemma {:induction false} RunOnward(run: Run)
    requires Legal(run)
    ensures Onward(Exec(run))
  {
    match run
    case Begun(_) =>
    case Then(before, last) =>
      RunOnward(before);
      if last.Answer? && last.reply.Page? {
        PageMoves(Exec(before), last);
      }
  }

  /** Whatever the server answers and whatever the channel does, the stored date cursor
      never goes back and never disappears, and only a completed poll moves it. */
  lemma CursorMonotone(run: Run, step: Step)
    requires Legal(run) && Enabled(Exec(run), step)
    ensures var before, after := Stored(Exec(run)), Stored(Next(Exec(run), step));
            && (before.Some? ==> after.Some? && before.value <= after.value)
            && (before != after ==> Completes(Exec(run), step))
  {
    RunOnward(run);
    if step.Answer? && step.reply.Page? {
      PageMoves(Exec(run), step);
    }
  }

  // ---- No re-emission within a process -------------------------------------

  function EventIds(sent: seq<AuditEvent>): seq<string> {
    seq(|sent|, i requires 0 <= i < |sent| => sent[i].id)
  }

  /** The ids handed over since the process started are the first of the accepted ones,
      and all of these while the channel is open; they have been returned to the poller. */
  predicate Process(v: View, boot: nat, shown: set<string>) {
    && boot <= |v.sent|
    && EventIds(v.sent[boot..]) <= v.accepted
    && (v.open ==> EventIds(v.sent[boot..]) == v.accepted)
    && (forall id :: id in v.accepted ==> id in shown)
    && (|shown| <= CAPACITY ==> Distinct(v.accepted))
    && Separated(v.accepted, CAPACITY)
  }

  lemma RememberProcess(v: View, id: string, boot: nat, shown: set<string>)
    requires Process(v, boot, shown) && id in shown && id !in Window(v.accepted, CAPACITY)
    ensures Separated(v.accepted + [id], CAPACITY)
    ensures |shown| <= CAPACITY ==> Distinct(v.accepted + [id])
    ensures forall x :: x in v.accepted + [id] ==> x in shown
  {
    AcceptSeparated(v.accepted, CAPACITY, id);
    if |shown| <= CAPACITY {
      AcceptDistinct(v.accepted, CAPACITY, id, shown);
    }
  }

  lemma AcceptShown(v: View, entry: Entry, taken: bool, boot: nat, shown: set<string>)
    requires Process(v, boot, shown) && (entry.id.Some? ==> entry.id.value in shown)
    ensures Process(HandleEntry(v, entry, taken).0, boot, shown)
  {
    var (w, mark) := HandleEntry(v, entry, taken);
    if entry.id.Some? && entry.id.value !in Window(v.accepted, CAPACITY) {
      RememberProcess(v, entry.id.value, boot, shown);
      if mark.Handed? {
        assert w.sent[boot..] == v.sent[boot..] + [w.sent[|v.sent|]];
        assert EventIds(w.sent[boot..]) == EventIds(v.sent[boot..]) + [entry.id.value];
      }
    }
  }

  lemma {:induction false} PageShown(v: View, entries: seq<Entry>, i: nat, takes: nat, boot: nat, shown: set<string>)
    requires i <= |entries| && Process(v, boot, shown)
    requires forall j :: 0 <= j < |entries| && entries[j].id.Some? ==> entries[j].id.value in shown
    ensures Process(HandleEntries(v, entries, i, takes).view, boot, shown)
    decreases |entries| - i
  {
    if i < |entries| {
      AcceptShown(v, entries[i], takes > 0, boot, shown);
      var (w, mark) := HandleEntry(v, entries[i], takes > 0);
      if !mark.Refused? {
        PageShown(w, entries, i + 1, if mark.Handed? then takes - 1 else takes, boot, shown);
      }
    }
  }

  lemma ShownMore(v: View, boot: nat, some: set<string>, more: set<string>)
    requires Process(v, boot, some) && some <= more
    ensures Process(v, boot, more)
  {
    var rest := more - some;
    assert more == some + rest;
  }

  lemma StepProcess(s: State, step: Step)
    requires Process(s.view, s.boot, s.shown) && Enabled(s, step)
    ensures Process(Next(s, step).view, Next(s, step).boot, Next(s, step).shown)
  {
    var t := Next(s, step);
    if step.Restart? {
      assert t.view.sent[t.boot..] == [];
    } else if step.Answer? && step.reply.Page? {
      var page, takes := step.reply.entries, step.reply.takes;
      ShownMore(s.view, s.boot, s.shown, t.shown);
      forall j | 0 <= j < |page| && page[j].id.Some? ensures page[j].id.value in t.shown {
        assert page[j].id.value in Ids(page);
      }
      PageShown(s.view, page, 0, takes, s.boot, t.shown);
      var o := HandleEntries(s.view, page, 0, takes);
      assert t.view.sent == o.view.sent && t.view.accepted == o.view.accepted && t.view.open == o.view.open;
    }
  }

  lemma {:induction false} RunProcess(run: Run)
    requires Legal(run)
    ensures Process(Exec(run).view, Exec(run).boot, Exec(run).shown)
  {
    match run
    case Begun(s) => assert s.view.sent[s.boot..] == [];
    case Then(before, last) =>
      RunProcess(before);
      StepProcess(Exec(before), last);
  }

  lemma SentAccepted(v: View, boot: nat, shown: set<string>, i: nat)
    requires Process(v, boot, shown) && boot <= i < |v.sent|
    ensures i - boot < |v.accepted| && v.sent[i].id == v.accepted[i - boot]
  {
    var ids := EventIds(v.sent[boot..]);
    assert ids[i - boot] == v.sent[i].id;
  }

  /** Whatever the server answers, two hand-overs of one id in one process have at least as
      many others between them as the dedup cache holds. */
  lemma NoRepeatInWindow(run: Run, i: nat, j: nat)
    requires Legal(run) && Exec(run).boot <= i < j < |Exec(run).view.sent|
    ensures Exec(run).view.sent[i].id == Exec(run).view.sent[j].id ==> 10_000 < j - i
  {
    RunProcess(run);
    var s := Exec(run);
    SentAccepted(s.view, s.boot, s.shown, i);
    SentAccepted(s.view, s.boot, s.shown, j);
  }

  /** A process to which at most as many different ids have been returned as the dedup
      cache holds hands each id to the channel at most once, however often it is
      returned over however many polls, on an open channel or a closed one. */
  lemma NoReemission(run: Run, i: nat, j: nat)
    requires Legal(run) && |Exec(run).shown| <= 10_000
    requires Exec(run).boot <= i < j < |Exec(run).view.sent|
    ensures Exec(run).view.sent[i].id != Exec(run).view.sent[j].id
  {
    RunProcess(run);
    var s := Exec(run);
    SentAccepted(s.view, s.boot, s.shown, i);
    SentAccepted(s.view, s.boot, s.shown, j);
  }
}
