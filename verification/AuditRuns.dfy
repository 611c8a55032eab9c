/** Runs of the audit poller against a log that grows at its end. Polls may fail at any
    page, resume from the persisted cursor, and be cut off by a restart. */
module AuditRuns {
  import opened Wrappers
  import opened StateStore
  import opened Dedup
  import opened Audit
  import AuditPolls
  import Json

  // ---- The server ----------------------------------------------------------

  /** The dates do not go back; an entry need not have one. */
  predicate Chronological(log: seq<Entry>) {
    forall i, j :: 0 <= i < j < |log| && log[i].date.Some? && log[j].date.Some? ==>
                     log[i].date.value <= log[j].date.value
  }

  /** A listing of the entries dated at or after `base`, in any order. */
  predicate Lists(list: seq<Entry>, log: seq<Entry>, base: I64) {
    && (forall e :: e in list ==> e in log)
    && (forall e :: e in log && e.date.Some? && base <= e.date.value ==> e in list)
  }

  /** What a cursor stands for: a listing of the log as it was, how far it has been read, and
      from what date on it was asked for. */
  datatype Snap = Snap(list: seq<Entry>, pos: nat, seen: seq<Entry>, base: I64)

  /** `asked` is the date from which on the latest poll is to ask: the stored one, or a day
      before it was started. `first` is the date that the promise starts from: the stored one
      of the beginning or, without one, what the first poll to complete and the poll whose
      listing it read were to ask for, whichever is later. */
  datatype World = World(
    view: View,
    poll: Poll,
    log: seq<Entry>,
    tokens: map<string, Snap>,
    asked: I64,
    first: Option<I64>)

  datatype Step =
    | Grow(entry: Entry)
    | Start(now: Clock)
    | Fetch(listing: seq<Entry>, count: nat, token: Option<string>, takes: nat, stored: bool, cleared: bool)
    | Limited
    | Reject
    | Restart

  /** The date stored as `audit.oldest`, or a day before now. */
  function Bound(store: Store, now: Clock): I64 {
    var stored := GetInt(store, "audit.oldest");
    if stored.Some? then stored.value else now - 86_400
  }

  /** The listing that a request is answered from. */
  function Served(w: World, listing: seq<Entry>): Snap
    requires w.poll.Polling? && (w.poll.cursor.Some? ==> w.poll.cursor.value in w.tokens)
  {
    if w.poll.cursor.Some? then w.tokens[w.poll.cursor.value] else Snap(listing, 0, w.log, w.asked)
  }

  /** A page of the listing and the cursor of the rest of it, none at its end. A page that
      is requested again may come with the same cursor as before or with another, but
      not with the cursor that it was requested by unless nothing of it has been read. An
      empty cursor counts as none. */
  predicate Answers(w: World, step: Step)
    requires step.Fetch?
  {
    && w.poll.Polling?
    && (w.poll.cursor.Some? ==> w.poll.cursor.value in w.tokens)
    && (w.poll.cursor.None? ==> Lists(step.listing, w.log, w.poll.oldest))
    && var snap := Served(w, step.listing);
       && snap.pos + step.count <= |snap.list|
       && (step.token.None? ==> snap.pos + step.count == |snap.list|)
       && (step.token.Some? ==> step.token.value != "" && (step.token == w.poll.cursor ==> step.count == 0))
  }

  predicate Enabled(w: World, step: Step) {
    match step
    case Grow(e) =>
      e.date.Some? ==> forall i :: 0 <= i < |w.log| && w.log[i].date.Some? ==> w.log[i].date.value <= e.date.value
    case Start(_) => w.poll.Idle?
    case Fetch(_, _, _, _, _, _) => Answers(w, step)
    case Limited => w.poll.Polling?
    case Reject => w.poll.Polling?
    case Restart => true
  }

  function Entries(w: World, step: Step): seq<Entry>
    requires step.Fetch? && Answers(w, step)
  {
    var snap := Served(w, step.listing);
    snap.list[snap.pos..snap.pos + step.count]
  }

  function Next(w: World, step: Step): World
    requires Enabled(w, step)
  {
    match step
    case Grow(e) => w.(log := w.log + [e])
    case Start(now) => w.(poll := Begin(w.view.store, now), asked := Bound(w.view.store, now))
    case Limited => w
    case Reject => w.(poll := Idle)
    case Restart => w.(view := w.view.(accepted := [], open := true), poll := Idle)
    case Fetch(listing, count, token, takes, stored, cleared) =>
      var snap := Served(w, listing);
      var (v, poll) := HandleReply(w.view, w.poll, Page(Entries(w, step), token, takes, stored, cleared));
      w.(view := v,
         poll := poll,
         tokens := if token.None? then w.tokens else w.tokens[token.value := snap.(pos := snap.pos + count)],
         first := if w.first.Some? || GetInt(v.store, OLDEST_KEY).None? then w.first
                  else Some(if snap.base > w.asked then snap.base else w.asked))
  }

  // ---- What one page does --------------------------------------------------

  predicate HandedId(sent: seq<AuditEvent>, id: string) {
    exists k :: 0 <= k < |sent| && sent[k].id == id
  }

  predicate Covered(sent: seq<AuditEvent>, e: Entry) {
    e.id.Some? ==> HandedId(sent, e.id.value)
  }

  /** While the channel is open, whatever dedup suppresses was handed over before. */
  predicate Sound(v: View) {
    v.open ==> forall k :: 0 <= k < |v.accepted| ==> HandedId(v.sent, v.accepted[k])
  }

  lemma HandedStays(sent: seq<AuditEvent>, more: seq<AuditEvent>, id: string)
    requires sent <= more && HandedId(sent, id)
    ensures HandedId(more, id)
  {
    var k :| 0 <= k < |sent| && sent[k].id == id;
    assert more[k].id == id;
  }

  lemma EntryCovers(v: View, entry: Entry, taken: bool)
    requires v.open && Sound(v)
    ensures var (w, mark) := HandleEntry(v, entry, taken);
            && w.store == v.store && v.sent <= w.sent
            && (mark.Refused? ==> !w.open)
            && (!mark.Refused? ==> w.open && Sound(w) && Covered(w.sent, entry))
  {
    var (w, mark) := HandleEntry(v, entry, taken);
    var id := entry.id;
    if id.Some? && id.value in Window(v.accepted, CAPACITY) {
      assert id.value in v.accepted;
    } else if mark.Handed? {
      assert w.sent[|v.sent|].id == id.value;
      forall k | 0 <= k < |w.accepted| ensures HandedId(w.sent, w.accepted[k]) {
        if k < |v.accepted| {
          HandedStays(v.sent, w.sent, v.accepted[k]);
        }
      }
    }
  }

  lemma {:induction false} PageCovers(v: View, entries: seq<Entry>, i: nat, takes: nat)
    requires i <= |entries| && v.open && Sound(v)
    ensures var o := HandleEntries(v, entries, i, takes);
            && o.view.store == v.store && v.sent <= o.view.sent
            && (o.refused ==> !o.view.open)
            && (!o.refused ==> o.view.open && Sound(o.view)
                               && forall j :: i <= j < |entries| ==> Covered(o.view.sent, entries[j]))
    decreases |entries| - i
  {
    if i < |entries| {
      EntryCovers(v, entries[i], takes > 0);
      var (w, mark) := HandleEntry(v, entries[i], takes > 0);
      if !mark.Refused? {
        var left := if mark.Handed? then takes - 1 else takes;
        PageCovers(w, entries, i + 1, left);
        var o := HandleEntries(w, entries, i + 1, left);
        if entries[i].id.Some? {
          HandedStays(w.sent, o.view.sent, entries[i].id.value);
        }
      }
    }
  }

  // ---- The invariant -------------------------------------------------------

  predicate SnapOk(snap: Snap, log: seq<Entry>, sent: seq<AuditEvent>) {
    && snap.pos <= |snap.list|
    && snap.seen <= log
    && Lists(snap.list, snap.seen, snap.base)
    && forall i :: 0 <= i < snap.pos ==> Covered(sent, snap.list[i])
  }

  /** Every entry with a string id dated from `lo` up to, not including, `hi` has been handed over. */
  predicate Safe(log: seq<Entry>, sent: seq<AuditEvent>, lo: I64, hi: I64) {
    forall i :: 0 <= i < |log| && log[i].date.Some? && lo <= log[i].date.value < hi ==> Covered(sent, log[i])
  }

  /** What is left of the listing can no longer move the date cursor. */
  predicate Spent(snap: Snap, oldest: I64) {
    forall i :: snap.pos <= i < |snap.list| && snap.list[i].date.Some? ==> snap.list[i].date.value <= oldest
  }

  predicate CursorInv(w: World) {
    var c, stored := Persisted(w.view.store), GetInt(w.view.store, OLDEST_KEY);
    c.Some? ==>
      && c.value in w.tokens
      && SnapOk(w.tokens[c.value], w.log, w.view.sent)
      && (stored.Some? ==> w.tokens[c.value].base <= stored.value || Spent(w.tokens[c.value], stored.value))
  }

  predicate NewestInv(w: World)
    requires w.poll.Polling?
  {
    var c, stored := w.poll.cursor, GetInt(w.view.store, OLDEST_KEY);
    w.poll.newest == w.poll.oldest
    || (&& w.poll.oldest < w.poll.newest
        && c.Some? && c.value in w.tokens
        && AuditPolls.Dates(w.tokens[c.value].list, w.poll.newest)
        && (stored.Some? ==> w.tokens[c.value].base <= w.poll.oldest))
  }

  predicate PollInv(w: World) {
    w.poll.Polling? ==>
      && w.view.open
      && w.poll.oldest == w.asked
      && w.poll.cursor == Persisted(w.view.store)
      && (GetInt(w.view.store, OLDEST_KEY).Some? ==> w.poll.oldest == GetInt(w.view.store, OLDEST_KEY).value)
      && NewestInv(w)
  }

  predicate DateInv(w: World) {
    var stored := GetInt(w.view.store, OLDEST_KEY);
    && (w.first.Some? <==> stored.Some?)
    && (stored.Some? ==>
          && (w.first.value < stored.value ==> AuditPolls.Dates(w.log, stored.value))
          && Safe(w.log, w.view.sent, w.first.value, stored.value))
  }

  predicate Inv(w: World) {
    Chronological(w.log) && Sound(w.view) && CursorInv(w) && PollInv(w) && DateInv(w)
  }

  // ---- Each step keeps it --------------------------------------------------

  lemma CoveredStays(sent: seq<AuditEvent>, more: seq<AuditEvent>, e: Entry)
    requires sent <= more && Covered(sent, e)
    ensures Covered(more, e)
  {
    if e.id.Some? {
      HandedStays(sent, more, e.id.value);
    }
  }

  lemma SafeStays(log: seq<Entry>, sent: seq<AuditEvent>, more: seq<AuditEvent>, lo: I64, hi: I64)
    requires sent <= more && Safe(log, sent, lo, hi)
    ensures Safe(log, more, lo, hi)
  {
    forall i | 0 <= i < |log| && log[i].date.Some? && lo <= log[i].date.value < hi ensures Covered(more, log[i]) {
      CoveredStays(sent, more, log[i]);
    }
  }

  lemma SnapStays(snap: Snap, log: seq<Entry>, sent: seq<AuditEvent>, more: seq<AuditEvent>)
    requires sent <= more && SnapOk(snap, log, sent)
    ensures SnapOk(snap, log, more)
  {
    forall i | 0 <= i < snap.pos ensures Covered(more, snap.list[i]) {
      CoveredStays(sent, more, snap.list[i]);
    }
  }

  lemma GrowKeeps(w: World, step: Step)
    requires Inv(w) && Enabled(w, step) && step.Grow?
    ensures Inv(Next(w, step))
  {
    var t, e := Next(w, step), step.entry;
    var stored := GetInt(w.view.store, OLDEST_KEY);
    assert w.log <= t.log;
    if stored.Some? && w.first.value < stored.value {
      var i :| 0 <= i < |w.log| && w.log[i].date == Some(stored.value);
      assert t.log[i].date == Some(stored.value);
      assert e.date.Some? ==> stored.value <= e.date.value;
    }
  }

  lemma StartKeeps(w: World, step: Step)
    requires Inv(w) && Enabled(w, step) && step.Start? && w.view.open
    ensures Inv(Next(w, step))
  {
  }

  lemma RestartKeeps(w: World, step: Step)
    requires Inv(w) && Enabled(w, step) && step.Restart?
    ensures Inv(Next(w, step))
  {
    var t := Next(w, step);
    assert t.view.store == w.view.store && t.view.sent == w.view.sent;
  }

  /** A fetch with the parts named: what was served, what came of the page. */
  lemma ServedOk(w: World, step: Step)
    requires Inv(w) && step.Fetch? && Enabled(w, step)
    ensures var snap := Served(w, step.listing);
            && SnapOk(snap, w.log, w.view.sent)
            && (w.poll.newest == w.poll.oldest || AuditPolls.Dates(snap.list, w.poll.newest))
            && (GetInt(w.view.store, OLDEST_KEY).Some? ==>
                  || (snap.base <= w.poll.oldest)
                  || (w.poll.newest == w.poll.oldest && Spent(snap, w.poll.oldest)))
  {
  }

  /** Reading on in a listing whose entries so far, and those of the page, are handed over. */
  lemma ReadOn(snap: Snap, count: nat, page: seq<Entry>, log: seq<Entry>, sent: seq<AuditEvent>, more: seq<AuditEvent>)
    requires SnapOk(snap, log, sent) && sent <= more && snap.pos + count <= |snap.list|
    requires page == snap.list[snap.pos..snap.pos + count]
    requires forall j :: 0 <= j < |page| ==> Covered(more, page[j])
    ensures SnapOk(snap.(pos := snap.pos + count), log, more)
  {
    forall i | 0 <= i < snap.pos + count ensures Covered(more, snap.list[i]) {
      if i < snap.pos {
        CoveredStays(sent, more, snap.list[i]);
      } else {
        assert snap.list[i] == page[i - snap.pos];
      }
    }
  }

  /** The date cursor after a page: it is a date of the listing, unless it has not
      moved, and it has not when the listing was spent. */
  lemma NewestOfPage(snap: Snap, count: nat, oldest: I64, newest: I64)
    requires snap.pos + count <= |snap.list|
    requires newest == oldest || (oldest < newest && AuditPolls.Dates(snap.list, newest))
    ensures var page := snap.list[snap.pos..snap.pos + count];
            var n := Newest(page, 0, newest);
            && (n == oldest || (oldest < n && AuditPolls.Dates(snap.list, n)))
            && (newest == oldest && Spent(snap, oldest) ==> n == oldest)
            && (snap.pos + count == |snap.list| ==> Spent(snap, n))
  {
    var page := snap.list[snap.pos..snap.pos + count];
    var n := Newest(page, 0, newest);
    AuditPolls.NewestIs(page, 0, newest);
    if n != newest {
      var i :| 0 <= i < |page| && page[i].date == Some(n);
      assert page[i] == snap.list[snap.pos + i];
      assert snap.list[snap.pos + i].date == Some(n);
    }
    if snap.pos + count == |snap.list| {
      assert forall i :: snap.pos <= i < |snap.list| ==> snap.list[i] == page[i - snap.pos];
    }
  }

  /** A listing read to its end lets the date cursor move up to any of its dates. */
  lemma ReadingAllIsSafe(snap: Snap, log: seq<Entry>, sent: seq<AuditEvent>, lo: I64, before: I64, after: I64)
    requires Chronological(log) && SnapOk(snap, log, sent) && snap.pos == |snap.list|
    requires Safe(log, sent, lo, before) && before <= after
    requires before < after ==> snap.base <= before && AuditPolls.Dates(snap.list, after)
    ensures Safe(log, sent, lo, after)
    ensures before < after ==> AuditPolls.Dates(log, after)
  {
    if before < after {
      var k :| 0 <= k < |snap.list| && snap.list[k].date == Some(after);
      assert snap.list[k] in snap.list;
      var m :| 0 <= m < |snap.seen| && snap.seen[m] == snap.list[k];
      assert log[m] == snap.seen[m];
      forall i | 0 <= i < |log| && log[i].date.Some? && lo <= log[i].date.value < after ensures Covered(sent, log[i]) {
        assert i < m;
        assert log[i] == snap.seen[i];
        if before <= log[i].date.value {
          assert log[i] in snap.list;
        }
      }
    }
  }

  /** The page is refused by a closed channel, or the write after it fails: the cursors
      in the store are as before. */
  lemma FetchAborted(w: World, step: Step)
    requires Inv(w) && step.Fetch? && Enabled(w, step)
    requires HandleEntries(w.view, Entries(w, step), 0, step.takes).refused || !step.stored
    ensures Inv(Next(w, step))
  {
    var t, c := Next(w, step), Persisted(w.view.store);
    PageCovers(w.view, Entries(w, step), 0, step.takes);
    var stored := GetInt(w.view.store, OLDEST_KEY);
    if c.Some? {
      SnapStays(w.tokens[c.value], w.log, w.view.sent, t.view.sent);
    }
    if stored.Some? {
      SafeStays(w.log, w.view.sent, t.view.sent, w.first.value, stored.value);
    }
  }

  /** What is known after a page that was taken whole. */
  lemma PageTaken(w: World, step: Step)
    requires Inv(w) && step.Fetch? && Enabled(w, step)
    requires !HandleEntries(w.view, Entries(w, step), 0, step.takes).refused
    ensures var v, snap := HandleEntries(w.view, Entries(w, step), 0, step.takes).view, Served(w, step.listing);
            var n, stored := Newest(Entries(w, step), 0, w.poll.newest), GetInt(w.view.store, OLDEST_KEY);
            && v.store == w.view.store && w.view.sent <= v.sent && v.open && Sound(v)
            && SnapOk(snap, w.log, v.sent)
            && SnapOk(snap.(pos := snap.pos + step.count), w.log, v.sent)
            && (n == w.poll.oldest || (w.poll.oldest < n && AuditPolls.Dates(snap.list, n)))
            && (snap.pos + step.count == |snap.list| ==> Spent(snap, n))
            && (stored.Some? ==>
                  && w.poll.oldest == stored.value
                  && Safe(w.log, v.sent, w.first.value, stored.value)
                  && (snap.base <= stored.value || (n == stored.value && Spent(snap, stored.value))))
  {
    var v, snap := HandleEntries(w.view, Entries(w, step), 0, step.takes).view, Served(w, step.listing);
    var stored := GetInt(w.view.store, OLDEST_KEY);
    hide HandleEntries, Newest, Safe, Covered, Lists, GetInt, HandedId;
    PageCovers(w.view, Entries(w, step), 0, step.takes);
    ServedOk(w, step);
    SnapStays(snap, w.log, w.view.sent, v.sent);
    var page := Entries(w, step);
    ReadOn(snap, step.count, page, w.log, w.view.sent, v.sent);
    NewestOfPage(snap, step.count, w.poll.oldest, w.poll.newest);
    if stored.Some? {
      SafeStays(w.log, w.view.sent, v.sent, w.first.value, stored.value);
    }
  }

  /** More pages follow and the new cursor has been stored. */
  lemma FetchContinues(w: World, step: Step)
    requires Inv(w) && step.Fetch? && Enabled(w, step)
    requires !HandleEntries(w.view, Entries(w, step), 0, step.takes).refused && step.stored && step.token.Some?
    ensures Inv(Next(w, step))
  {
    var t, c, snap := Next(w, step), step.token.value, Served(w, step.listing);
    hide HandleEntries, Newest, Safe, Covered, Lists, HandedId, Parse, Chronological;
    PageTaken(w, step);
    assert GetInt(t.view.store, OLDEST_KEY) == GetInt(w.view.store, OLDEST_KEY);
    assert Persisted(t.view.store) == Some(c);
    assert t.tokens[c] == snap.(pos := snap.pos + step.count);
  }

  predicate Completes(w: World, step: Step)
    requires step.Fetch? && Enabled(w, step)
  {
    !HandleEntries(w.view, Entries(w, step), 0, step.takes).refused && step.stored && step.token.None?
  }

  lemma CompletedWorld(w: World, step: Step)
    requires step.Fetch? && Enabled(w, step) && Completes(w, step)
    ensures var t := Next(w, step);
            var n := Newest(Entries(w, step), 0, w.poll.newest);
            && t.poll.Idle? && t.log == w.log && t.tokens == w.tokens
            && t.view.sent == HandleEntries(w.view, Entries(w, step), 0, step.takes).view.sent
            && t.first == (if w.first.Some? then w.first else
                             var base := Served(w, step.listing).base;
                             Some(if base > w.asked then base else w.asked))
            && GetInt(t.view.store, OLDEST_KEY) == Some(n)
            && (Persisted(t.view.store).Some? ==> Persisted(t.view.store) == Persisted(HandleEntries(w.view, Entries(w, step), 0, step.takes).view.store))
  {
    SetThenGet(HandleEntries(w.view, Entries(w, step), 0, step.takes).view.store, OLDEST_KEY,
               Newest(Entries(w, step), 0, w.poll.newest));
  }

  lemma CompletesDates(w: World, step: Step)
    requires Inv(w) && step.Fetch? && Enabled(w, step) && Completes(w, step)
    ensures DateInv(Next(w, step))
  {
    var t, snap, stored := Next(w, step), Served(w, step.listing), GetInt(w.view.store, OLDEST_KEY);
    var n := Newest(Entries(w, step), 0, w.poll.newest);
    CompletedWorld(w, step);
    PageTaken(w, step);
    if stored.Some? {
      ReadingAllIsSafe(snap.(pos := |snap.list|), w.log, t.view.sent, w.first.value, stored.value, n);
    } else if t.first.value < n {
      ReadingAllIsSafe(snap.(pos := |snap.list|), w.log, t.view.sent, t.first.value, t.first.value, n);
    }
  }

  lemma CompletesCursor(w: World, step: Step)
    requires Inv(w) && step.Fetch? && Enabled(w, step) && Completes(w, step)
    ensures CursorInv(Next(w, step)) && Sound(Next(w, step).view)
  {
    CompletedWorld(w, step);
    PageTaken(w, step);
    assert Persisted(w.view.store) == w.poll.cursor;
  }

  /** The last page: the date cursor moves up, and the page cursor may or may not be cleared. */
  lemma FetchCompletes(w: World, step: Step)
    requires Inv(w) && step.Fetch? && Enabled(w, step) && Completes(w, step)
    ensures Inv(Next(w, step))
  {
    CompletedWorld(w, step);
    CompletesDates(w, step);
    CompletesCursor(w, step);
  }

  /** The poller polls again only while the channel is open, or after a restart. */
  predicate Prudent(w: World, step: Step) {
    step.Start? ==> w.view.open
  }

  lemma StepKeeps(w: World, step: Step)
    requires Inv(w) && Enabled(w, step) && Prudent(w, step)
    ensures Inv(Next(w, step))
  {
    match step {
      case Grow(_) => GrowKeeps(w, step);
      case Start(_) => StartKeeps(w, step);
      case Restart => RestartKeeps(w, step);
      case Limited =>
      case Reject =>
      case Fetch(_, _, token, takes, stored, _) =>
        if HandleEntries(w.view, Entries(w, step), 0, takes).refused || !stored {
          FetchAborted(w, step);
        } else if token.Some? {
          FetchContinues(w, step);
        } else {
          FetchCompletes(w, step);
        }
    }
  }

  // ---- Main results over every run -----------------------------------------

  /** Nothing has been handed over yet and no page cursor is stored; a date cursor may be. */
  predicate Initial(w: World) {
    && Chronological(w.log)
    && w.view.accepted == [] && w.view.sent == [] && w.view.open
    && w.poll.Idle? && w.tokens == map[]
    && Persisted(w.view.store).None?
    && w.first == GetInt(w.view.store, OLDEST_KEY)
  }

  type Run = History<World, Step>

  predicate Legal(run: Run)
    decreases run, 0
  {
    match run
    case Begun(w) => Initial(w)
    case Then(before, last) => Legal(before) && Enabled(Exec(before), last)
  }

  function Exec(run: Run): World
    requires Legal(run)
    decreases run, 1
  {
    match run
    case Begun(w) => w
    case Then(before, last) => Next(Exec(before), last)
  }

  predicate AllPrudent(run: Run)
    requires Legal(run)
  {
    run.Then? ==> AllPrudent(run.before) && Prudent(Exec(run.before), run.last)
  }

  lemma {:induction false} RunKeeps(run: Run)
    requires Legal(run) && AllPrudent(run)
    ensures Inv(Exec(run))
  {
    match run
    case Begun(_) =>
    case Then(before, last) =>
      RunKeeps(before);
      StepKeeps(Exec(before), last);
  }

  /** Over every run, a poll that completes has handed over, now or earlier, every entry with
      an id that was in the log when its listing was made and is dated at or after the date
      from which on it was asked for. */
  lemma CompletedPollHands(run: Run, step: Step, e: Entry)
    requires Legal(run) && AllPrudent(run) && step.Fetch? && Enabled(Exec(run), step) && Completes(Exec(run), step)
    requires var snap := Served(Exec(run), step.listing);
             e in snap.seen && e.id.Some? && e.date.Some? && snap.base <= e.date.value
    ensures HandedId(Next(Exec(run), step).view.sent, e.id.value)
  {
    RunKeeps(run);
    var w := Exec(run);
    PageTaken(w, step);
    CompletedWorld(w, step);
    var snap := Served(w, step.listing);
    assert e in snap.list;
    var k :| 0 <= k < |snap.list| && snap.list[k] == e;
  }

  /** Over every run of polls, failures, resumes and restarts, the date cursor never passes
      an entry that was not handed over and is dated at or after the date that the first
      polls were to ask from. */
  lemma NoLoss(run: Run, i: nat)
    requires Legal(run) && AllPrudent(run)
    requires var w := Exec(run);
             && i < |w.log| && w.log[i].id.Some? && w.log[i].date.Some?
             && w.first.Some? && GetInt(w.view.store, OLDEST_KEY).Some?
             && w.first.value <= w.log[i].date.value < GetInt(w.view.store, OLDEST_KEY).value
    ensures HandedId(Exec(run).view.sent, Exec(run).log[i].id.value)
  {
    RunKeeps(run);
    assert Covered(Exec(run).view.sent, Exec(run).log[i]);
  }

  // ---- What is handed over -------------------------------------------------

  /** The event carries the entry's id, its date, 0 if it has none, and its JSON. */
  predicate Carries(event: AuditEvent, e: Entry) {
    && e.id == Some(event.id) && event.raw == e.raw
    && (e.date == Some(event.date) || (e.date.None? && event.date == 0))
  }

  predicate FromEntries(event: AuditEvent, entries: seq<Entry>) {
    exists j :: 0 <= j < |entries| && Carries(event, entries[j])
  }

  lemma {:induction false} PageGivesEvents(v: View, entries: seq<Entry>, i: nat, takes: nat)
    requires i <= |entries|
    ensures var o := HandleEntries(v, entries, i, takes);
            && v.sent <= o.view.sent
            && forall k :: |v.sent| <= k < |o.view.sent| ==> FromEntries(o.view.sent[k], entries)
    decreases |entries| - i
  {
    if i < |entries| {
      var (w, mark) := HandleEntry(v, entries[i], takes > 0);
      if mark.Handed? {
        assert Carries(w.sent[|v.sent|], entries[i]);
      }
      if !mark.Refused? {
        PageGivesEvents(w, entries, i + 1, if mark.Handed? then takes - 1 else takes);
      }
    }
  }

  predicate AllLogged(w: World) {
    && (forall k :: 0 <= k < |w.view.sent| ==> FromEntries(w.view.sent[k], w.log))
    && forall c, i :: c in w.tokens && 0 <= i < |w.tokens[c].list| ==> w.tokens[c].list[i] in w.log
  }

  lemma FromMore(event: AuditEvent, some: seq<Entry>, more: seq<Entry>)
    requires FromEntries(event, some) && forall i :: 0 <= i < |some| ==> some[i] in more
    ensures FromEntries(event, more)
  {
    var j :| 0 <= j < |some| && Carries(event, some[j]);
    assert some[j] in more;
    var i :| 0 <= i < |more| && more[i] == some[j];
  }

  lemma FetchLogged(w: World, step: Step)
    requires AllLogged(w) && step.Fetch? && Enabled(w, step)
    ensures AllLogged(Next(w, step))
  {
    var t, page, snap := Next(w, step), Entries(w, step), Served(w, step.listing);
    assert forall i :: 0 <= i < |snap.list| ==> snap.list[i] in w.log;
    assert forall i :: 0 <= i < |page| ==> page[i] == snap.list[snap.pos + i];
    PageGivesEvents(w.view, page, 0, step.takes);
    assert t.view.sent == HandleEntries(w.view, page, 0, step.takes).view.sent;
    forall k | 0 <= k < |t.view.sent| ensures FromEntries(t.view.sent[k], t.log) {
      if k >= |w.view.sent| {
        FromMore(t.view.sent[k], page, w.log);
      }
    }
  }

  lemma GrowLogged(w: World, step: Step)
    requires AllLogged(w) && step.Grow?
    ensures AllLogged(w.(log := w.log + [step.entry]))
  {
    forall k | 0 <= k < |w.view.sent| ensures FromEntries(w.view.sent[k], w.log + [step.entry]) {
      FromMore(w.view.sent[k], w.log, w.log + [step.entry]);
    }
  }

  /** In every run each event handed over carries what an entry of the log holds. */
  lemma {:induction false} SentIsLogged(run: Run)
    requires Legal(run)
    ensures AllLogged(Exec(run))
  {
    match run
    case Begun(_) =>
    case Then(before, last) =>
      SentIsLogged(before);
      if last.Fetch? {
        FetchLogged(Exec(before), last);
      } else if last.Grow? {
        GrowLogged(Exec(before), last);
      }
  }

  predicate IdsDiffer(log: seq<Entry>) {
    forall i, j :: 0 <= i < j < |log| && log[i].id.Some? ==> log[i].id != log[j].id
  }

  /** If ids are not used twice, an entry that the date cursor has passed was handed over as
      the event that carries it. */
  lemma PassedIsCarried(run: Run, i: nat) returns (k: nat)
    requires Legal(run) && AllPrudent(run) && IdsDiffer(Exec(run).log)
    requires var w := Exec(run);
             && i < |w.log| && w.log[i].id.Some? && w.log[i].date.Some?
             && w.first.Some? && GetInt(w.view.store, OLDEST_KEY).Some?
             && w.first.value <= w.log[i].date.value < GetInt(w.view.store, OLDEST_KEY).value
    ensures var w, e := Exec(run), Exec(run).log[i];
            k < |w.view.sent| && w.view.sent[k] == AuditEvent(e.id.value, e.date.value, e.raw)
  {
    NoLoss(run, i);
    SentIsLogged(run);
    var w := Exec(run);
    k :| 0 <= k < |w.view.sent| && w.view.sent[k].id == w.log[i].id.value;
    var j :| 0 <= j < |w.log| && Carries(w.view.sent[k], w.log[j]);
    assert i == j;
  }

  // ---- What holds whatever the channel does --------------------------------

  /** The persisted page cursor is one that the server has issued, and a poll works with
      the cursors of the store. */
  predicate Steady(w: World) {
    var c, stored := Persisted(w.view.store), GetInt(w.view.store, OLDEST_KEY);
    && (c.Some? ==> c.value in w.tokens && w.tokens[c.value].pos <= |w.tokens[c.value].list|)
    && (w.first.Some? <==> stored.Some?)
    && (w.poll.Polling? ==>
          && w.poll.cursor == c
          && w.poll.oldest <= w.poll.newest
          && (stored.Some? ==> w.poll.oldest == stored.value))
  }

  lemma FetchSteady(w: World, step: Step)
    requires Steady(w) && step.Fetch? && Enabled(w, step)
    ensures Steady(Next(w, step))
  {
    var entries := Entries(w, step);
    var n := Newest(entries, 0, w.poll.newest);
    AuditPolls.EntriesKeep(w.view, entries, 0, step.takes);
    AuditPolls.NewestIs(entries, 0, w.poll.newest);
    if Completes(w, step) {
      CompletedWorld(w, step);
    } else if step.token.Some? {
      var store := w.view.store[CURSOR_KEY := step.token.value];
      assert GetInt(store, OLDEST_KEY) == GetInt(w.view.store, OLDEST_KEY);
      assert Persisted(store) == step.token;
    }
  }

  lemma {:induction false} RunSteady(run: Run)
    requires Legal(run)
    ensures Steady(Exec(run))
  {
    match run
    case Begun(_) =>
    case Then(before, last) =>
      RunSteady(before);
      if last.Fetch? {
        FetchSteady(Exec(before), last);
      }
  }

  /** A run against such a server is one against a server that may answer anything, so what
      holds of all of those holds of it. */
  lemma {:induction false} IsPolls(run: Run) returns (polls: AuditPolls.Run)
    requires Legal(run)
    ensures AuditPolls.Legal(polls)
    ensures AuditPolls.Exec(polls).view == Exec(run).view && AuditPolls.Exec(polls).poll == Exec(run).poll
  {
    match run
    case Begun(w) => polls := Begun(AuditPolls.State(w.view, w.poll, 0, {}));
    case Then(before, last) =>
      var some := IsPolls(before);
      match last
      case Grow(_) => polls := some;
      case Limited => polls := some;
      case Start(now) => polls := Then(some, AuditPolls.Start(now));
      case Reject => polls := Then(some, AuditPolls.Answer(Rejected));
      case Restart => polls := Then(some, AuditPolls.Restart);
      case Fetch(_, _, token, takes, stored, cleared) =>
        polls := Then(some, AuditPolls.Answer(Page(Entries(Exec(before), last), token, takes, stored, cleared)));
  }

  // ---- Polling on after the channel has closed -----------------------------

  predicate AllHanded(v: View) {
    forall k :: 0 <= k < |v.accepted| ==> HandedId(v.sent, v.accepted[k])
  }

  /** Remembering an id before offering its entry keeps "suppressed means handed over"
      exactly when the channel takes the entry, unless it is not offered at all or had
      already been handed over. */
  lemma RefusalLosesIff(v: View, entry: Entry, taken: bool)
    requires AllHanded(v)
    ensures AllHanded(HandleEntry(v, entry, taken).0)
            <==> (v.open && taken) || entry.id.None? || entry.id.value in Window(v.accepted, CAPACITY)
                 || HandedId(v.sent, entry.id.value)
  {
    var (w, mark) := HandleEntry(v, entry, taken);
    if entry.id.Some? && entry.id.value !in Window(v.accepted, CAPACITY) {
      assert w.accepted[|v.accepted|] == entry.id.value;
      if mark.Handed? {
        assert w.sent[|v.sent|].id == entry.id.value;
      }
      forall k | 0 <= k < |v.accepted| ensures HandedId(w.sent, w.accepted[k]) {
        HandedStays(v.sent, w.sent, v.accepted[k]);
      }
    }
  }

  /** A poll of a small log of which the last page is the first one. */
  lemma ShortPoll(run: Run, fetch: Step)
    requires Legal(run) && Exec(run).poll.Idle? && Persisted(Exec(run).view.store).None?
    requires fetch.Fetch? && fetch.listing == Exec(run).log && fetch.count == |Exec(run).log| && fetch.token.None?
    ensures Legal(Then(Then(run, Start(0)), fetch))
    ensures var w, t := Exec(run), Exec(Then(Then(run, Start(0)), fetch));
            var (v, poll) := HandleReply(w.view, Begin(w.view.store, 0), Page(w.log, None, fetch.takes, fetch.stored, fetch.cleared));
            t.view == v && t.poll == poll && t.log == w.log && (w.first.Some? ==> t.first == w.first)
  {
    var w, started := Exec(run), Then(run, Start(0));
    assert Legal(started) && Exec(started) == w.(poll := Begin(w.view.store, 0), asked := Bound(w.view.store, 0));
    assert w.log[0..|w.log|] == w.log;
    assert Answers(Exec(started), fetch);
  }

  /** Without prudence the promise fails: the second poll on a closed channel moves the
      date cursor past an entry that was refused and not handed over. */
  lemma PollingOnLoses() returns (run: Run)
    ensures Legal(run) && !AllPrudent(run)
    ensures var w := Exec(run);
            && |w.log| == 2 && w.log[0] == Entry(Some("a"), Some(5), Json.Null)
            && w.first == Some(0) && GetInt(w.view.store, OLDEST_KEY) == Some(7)
            && w.view.sent == []
  {
    var a, b := Entry(Some("a"), Some(5), Json.Null), Entry(None, Some(7), Json.Null);
    var store: Store := map[OLDEST_KEY := Print(0)];
    ParsePrint(0);
    ParsePrint(7);
    var fetch := Fetch([a, b], 2, None, 0, true, true);
    run := Begun(World(View(store, [], [], true), Idle, [a, b], map[], 0, Some(0)));
    assert Legal(run);
    ShortPoll(run, fetch);
    run := Then(Then(run, Start(0)), fetch);
    assert Exec(run).view == View(store, ["a"], [], false);
    ShortPoll(run, fetch);
    var v := View(store, ["a"], [], false);
    assert HandleEntry(v, a, false) == (v, Skipped) && HandleEntry(v, b, false) == (v, Skipped);
    assert HandleEntries(v, [a, b], 1, 0) == HandleEntries(v, [a, b], 2, 0) == Outcome(v, false);
    assert Newest([a, b], 1, 5) == 7;
    run := Then(Then(run, Start(0)), fetch);
    assert !Prudent(Exec(run.before.before), Start(0));
  }
}
