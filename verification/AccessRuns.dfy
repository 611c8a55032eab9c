/** Runs of the access-log poller against a list that grows at its head while pages of
    it are requested by number, so that its entries shift from page to page. */
module AccessRuns {
  import opened Wrappers
  import opened StateStore
  import opened AccessLogs
  import Json

  const PAGE_SIZE: nat := 100

  // ---- The server ----------------------------------------------------------

  /** The list is kept oldest first; page `p` of it, newest first, is made of the
      entries with index from `PageLow` up to, not including, `PageHigh`. */
  function PageHigh(n: nat, p: nat): nat
    requires p >= 1
  {
    if n <= PAGE_SIZE * (p - 1) then 0 else n - PAGE_SIZE * (p - 1)
  }

  function PageLow(n: nat, p: nat): nat {
    if n <= PAGE_SIZE * p then 0 else n - PAGE_SIZE * p
  }

  function Backwards(log: seq<Login>, low: nat, high: nat): seq<Login>
    requires low <= high <= |log|
  {
    seq(high - low, i requires 0 <= i < high - low => log[high - 1 - i])
  }

  function Pages(n: nat): nat {
    (n + PAGE_SIZE - 1) / PAGE_SIZE
  }

  function Answer(log: seq<Login>, p: nat, takes: nat, stored: bool): Reply
    requires p >= 1
  {
    Page(Backwards(log, PageLow(|log|, p), PageHigh(|log|, p)), Some(p), Some(Pages(|log|)), takes, stored)
  }

  /** `first` is the date cursor of the run's beginning, `floor` the highest backfill
      floor used so far, `asked` the floor that the poll was started with, `met` the stored
      cursor that it met, `boot` how many logins had been handed over by then, `marked` the length of the list at the poll's first request.
      The pages since the one that reached highest cover the range from `low` to `high`. */
  datatype World = World(
    view: View,
    poll: Poll,
    log: seq<Login>,
    first: I64,
    floor: Option<I64>,
    asked: I64,
    met: I64,
    boot: nat,
    marked: nat,
    low: nat,
    high: nat)

  datatype Step =
    | Grow(login: Login)
    | Start(floor: I64)
    | Fetch(takes: nat, stored: bool)
    | Fail
    | Restart

  predicate Enabled(w: World, step: Step) {
    match step
    case Grow(l) => w.log != [] ==> w.log[|w.log| - 1].Date() <= l.Date()
    case Start(_) => w.poll.Idle?
    case Fetch(_, _) => w.poll.Polling? && w.poll.page >= 1
    case Fail => w.poll.Polling?
    case Restart => true
  }

  /** The covered range once the requested page has been read as well. */
  function Cover(w: World): (nat, nat)
    requires w.poll.Polling? && w.poll.page >= 1
  {
    var low, high := PageLow(|w.log|, w.poll.page), PageHigh(|w.log|, w.poll.page);
    if w.poll.page == 1 || high > w.high then (low, high)
    else (if low < w.low then low else w.low, w.high)
  }

  function Next(w: World, step: Step): World
    requires Enabled(w, step)
  {
    match step
    case Grow(l) => w.(log := w.log + [l])
    case Start(floor) =>
      w.(poll := Begin(w.view.store, floor),
         floor := Some(if w.floor.Some? && w.floor.value > floor then w.floor.value else floor),
         asked := floor, met := Cursor(w.view.store), boot := |w.view.sent|)
    case Fetch(takes, stored) =>
      var (v, poll) := HandleReply(w.view, w.poll, Answer(w.log, w.poll.page, takes, stored));
      var (low, high) := Cover(w);
      w.(view := v, poll := poll, marked := if w.poll.page == 1 then |w.log| else w.marked, low := low, high := high)
    case Fail => w.(poll := Idle)
    case Restart => w.(poll := Idle, view := w.view.(open := true))
  }

  /** The server lists by date, and logins may share a second. */
  predicate Ascending(log: seq<Login>) {
    forall i, j :: 0 <= i < j < |log| ==> log[i].Date() <= log[j].Date()
  }

  // ---- What one page does --------------------------------------------------

  /** All logins of the range that are newer than `lastSeen` have been handed over. */
  predicate Handed(log: seq<Login>, sent: seq<Login>, low: nat, high: nat, lastSeen: I64) {
    forall i :: low <= i < high && i < |log| && log[i].Date() > lastSeen ==> log[i] in sent
  }

  lemma {:induction false} PageForwards(r: PageRun, lastSeen: I64, logins: seq<Login>, i: nat, takes: nat)
    requires i <= |logins| && !r.refused && lastSeen <= r.maxSeen
    ensures var o := HandleLogins(r, lastSeen, logins, i, takes);
            && o.view.store == r.view.store && r.view.sent <= o.view.sent
            && r.maxSeen <= o.maxSeen
            && (!o.refused ==>
                  && (forall j :: i <= j < |logins| && logins[j].Date() > lastSeen ==> logins[j] in o.view.sent)
                  && (o.maxSeen == r.maxSeen || exists j :: i <= j < |logins| && logins[j].Date() == o.maxSeen)
                  && (o.allOld <==> r.allOld && forall j :: i <= j < |logins| ==> logins[j].Date() <= lastSeen))
    decreases |logins| - i
  {
    if i < |logins| {
      var l := logins[i];
      if l.Date() <= lastSeen {
        PageForwards(r, lastSeen, logins, i + 1, takes);
      } else if r.view.open && takes > 0 {
        var maxSeen := if l.Date() > r.maxSeen then l.Date() else r.maxSeen;
        var next := PageRun(r.view.(sent := r.view.sent + [l]), maxSeen, false, false);
        PageForwards(next, lastSeen, logins, i + 1, takes - 1);
        assert l in next.view.sent;
      }
    }
  }

  lemma PageHanded(log: seq<Login>, low: nat, high: nat, sent: seq<Login>, lastSeen: I64)
    requires low <= high <= |log|
    requires var page := Backwards(log, low, high); forall j :: 0 <= j < |page| && page[j].Date() > lastSeen ==> page[j] in sent
    ensures Handed(log, sent, low, high, lastSeen)
  {
    var page := Backwards(log, low, high);
    forall i | low <= i < high && log[i].Date() > lastSeen ensures log[i] in sent {
      assert page[high - 1 - i] == log[i];
    }
  }

  // ---- The invariant -------------------------------------------------------

  function Cursor(store: Store): I64 {
    var stored := GetInt(store, STATE_KEY);
    if stored.Some? then stored.value else 0
  }

  /** No login at or below the date cursor was missed, except those that the backfill
      floor or the first cursor told the poller to skip. */
  predicate Safe(w: World) {
    forall i :: 0 <= i < |w.log| && w.log[i].Date() <= Cursor(w.view.store) ==>
      || w.log[i] in w.view.sent
      || w.log[i].Date() <= w.first
      || (w.floor.Some? && w.log[i].Date() <= w.floor.value)
  }

  predicate PollInv(w: World) {
    w.poll.Polling? ==>
      && w.poll.page >= 1
      && Cursor(w.view.store) <= w.poll.lastSeen <= w.poll.maxSeen
      && w.poll.lastSeen == (if w.asked > w.met then w.asked else w.met)
      && (w.poll.lastSeen == Cursor(w.view.store) || (w.floor.Some? && w.poll.lastSeen <= w.floor.value))
      && (w.poll.page == 1 ==> w.poll.maxSeen == w.poll.lastSeen)
      && (w.poll.page > 1 ==>
            && w.view.open
            && 0 < w.marked <= w.high <= |w.log| && w.low <= w.high
            && w.low <= PageHigh(|w.log|, w.poll.page)
            && Handed(w.log, w.view.sent, w.low, w.high, w.poll.lastSeen)
            && (w.poll.maxSeen == w.poll.lastSeen || w.poll.maxSeen <= w.log[w.high - 1].Date()))
  }

  predicate FromLog(w: World) {
    forall l :: l in w.view.sent ==> l in w.log
  }

  /** What holds in every run. */
  predicate Inv(w: World) {
    Ascending(w.log) && PollInv(w) && FromLog(w)
  }

  /** The logins that have arrived since the first page are newer than all before them. */
  predicate Apart(w: World) {
    w.poll.Polling? && w.poll.page > 1 ==>
      forall i, j :: 0 <= i < j < |w.log| && w.marked <= j ==> w.log[i].Date() < w.log[j].Date()
  }

  /** An arrival the promise can be kept for: it is newer than the cursor and, while a
      poll has read its first page, newer than all other logins. */
  predicate Guarded(w: World, step: Step) {
    step.Grow? ==>
      && Cursor(w.view.store) < step.login.Date()
      && (w.poll.Polling? && w.poll.page > 1 && w.log != [] ==> w.log[|w.log| - 1].Date() < step.login.Date())
  }

  /** The run of the current page, as the poller works through it. */
  function Taken(w: World, step: Step): PageRun
    requires step.Fetch? && Enabled(w, step)
  {
    HandleLogins(PageRun(w.view, w.poll.maxSeen, true, false), w.poll.lastSeen,
                 Answer(w.log, w.poll.page, step.takes, step.stored).logins, 0, step.takes)
  }

  /** The page ends the poll with success. */
  predicate Completes(w: World, step: Step)
    requires step.Fetch? && Enabled(w, step)
  {
    !Taken(w, step).refused && Next(w, step).poll.Idle?
  }

  /** The ranges of consecutive pages leave no gap, however far the list has shifted. */
  lemma CoverHanded(log: seq<Login>, sent: seq<Login>, more: seq<Login>, lastSeen: I64,
                    low: nat, high: nat, pageLow: nat, pageHigh: nat)
    requires low <= high && pageLow <= pageHigh <= high && low <= pageHigh && sent <= more
    requires Handed(log, sent, low, high, lastSeen) && Handed(log, more, pageLow, pageHigh, lastSeen)
    ensures Handed(log, more, if pageLow < low then pageLow else low, high, lastSeen)
  {
  }

  lemma DateInPage(log: seq<Login>, low: nat, high: nat, date: I64)
    requires Ascending(log) && low <= high <= |log|
    requires var page := Backwards(log, low, high); exists j :: 0 <= j < |page| && page[j].Date() == date
    ensures 0 < high && date <= log[high - 1].Date()
  {
    var page := Backwards(log, low, high);
    var j :| 0 <= j < |page| && page[j].Date() == date;
    assert page[j] == log[high - 1 - j];
  }

  lemma PageOnly(w: World, step: Step)
    requires Inv(w) && step.Fetch? && Enabled(w, step) && !Taken(w, step).refused
    ensures var r, low, high := Taken(w, step), PageLow(|w.log|, w.poll.page), PageHigh(|w.log|, w.poll.page);
            && r.view.store == w.view.store && w.view.sent <= r.view.sent
            && w.poll.maxSeen <= r.maxSeen
            && Handed(w.log, r.view.sent, low, high, w.poll.lastSeen)
            && (r.maxSeen == w.poll.maxSeen || (0 < high && r.maxSeen <= w.log[high - 1].Date()))
  {
    var r, low, high := Taken(w, step), PageLow(|w.log|, w.poll.page), PageHigh(|w.log|, w.poll.page);
    PageForwards(PageRun(w.view, w.poll.maxSeen, true, false), w.poll.lastSeen, Backwards(w.log, low, high), 0, step.takes);
    hide Handed, HandleLogins, Ascending, PollInv, FromLog;
    PageHanded(w.log, low, high, r.view.sent, w.poll.lastSeen);
    if r.maxSeen != w.poll.maxSeen {
      DateInPage(w.log, low, high, r.maxSeen);
    }
  }

  /** What is known after a page that was taken whole: the covered range, and that the
      newest date seen is not above it. */
  lemma PageTaken(w: World, step: Step)
    requires Inv(w) && step.Fetch? && Enabled(w, step) && !Taken(w, step).refused
    ensures var r, (low, high) := Taken(w, step), Cover(w);
            && r.view.store == w.view.store && w.view.sent <= r.view.sent
            && w.poll.lastSeen <= r.maxSeen
            && PageHigh(|w.log|, w.poll.page) <= high <= |w.log| && low <= high
            && low <= PageLow(|w.log|, w.poll.page)
            && (if w.poll.page == 1 then |w.log| else w.marked) <= high
            && Handed(w.log, r.view.sent, low, high, w.poll.lastSeen)
            && (r.maxSeen == w.poll.lastSeen || (0 < high && r.maxSeen <= w.log[high - 1].Date()))
  {
    var r, pageLow, pageHigh := Taken(w, step), PageLow(|w.log|, w.poll.page), PageHigh(|w.log|, w.poll.page);
    PageOnly(w, step);
    hide Handed, HandleLogins, Taken, Backwards;
    if w.poll.page > 1 && pageHigh <= w.high {
      CoverHanded(w.log, w.view.sent, r.view.sent, w.poll.lastSeen, w.low, w.high, pageLow, pageHigh);
    }
  }

  /** The poll stops only where nothing newer than `lastSeen` can be left: on an empty
      page, on a page of old logins, or on the last page by the server's count. */
  lemma NothingBelow(w: World, step: Step)
    requires Inv(w) && step.Fetch? && Enabled(w, step) && Completes(w, step)
    ensures var (_, high) := Cover(w);
            Handed(w.log, Taken(w, step).view.sent, 0, high, w.poll.lastSeen)
  {
    var n, p, r := |w.log|, w.poll.page, Taken(w, step);
    var pageLow, pageHigh := PageLow(n, p), PageHigh(n, p);
    var page := Backwards(w.log, pageLow, pageHigh);
    PageTaken(w, step);
    if page != [] && r.allOld {
      PageForwards(PageRun(w.view, w.poll.maxSeen, true, false), w.poll.lastSeen, page, 0, step.takes);
      assert page[|page| - 1] == w.log[pageLow];
      assert forall i :: 0 <= i < pageLow ==> w.log[i].Date() <= w.log[pageLow].Date();
    } else {
      assert pageLow == 0;
    }
  }

  // ---- Each step keeps the invariant ---------------------------------------

  lemma FetchStore(w: World, step: Step)
    requires Inv(w) && step.Fetch? && Enabled(w, step)
    ensures var t, r := Next(w, step), Taken(w, step);
            && t.view.sent == r.view.sent
            && (Cursor(t.view.store) == Cursor(w.view.store)
                || (Completes(w, step) && r.maxSeen > w.poll.lastSeen && Cursor(t.view.store) == r.maxSeen))
            && (t.poll.Polling? ==> !r.refused && t.poll == Polling(w.poll.lastSeen, r.maxSeen, w.poll.page + 1))
  {
    var r := Taken(w, step);
    PageForwards(PageRun(w.view, w.poll.maxSeen, true, false), w.poll.lastSeen,
                 Answer(w.log, w.poll.page, step.takes, step.stored).logins, 0, step.takes);
    SetThenGet(r.view.store, STATE_KEY, r.maxSeen);
  }

  lemma {:induction false} RefusedKeepsSent(r: PageRun, lastSeen: I64, logins: seq<Login>, i: nat, takes: nat)
    requires i <= |logins|
    ensures r.view.sent <= HandleLogins(r, lastSeen, logins, i, takes).view.sent
    decreases |logins| - i
  {
    if i < |logins| && logins[i].Date() <= lastSeen {
      RefusedKeepsSent(r, lastSeen, logins, i + 1, takes);
    } else if i < |logins| && r.view.open && takes > 0 {
      var maxSeen := if logins[i].Date() > r.maxSeen then logins[i].Date() else r.maxSeen;
      var next := PageRun(r.view.(sent := r.view.sent + [logins[i]]), maxSeen, false, false);
      RefusedKeepsSent(next, lastSeen, logins, i + 1, takes - 1);
    }
  }

  /** Only logins of the page that are newer than `lastSeen` are handed over. */
  lemma {:induction false} SendsNewer(r: PageRun, lastSeen: I64, logins: seq<Login>, i: nat, takes: nat, l: Login)
    requires i <= |logins| && l in HandleLogins(r, lastSeen, logins, i, takes).view.sent
    ensures l in r.view.sent || (l in logins && l.Date() > lastSeen)
    decreases |logins| - i
  {
    if i < |logins| && logins[i].Date() <= lastSeen {
      SendsNewer(r, lastSeen, logins, i + 1, takes, l);
    } else if i < |logins| && r.view.open && takes > 0 {
      var maxSeen := if logins[i].Date() > r.maxSeen then logins[i].Date() else r.maxSeen;
      var next := PageRun(r.view.(sent := r.view.sent + [logins[i]]), maxSeen, false, false);
      SendsNewer(next, lastSeen, logins, i + 1, takes - 1, l);
    }
  }

  /** A page that hands something over has found the channel open. */
  lemma {:induction false} KeepsOpen(r: PageRun, lastSeen: I64, logins: seq<Login>, i: nat, takes: nat)
    requires i <= |logins| && (r.allOld || r.view.open)
    ensures var o := HandleLogins(r, lastSeen, logins, i, takes);
            !o.refused && !r.refused ==> o.allOld || o.view.open
    decreases |logins| - i
  {
    if i < |logins| && logins[i].Date() <= lastSeen {
      KeepsOpen(r, lastSeen, logins, i + 1, takes);
    } else if i < |logins| && r.view.open && takes > 0 {
      var maxSeen := if logins[i].Date() > r.maxSeen then logins[i].Date() else r.maxSeen;
      var next := PageRun(r.view.(sent := r.view.sent + [logins[i]]), maxSeen, false, false);
      KeepsOpen(next, lastSeen, logins, i + 1, takes - 1);
    }
  }

  lemma PageFromLog(log: seq<Login>, low: nat, high: nat, l: Login)
    requires low <= high <= |log| && l in Backwards(log, low, high)
    ensures exists i :: low <= i < high && log[i] == l
  {
    var page := Backwards(log, low, high);
    var k :| 0 <= k < |page| && page[k] == l;
    assert log[high - 1 - k] == l;
  }

  lemma FetchSends(w: World, step: Step, l: Login)
    requires Inv(w) && step.Fetch? && Enabled(w, step) && l in Next(w, step).view.sent
    ensures l in w.view.sent
            || (l.Date() > w.poll.lastSeen
                && exists i :: 0 <= i < PageHigh(|w.log|, w.poll.page) && w.log[i] == l)
  {
    FetchStore(w, step);
    var low, high := PageLow(|w.log|, w.poll.page), PageHigh(|w.log|, w.poll.page);
    if l !in w.view.sent {
      SendsNewer(PageRun(w.view, w.poll.maxSeen, true, false), w.poll.lastSeen, Backwards(w.log, low, high), 0, step.takes, l);
      PageFromLog(w.log, low, high, l);
    }
  }

  lemma FetchKeepsPoll(w: World, step: Step)
    requires Inv(w) && step.Fetch? && Enabled(w, step)
    ensures PollInv(Next(w, step))
  {
    FetchStore(w, step);
    var t := Next(w, step);
    if t.poll.Polling? {
      PageTaken(w, step);
      KeepsOpen(PageRun(w.view, w.poll.maxSeen, true, false), w.poll.lastSeen,
                Answer(w.log, w.poll.page, step.takes, step.stored).logins, 0, step.takes);
    }
  }

  lemma HandedGrows(log: seq<Login>, l: Login, sent: seq<Login>, low: nat, high: nat, lastSeen: I64)
    requires Handed(log, sent, low, high, lastSeen) && high <= |log|
    ensures Handed(log + [l], sent, low, high, lastSeen)
  {
  }

  lemma GrowKeepsPoll(w: World, step: Step)
    requires PollInv(w) && Enabled(w, step) && step.Grow?
    ensures PollInv(Next(w, step))
  {
    if w.poll.Polling? && w.poll.page > 1 {
      HandedGrows(w.log, step.login, w.view.sent, w.low, w.high, w.poll.lastSeen);
      assert (w.log + [step.login])[w.high - 1] == w.log[w.high - 1];
    }
  }

  lemma GrowKeepsInv(w: World, step: Step)
    requires Inv(w) && Enabled(w, step) && step.Grow?
    ensures Inv(Next(w, step))
  {
    GrowKeepsPoll(w, step);
    var log := Next(w, step).log;
    assert log == w.log + [step.login];
    assert forall l :: l in w.log ==> l in log;
    assert Ascending(log);
  }

  lemma StepKeeps(w: World, step: Step)
    requires Inv(w) && Enabled(w, step)
    ensures Inv(Next(w, step))
  {
    match step {
      case Fetch(_, _) =>
        FetchKeepsPoll(w, step);
        forall l | l in Next(w, step).view.sent ensures l in w.log {
          FetchSends(w, step, l);
        }
      case Grow(_) => GrowKeepsInv(w, step);
      case _ =>
    }
  }

  lemma FetchKeepsSafe(w: World, step: Step)
    requires Inv(w) && Safe(w) && Apart(w) && step.Fetch? && Enabled(w, step)
    ensures Safe(Next(w, step))
  {
    FetchStore(w, step);
    var t, r := Next(w, step), Taken(w, step);
    RefusedKeepsSent(PageRun(w.view, w.poll.maxSeen, true, false), w.poll.lastSeen,
                     Answer(w.log, w.poll.page, step.takes, step.stored).logins, 0, step.takes);
    if Cursor(t.view.store) != Cursor(w.view.store) {
      PageTaken(w, step);
      NothingBelow(w, step);
      var (_, high) := Cover(w);
      forall i | 0 <= i < |w.log| && w.log[i].Date() <= r.maxSeen && w.log[i].Date() > w.poll.lastSeen
        ensures w.log[i] in t.view.sent
      {
        assert i < high;
      }
    }
  }

  /** With guarded arrivals no step passes a login. */
  lemma StepKeepsSafe(w: World, step: Step)
    requires Inv(w) && Safe(w) && Apart(w) && Enabled(w, step) && Guarded(w, step)
    ensures Safe(Next(w, step)) && Apart(Next(w, step))
  {
    hide HandleLogins, HandleReply, Taken, GetInt;
    match step {
      case Fetch(_, _) => FetchStore(w, step); FetchKeepsSafe(w, step);
      case Grow(l) =>
        var t := Next(w, step);
        assert forall i :: 0 <= i < |w.log| ==> t.log[i] == w.log[i];
      case _ =>
    }
  }

  // ---- Main results over every run -----------------------------------------

  predicate Initial(w: World) {
    && Ascending(w.log)
    && w.view.sent == [] && w.poll.Idle? && w.floor.None?
    && w.first == Cursor(w.view.store)
  }

  type Run = History<World, Step>

  predicate Legal(run: Run)
    decreases run, 0
  {
    match run
    case Begun(w) => Initial(w)
    case Then(before, last) => Legal(before) && Enabled(Exec(before), last)
  }

  function Exec(run: Run): World
    requires Legal(run)
    decreases run, 1
  {
    match run
    case Begun(w) => w
    case Then(before, last) => Next(Exec(before), last)
  }

  predicate AllGuarded(run: Run)
    requires Legal(run)
  {
    run.Then? ==> AllGuarded(run.before) && Guarded(Exec(run.before), run.last)
  }

  lemma {:induction false} RunKeeps(run: Run)
    requires Legal(run)
    ensures Inv(Exec(run))
  {
    match run
    case Begun(_) =>
    case Then(before, last) =>
      RunKeeps(before);
      StepKeeps(Exec(before), last);
  }

  lemma {:induction false} RunKeepsSafe(run: Run)
    requires Legal(run) && AllGuarded(run)
    ensures Safe(Exec(run)) && Apart(Exec(run))
  {
    match run
    case Begun(_) =>
    case Then(before, last) =>
      RunKeeps(before);
      RunKeepsSafe(before);
      StepKeepsSafe(Exec(before), last);
  }

  /** In every run, a poll that completes has forwarded every login that was present at
      its first request and is newer than both the backfill floor that it was started with and the
      cursor that it met, despite the shifting of the list under its pages. */
  lemma CompletedPollForwards(run: Run, step: Step, i: nat)
    requires Legal(run)
    requires var w := Exec(run); step.Fetch? && Enabled(w, step) && Completes(w, step)
    requires var w := Exec(run); i < |w.log| && i < Next(w, step).marked && w.log[i].Date() > w.asked && w.log[i].Date() > w.met
    ensures Exec(run).log[i] in Next(Exec(run), step).view.sent
  {
    RunKeeps(run);
    var w := Exec(run);
    hide HandleLogins, Backwards, Taken, Legal, Exec, Ascending;
    NothingBelow(w, step);
    PageTaken(w, step);
    var (_, high) := Cover(w);
    assert i < high;
  }

  /** The logins of a page that are newer than both dates, in page order. */
  function Due(logins: seq<Login>, floor: I64, cursor: I64): seq<Login> {
    if logins == [] then []
    else (if logins[0].Date() > floor && logins[0].Date() > cursor then [logins[0]] else [])
         + Due(logins[1..], floor, cursor)
  }

  lemma DueFrom(logins: seq<Login>, i: nat, floor: I64, cursor: I64)
    requires i < |logins|
    ensures Due(logins[i..], floor, cursor)
         == (if logins[i].Date() > floor && logins[i].Date() > cursor then [logins[i]] else []) + Due(logins[i + 1..], floor, cursor)
  {
    assert logins[i..][0] == logins[i] && logins[i..][1..] == logins[i + 1..];
  }

  lemma OneAhead(sent: seq<Login>, l: Login, rest: seq<Login>, n: nat)
    requires n <= |rest|
    ensures sent + [l] + rest[..n] == sent + ([l] + rest)[..n + 1]
  {
    assert ([l] + rest)[..n + 1] == [l] + rest[..n];
    Regroup(sent, [l], rest[..n]);
  }

  lemma {:induction false} PageSends(r: PageRun, floor: I64, cursor: I64, logins: seq<Login>, i: nat, takes: nat) returns (n: nat)
    requires i <= |logins| && !r.refused
    ensures var due := Due(logins[i..], floor, cursor);
            var o := HandleLogins(r, if floor > cursor then floor else cursor, logins, i, takes);
            && n <= |due| && o.view.sent == r.view.sent + due[..n]
            && (!o.refused ==> n == |due|)
            && (o.refused ==> n < |due|)
    decreases |logins| - i
  {
    var lastSeen := if floor > cursor then floor else cursor;
    if i == |logins| {
      n := 0;
    } else {
      var l, rest := logins[i], Due(logins[i + 1..], floor, cursor);
      DueFrom(logins, i, floor, cursor);
      hide Due;
      if l.Date() <= lastSeen {
        n := PageSends(r, floor, cursor, logins, i + 1, takes);
      } else if !r.view.open || takes == 0 {
        n := 0;
      } else {
        var maxSeen := if l.Date() > r.maxSeen then l.Date() else r.maxSeen;
        n := PageSends(PageRun(r.view.(sent := r.view.sent + [l]), maxSeen, false, false), floor, cursor, logins, i + 1, takes - 1);
        OneAhead(r.view.sent, l, rest, n);
        n := n + 1;
      }
    }
  }

  lemma {:induction false} DueIsNewer(logins: seq<Login>, floor: I64, cursor: I64)
    ensures forall l :: l in Due(logins, floor, cursor) <==> l in logins && l.Date() > floor && l.Date() > cursor
  {
    if logins != [] {
      DueIsNewer(logins[1..], floor, cursor);
      assert forall l :: l in logins <==> l == logins[0] || l in logins[1..];
    }
  }

  /** In every run a page hands over, in its order and once each, the logins that are newer
      than both the floor that the poll was started with and the cursor that it met: all of
      them, unless the channel refuses one, and none else. */
  lemma HandsOverDue(run: Run, step: Step) returns (n: nat)
    requires Legal(run) && step.Fetch? && Enabled(Exec(run), step)
    ensures var w := Exec(run);
            var due := Due(Answer(w.log, w.poll.page, step.takes, step.stored).logins, w.asked, w.met);
            && n <= |due| && Next(w, step).view.sent == w.view.sent + due[..n]
            && (n == |due| <==> !Taken(w, step).refused)
  {
    RunKeeps(run);
    var w := Exec(run);
    var page := Answer(w.log, w.poll.page, step.takes, step.stored).logins;
    n := PageSends(PageRun(w.view, w.poll.maxSeen, true, false), w.asked, w.met, page, 0, step.takes);
    assert page[0..] == page;
    FetchStore(w, step);
  }

  lemma Continues(w: World, step: Step)
    requires step.Fetch? && Enabled(w, step)
    ensures var r, n := Taken(w, step), PageHigh(|w.log|, w.poll.page) - PageLow(|w.log|, w.poll.page);
            && (Next(w, step).poll.Polling? <==> n > 0 && !r.refused && !r.allOld && w.poll.page < Pages(|w.log|))
            && (Next(w, step).poll.Polling? ==> Next(w, step).poll.page == w.poll.page + 1)
  {
    hide HandleLogins;
  }

  lemma OldIffNoneDue(logins: seq<Login>, floor: I64, cursor: I64)
    ensures Due(logins, floor, cursor) == [] <==>
              forall j :: 0 <= j < |logins| ==> logins[j].Date() <= if floor > cursor then floor else cursor
  {
    DueIsNewer(logins, floor, cursor);
    var due := Due(logins, floor, cursor);
    hide Due;
    if due != [] {
      assert due[0] in due;
      var j :| 0 <= j < |logins| && logins[j] == due[0];
    } else {
      assert forall j :: 0 <= j < |logins| ==> logins[j] !in due;
    }
  }

  /** The poll goes on to the next page exactly if there were such logins on this one, all
      were taken, and the server counts more pages. */
  lemma GoesOnIff(run: Run, step: Step)
    requires Legal(run) && step.Fetch? && Enabled(Exec(run), step)
    ensures var w := Exec(run);
            var due := Due(Answer(w.log, w.poll.page, step.takes, step.stored).logins, w.asked, w.met);
            && (Next(w, step).poll.Polling? <==>
                  due != [] && !Taken(w, step).refused && w.poll.page < Pages(|w.log|))
            && (Next(w, step).poll.Polling? ==> Next(w, step).poll.page == w.poll.page + 1)
  {
    RunKeeps(run);
    var w := Exec(run);
    var page := Answer(w.log, w.poll.page, step.takes, step.stored).logins;
    Continues(w, step);
    OldIffNoneDue(page, w.asked, w.met);
    PageForwards(PageRun(w.view, w.poll.maxSeen, true, false), w.poll.lastSeen, page, 0, step.takes);
    hide Due, HandleLogins, Next, Pages;
  }

  /** A failed request ends the poll and changes nothing, however the script would go on. */
  lemma FailureEnds(v: View, poll: Poll, script: seq<Reply>, i: nat)
    requires poll.Polling? && i < |script| && script[i].Failed?
    ensures HandleReplies(v, poll, script, i) == (v, Idle)
  {
  }

  /** An answer without paging block is taken for the only page, one that does not say which
      page it is for the first. */
  lemma PagingBlock(v: View, poll: Poll, logins: seq<Login>, page: Option<nat>, pages: Option<nat>, takes: nat, stored: bool)
    requires poll.Polling?
    ensures var next := HandleReply(v, poll, Page(logins, page, pages, takes, stored)).1;
            && (page.None? && pages.None? ==> next.Idle?)
            && (page.None? && pages.Some? && pages.value <= 1 ==> next.Idle?)
            && (page.Some? && pages.Some? && page.value >= pages.value ==> next.Idle?)
            && (page.Some? && pages.None? && page.value >= 1 ==> next.Idle?)
            && (next.Polling? ==> next.lastSeen == poll.lastSeen && next.page == poll.page + 1)
  {
    hide HandleLogins, Finish;
  }

  lemma QuietSends(w: World, step: Step)
    requires Enabled(w, step) && !step.Fetch?
    ensures Next(w, step).view.sent == w.view.sent
  {
    hide HandleReply, GetInt;
  }

  lemma AmongDue(sent: seq<Login>, due: seq<Login>, n: nat, k: nat)
    requires n <= |due| && |sent| <= k < |sent| + n
    ensures (sent + due[..n])[k] in due
  {
    assert (sent + due[..n])[k] == due[k - |sent|];
  }

  /** Over every run, a login that is handed over is dated after both; one without a date
      counts as dated 0. */
  lemma HandedIsNewer(run: Run, step: Step, k: nat)
    requires Legal(run) && Enabled(Exec(run), step)
    requires |Exec(run).view.sent| <= k < |Next(Exec(run), step).view.sent|
    ensures var w, l := Exec(run), Next(Exec(run), step).view.sent[k];
            step.Fetch? && if l.dateFirst.Some? then l.dateFirst.value > w.asked && l.dateFirst.value > w.met
                           else 0 > w.asked && 0 > w.met
  {
    var w := Exec(run);
    hide Next, Legal, Exec, Enabled, HandleLogins, Due, Taken;
    if step.Fetch? {
      var n := HandsOverDue(run, step);
      var page := Answer(w.log, w.poll.page, step.takes, step.stored).logins;
      DueIsNewer(page, w.asked, w.met);
      AmongDue(w.view.sent, Due(page, w.asked, w.met), n, k);
    } else {
      QuietSends(w, step);
    }
  }

  /** What the poll has handed over is dated after the one date and up to the other. */
  predicate Marked(sent: seq<Login>, boot: nat, low: I64, high: I64) {
    forall k :: boot <= k < |sent| ==> low < sent[k].Date() <= high
  }

  lemma {:induction false} SentIsSeen(r: PageRun, lastSeen: I64, logins: seq<Login>, i: nat, takes: nat, boot: nat)
    requires i <= |logins| && boot <= |r.view.sent| && Marked(r.view.sent, boot, lastSeen, r.maxSeen)
    ensures var o := HandleLogins(r, lastSeen, logins, i, takes);
            r.view.sent <= o.view.sent && Marked(o.view.sent, boot, lastSeen, o.maxSeen) && r.maxSeen <= o.maxSeen
    decreases |logins| - i
  {
    if i < |logins| && logins[i].Date() <= lastSeen {
      SentIsSeen(r, lastSeen, logins, i + 1, takes, boot);
    } else if i < |logins| && r.view.open && takes > 0 {
      var maxSeen := if logins[i].Date() > r.maxSeen then logins[i].Date() else r.maxSeen;
      var next := PageRun(r.view.(sent := r.view.sent + [logins[i]]), maxSeen, false, false);
      SentIsSeen(next, lastSeen, logins, i + 1, takes - 1, boot);
    }
  }

  predicate PollMarked(w: World) {
    w.poll.Polling? ==> w.boot <= |w.view.sent| && Marked(w.view.sent, w.boot, w.poll.lastSeen, w.poll.maxSeen)
  }

  lemma StoresNewest(w: World, step: Step)
    requires step.Fetch? && Enabled(w, step) && Completes(w, step) && step.stored
    ensures var r := Taken(w, step);
            r.maxSeen > w.poll.lastSeen ==> Cursor(Next(w, step).view.store) == r.maxSeen
  {
    var r := Taken(w, step);
    SetThenGet(r.view.store, STATE_KEY, r.maxSeen);
    assert PageHigh(|w.log|, w.poll.page) == PageLow(|w.log|, w.poll.page) ==> r == PageRun(w.view, w.poll.maxSeen, true, false);
    hide HandleLogins, GetInt, Print;
  }

  lemma FetchMarked(w: World, step: Step)
    requires Inv(w) && PollMarked(w) && step.Fetch? && Enabled(w, step)
    ensures PollMarked(Next(w, step))
    ensures Completes(w, step) && step.stored ==>
              Marked(Next(w, step).view.sent, w.boot, w.poll.lastSeen, Cursor(Next(w, step).view.store))
  {
    FetchStore(w, step);
    SentIsSeen(PageRun(w.view, w.poll.maxSeen, true, false), w.poll.lastSeen,
               Answer(w.log, w.poll.page, step.takes, step.stored).logins, 0, step.takes, w.boot);
    assert Next(w, step).boot == w.boot;
    hide HandleLogins, Backwards, Next, Inv;
    if Completes(w, step) && step.stored {
      StoresNewest(w, step);
    }
  }

  lemma {:induction false} RunMarked(run: Run)
    requires Legal(run)
    ensures PollMarked(Exec(run))
  {
    match run
    case Begun(_) =>
    case Then(before, last) =>
      RunMarked(before);
      RunKeeps(before);
      if last.Fetch? {
        FetchMarked(Exec(before), last);
      }
  }

  /** A poll that completes and stores its date has handed over nothing newer than the cursor
      that it leaves, so that no later poll hands over any of it again. */
  lemma CompletedPollMarks(run: Run, step: Step, k: nat)
    requires Legal(run) && step.Fetch? && Enabled(Exec(run), step) && Completes(Exec(run), step) && step.stored
    requires Exec(run).boot <= k < |Next(Exec(run), step).view.sent|
    ensures Next(Exec(run), step).view.sent[k].Date() <= Cursor(Next(Exec(run), step).view.store)
  {
    RunKeeps(run);
    RunMarked(run);
    FetchMarked(Exec(run), step);
  }

  /** In every run the stored cursor never goes back, and only a completed poll moves it. */
  lemma CursorMonotone(run: Run, step: Step)
    requires Legal(run) && Enabled(Exec(run), step)
    ensures var w, t := Exec(run), Next(Exec(run), step);
            && Cursor(w.view.store) <= Cursor(t.view.store)
            && (Cursor(w.view.store) != Cursor(t.view.store) ==> step.Fetch? && Completes(w, step))
  {
    RunKeeps(run);
    if step.Fetch? {
      FetchStore(Exec(run), step);
    }
  }

  /** Over every run with guarded arrivals, whatever polls fail, are cut off or complete,
      a login newer than the first cursor and than every backfill floor used is never
      passed by the date cursor without having been handed over. */
  lemma NoLoss(run: Run, i: nat)
    requires Legal(run) && AllGuarded(run) && i < |Exec(run).log|
    requires var w, date := Exec(run), Exec(run).log[i].Date();
             date > w.first && (w.floor.Some? ==> date > w.floor.value)
    ensures var w := Exec(run); w.log[i] in w.view.sent || Cursor(w.view.store) < w.log[i].Date()
  {
    RunKeepsSafe(run);
  }

  // ---- Arrivals that break the guard ---------------------------------------

  /** The login is in the list, was not handed over, and the cursor is not below it. */
  predicate Passed(w: World, l: Login) {
    l in w.log && l !in w.view.sent && l.Date() <= Cursor(w.view.store)
  }

  /** A login that has been passed is never handed over any more. */
  lemma {:induction false} PassedForGood(run: Run, more: Run, l: Login)
    requires Legal(run) && Legal(more) && Extends(run, more) && Passed(Exec(run), l)
    ensures Passed(Exec(more), l)
  {
    if more != run {
      PassedForGood(run, more.before, l);
      var w, step := Exec(more.before), more.last;
      RunKeeps(more.before);
      CursorMonotone(more.before, step);
      if step.Fetch? && l in Next(w, step).view.sent {
        FetchSends(w, step, l);
      }
      if step.Grow? {
        assert forall x :: x in w.log ==> x in Next(w, step).log;
      }
    }
  }

  /** The promise is not about this login: the poller is told to skip it, or it cannot be
      told from one that is in the list already. */
  predicate Exempt(w: World, l: Login) {
    l in w.log || l.Date() <= w.first || (w.floor.Some? && l.Date() <= w.floor.value)
  }

  function Xs(n: nat): (s: string)
    ensures |s| == n
  {
    seq(n, _ => 'x')
  }

  function Longest(log: seq<Login>): (n: nat)
    ensures forall i :: 0 <= i < |log| && log[i].raw.Str? ==> |log[i].raw.s| <= n
  {
    if log == [] then 0 else
      var n, last := Longest(log[..|log| - 1]), log[|log| - 1].raw;
      if last.Str? && |last.s| > n then |last.s| else n
  }

  /** Further logins of one second, different from each other and from those of the list. */
  function Others(log: seq<Login>, date: I64, n: nat): (ls: seq<Login>)
    ensures |ls| == n
    ensures forall i :: 0 <= i < n ==> ls[i] == Login(Some(date), Json.Str(Xs(Longest(log) + 1 + i)))
  {
    seq(n, i requires 0 <= i < n => Login(Some(date), Json.Str(Xs(Longest(log) + 1 + i))))
  }

  lemma OthersDiffer(log: seq<Login>, date: I64, n: nat)
    requires Distinct(log)
    ensures Distinct(log + Others(log, date, n))
  {
    var ls := Others(log, date, n);
    forall i, j | 0 <= i < j < |log + ls| ensures (log + ls)[i] != (log + ls)[j] {
      if |log| <= j {
        assert |ls[j - |log|].raw.s| == Longest(log) + 1 + (j - |log|);
        assert |log| <= i ==> |ls[i - |log|].raw.s| == Longest(log) + 1 + (i - |log|);
      }
    }
  }

  lemma {:induction false} GrowMany(run: Run, ls: seq<Login>, date: I64, n: nat) returns (more: Run)
    requires Legal(run) && n <= |ls| && forall i :: 0 <= i < |ls| ==> ls[i].Date() == date
    requires Exec(run).log != [] && Exec(run).log[|Exec(run).log| - 1].Date() <= date
    ensures Legal(more) && Extends(run, more)
    ensures Exec(more) == Exec(run).(log := Exec(run).log + ls[..n])
  {
    if n == 0 {
      more := run;
      NilRight(Exec(run).log);
    } else {
      var some := GrowMany(run, ls, date, n - 1);
      more := Then(some, Grow(ls[n - 1]));
      assert Exec(run).log + ls[..n - 1] + [ls[n - 1]] == Exec(run).log + ls[..n];
    }
  }

  /** On an open channel with room for the page nothing is refused, and every newer login
      raises the newest date seen. */
  lemma {:induction false} TakesAll(r: PageRun, lastSeen: I64, logins: seq<Login>, i: nat, takes: nat)
    requires i <= |logins| && r.view.open && !r.refused && |logins| - i <= takes
    ensures var o := HandleLogins(r, lastSeen, logins, i, takes);
            && !o.refused && o.view.open && r.maxSeen <= o.maxSeen
            && forall j :: i <= j < |logins| && logins[j].Date() > lastSeen ==> logins[j].Date() <= o.maxSeen
    decreases |logins| - i
  {
    if i < |logins| {
      var l := logins[i];
      if l.Date() <= lastSeen {
        TakesAll(r, lastSeen, logins, i + 1, takes);
      } else {
        var maxSeen := if l.Date() > r.maxSeen then l.Date() else r.maxSeen;
        TakesAll(PageRun(r.view.(sent := r.view.sent + [l]), maxSeen, false, false), lastSeen, logins, i + 1, takes - 1);
      }
    }
  }

  /** A poll that has yet to read pages below index `n` only, and is sure to move the
      cursor up to the date of `l`, which is not below `n`. */
  predicate Ending(w: World, n: nat, l: Login) {
    && w.poll.Polling? && w.poll.page > 1 && w.view.open
    && l in w.log && l !in w.view.sent && w.poll.lastSeen < l.Date()
    && PageHigh(|w.log|, w.poll.page) <= n <= |w.log| && l !in w.log[..n]
    && (l.Date() <= w.poll.maxSeen
        || (0 < n == PageHigh(|w.log|, w.poll.page) && l.Date() <= w.log[n - 1].Date()))
  }

  const TAKE_ALL: Step := Fetch(PAGE_SIZE, true)

  lemma EndingSeen(w: World, n: nat, l: Login)
    requires Inv(w) && Ending(w, n, l)
    ensures !Taken(w, TAKE_ALL).refused && Taken(w, TAKE_ALL).view.open && l.Date() <= Taken(w, TAKE_ALL).maxSeen
  {
    var low, high := PageLow(|w.log|, w.poll.page), PageHigh(|w.log|, w.poll.page);
    var page := Backwards(w.log, low, high);
    assert |page| <= PAGE_SIZE;
    TakesAll(PageRun(w.view, w.poll.maxSeen, true, false), w.poll.lastSeen, page, 0, PAGE_SIZE);
    if l.Date() > w.poll.maxSeen {
      assert low < high && page[0] == w.log[n - 1];
    }
  }

  lemma EndingUnsent(w: World, n: nat, l: Login)
    requires Inv(w) && Ending(w, n, l)
    ensures l !in Next(w, TAKE_ALL).view.sent
  {
    if l in Next(w, TAKE_ALL).view.sent {
      FetchSends(w, TAKE_ALL, l);
    }
  }

  lemma EndingStep(w: World, n: nat, l: Login)
    requires Inv(w) && Ending(w, n, l)
    ensures var t := Next(w, TAKE_ALL);
            && (t.poll.Polling? ==> Ending(t, n, l) && t.log == w.log && t.poll.page == w.poll.page + 1
                                    && w.poll.page < Pages(|w.log|))
            && (t.poll.Idle? ==> Passed(t, l))
  {
    EndingSeen(w, n, l);
    EndingUnsent(w, n, l);
    FetchStore(w, TAKE_ALL);
    var t, r := Next(w, TAKE_ALL), Taken(w, TAKE_ALL);
    SetThenGet(r.view.store, STATE_KEY, r.maxSeen);
    SetThenGet(w.view.store, STATE_KEY, w.poll.maxSeen);
  }

  lemma {:induction false} FinishPoll(run: Run, n: nat, l: Login) returns (more: Run)
    requires Legal(run) && Ending(Exec(run), n, l)
    ensures Legal(more) && Extends(run, more) && Passed(Exec(more), l) && Exec(more).log == Exec(run).log
    decreases Pages(|Exec(run).log|) - Exec(run).poll.page
  {
    RunKeeps(run);
    EndingStep(Exec(run), n, l);
    more := Then(run, TAKE_ALL);
    if Exec(more).poll.Polling? {
      var rest := FinishPoll(more, n, l);
      ExtendsFurther(run, more, rest);
      more := rest;
    }
  }

  /** The page to be read next would show the logins from the one before `l` down, if
      that many arrived above it. */
  predicate Crowdable(w: World, l: Login) {
    && w.poll.Polling? && w.poll.page > 1 && w.log != [] && w.view.open
    && l !in w.log && l !in w.view.sent
    && w.poll.lastSeen < l.Date() == w.log[|w.log| - 1].Date()
  }

  function Crowd(w: World, l: Login): (ls: seq<Login>)
    requires Crowdable(w, l)
    ensures |ls| + 1 == PAGE_SIZE * (w.poll.page - 1)
    ensures forall i :: 0 <= i < |ls| ==> ls[i].Date() == l.Date()
  {
    Others(w.log + [l], l.Date(), PAGE_SIZE * (w.poll.page - 1) - 1)
  }

  lemma PushedAbove(w: World, t: World, l: Login)
    requires Crowdable(w, l) && t == w.(log := w.log + [l] + Crowd(w, l))
    ensures Ending(t, |w.log|, l)
  {
    var n := |w.log|;
    assert |t.log| == n + PAGE_SIZE * (w.poll.page - 1);
    assert t.log[..n] == w.log && t.log[n] == l;
    assert PageHigh(|t.log|, t.poll.page) == n;
  }

  lemma BrokenGuard(run: Run, l: Login)
    requires Legal(run) && Enabled(Exec(run), Grow(l))
    requires !Guarded(Exec(run), Grow(l)) && !Exempt(Exec(run), l) && Cursor(Exec(run).view.store) < l.Date()
    ensures var w, grown := Exec(run), Then(run, Grow(l));
            Crowdable(w, l) && Legal(grown) && Exec(grown) == w.(log := w.log + [l])
  {
    hide Handed, Ascending, GetInt, HandleReply, Begin, Answer;
    RunKeeps(run);
  }

  lemma NoneRepeats(log: seq<Login>, l: Login, date: I64, n: nat)
    requires Distinct(log) && l !in log
    ensures Distinct(log + [l] + Others(log + [l], date, n))
  {
    assert Distinct(log + [l]);
    OthersDiffer(log + [l], date, n);
  }

  lemma CrowdDiffers(w: World, l: Login)
    requires Crowdable(w, l)
    ensures Distinct(w.log) ==> Distinct(w.log + [l] + Crowd(w, l))
  {
    if Distinct(w.log) {
      NoneRepeats(w.log, l, l.Date(), |Crowd(w, l)|);
    }
  }

  lemma PushUp(run: Run, l: Login) returns (more: Run)
    requires Legal(run) && Crowdable(Exec(run), l)
    requires var grown := Then(run, Grow(l)); Legal(grown) && Exec(grown) == Exec(run).(log := Exec(run).log + [l])
    ensures Legal(more) && Extends(Then(run, Grow(l)), more)
    ensures Ending(Exec(more), |Exec(run).log|, l)
    ensures Exec(more).log == Exec(run).log + [l] + Crowd(Exec(run), l)
  {
    var w := Exec(run);
    var ls := Crowd(w, l);
    hide Legal, Exec, Ending, Crowd;
    assert (w.log + [l])[|w.log|] == l && ls[..|ls|] == ls;
    more := GrowMany(Then(run, Grow(l)), ls, l.Date(), |ls|);
    PushedAbove(w, Exec(more), l);
  }

  lemma PushedIsPassed(run: Run, l: Login) returns (more: Run)
    requires Legal(run) && Enabled(Exec(run), Grow(l))
    requires !Guarded(Exec(run), Grow(l)) && !Exempt(Exec(run), l) && Cursor(Exec(run).view.store) < l.Date()
    ensures Legal(more) && Extends(Then(run, Grow(l)), more) && Passed(Exec(more), l)
    ensures Distinct(Exec(run).log) ==> Distinct(Exec(more).log)
  {
    hide *;
    BrokenGuard(run, l);
    var w := Exec(run);
    CrowdDiffers(w, l);
    var pushed := PushUp(run, l);
    more := FinishPoll(pushed, |w.log|, l);
    ExtendsFurther(Then(run, Grow(l)), pushed, more);
  }

  /** The guard is exact: from every state of every run, an arrival that breaks it and is
      not exempt is passed in some way the run can go on, without any entry turning up
      twice. If it is not passed at once, enough further logins push it above the next
      page of the poll that is under way, which sees another login of the same second and
      moves the cursor there. */
  lemma UnguardedIsPassed(run: Run, l: Login) returns (more: Run)
    requires Legal(run) && Enabled(Exec(run), Grow(l))
    requires !Guarded(Exec(run), Grow(l)) && !Exempt(Exec(run), l)
    ensures Legal(more) && Extends(Then(run, Grow(l)), more) && Passed(Exec(more), l)
    ensures Distinct(Exec(run).log) ==> Distinct(Exec(more).log)
  {
    if Cursor(Exec(run).view.store) < l.Date() {
      more := PushedIsPassed(run, l);
    } else {
      RunKeeps(run);
      more := Then(run, Grow(l));
      assert Exec(more).log[|Exec(run).log|] == l;
    }
  }

  lemma OnePage(log: seq<Login>)
    requires 0 < |log| <= PAGE_SIZE
    ensures Answer(log, 1, 1, true) == Page(Backwards(log, 0, |log|), Some(1), Some(1), 1, true)
  {
  }

  /** A poll, with the floor at 0, of a list that fits on one page. */
  lemma ShortPoll(run: Run, page: seq<Login>)
    requires Legal(run) && Exec(run).poll.Idle? && 0 < |Exec(run).log| <= PAGE_SIZE
    requires page == Backwards(Exec(run).log, 0, |Exec(run).log|)
    requires Exec(run).floor.None? || Exec(run).floor.value == 0
    ensures var w, polled := Exec(run), Then(Then(run, Start(0)), Fetch(1, true));
            && Legal(polled)
            && (Exec(polled).view, Exec(polled).poll)
               == HandleReply(w.view, Begin(w.view.store, 0), Page(page, Some(1), Some(1), 1, true))
            && Exec(polled).log == w.log && Exec(polled).first == w.first && Exec(polled).floor == Some(0)
  {
    var w, started, fetch := Exec(run), Then(run, Start(0)), Fetch(1, true);
    OnePage(w.log);
    var s := w.(poll := Begin(w.view.store, 0), floor := Some(0), asked := 0, met := Cursor(w.view.store), boot := |w.view.sent|);
    assert Legal(started) && Exec(started) == s;
    assert Legal(Then(started, fetch)) && Exec(Then(started, fetch)) == Next(s, fetch);
  }

  const TIED: Login := Login(Some(10), Json.Bool(true))

  lemma PollIsGuarded(run: Run, fetch: Step)
    requires fetch.Fetch? && Legal(run) && Legal(Then(Then(run, Start(0)), fetch)) && AllGuarded(run)
    ensures AllGuarded(Then(Then(run, Start(0)), fetch))
  {
    hide Next, Enabled;
    assert AllGuarded(Then(run, Start(0)));
  }

  function AtFive(): View {
    View(map[STATE_KEY := Print(5)], [], true)
  }

  lemma BeforePoll(a: Login) returns (run: Run)
    requires a.Date() == 10
    ensures Legal(run) && AllGuarded(run)
    ensures var w := Exec(run);
            w.view == AtFive() && w.poll.Idle? && w.log == [a] && w.first == 5 && w.floor.None?
    ensures Begin(AtFive().store, 0) == Polling(5, 5, 1)
  {
    ParsePrint(5);
    run := Begun(World(AtFive(), Idle, [a], 5, None, 0, 0, 0, 0, 0, 0));
    hide Print, Parse;
  }

  /** A first poll over one login, dated 10, from the cursor 5. */
  lemma ForwardOne() returns (run: Run)
    ensures Legal(run) && AllGuarded(run)
    ensures var w, a := Exec(run), Login(Some(10), Json.Null);
            w.log == [a] && w.view == View(map[STATE_KEY := Print(10)], [a], true)
            && w.poll.Idle? && w.first == 5 && w.floor == Some(0)
  {
    var a := Login(Some(10), Json.Null);
    var begun := BeforePoll(a);
    var v := AtFive();
    assert v.store[STATE_KEY := Print(10)] == map[STATE_KEY := Print(10)];
    assert Backwards([a], 0, 1) == [a];
    ReplyOne(v, a);
    hide HandleReply, Answer, Print, Next, Enabled, Begin, HandleLogins, Backwards, Legal, Exec, AllGuarded;
    ShortPoll(begun, [a]);
    run := Then(Then(begun, Start(0)), Fetch(1, true));
    PollIsGuarded(begun, Fetch(1, true));
  }

  lemma ReplyOne(v: View, a: Login)
    requires v.open && v.sent == [] && a.Date() == 10
    ensures HandleReply(v, Polling(5, 5, 1), Page([a], Some(1), Some(1), 1, true))
         == (View(v.store[STATE_KEY := Print(10)], [a], true), Idle)
  {
    assert HandleLogins(PageRun(v, 5, true, false), 5, [a], 0, 1)
        == HandleLogins(PageRun(View(v.store, [a], true), 10, false, false), 5, [a], 1, 0);
  }

  lemma ReplyTied(v: View, a: Login)
    requires a.Date() == 10
    ensures HandleReply(v, Polling(10, 10, 1), Page([TIED, a], Some(1), Some(1), 1, true)) == (v, Idle)
  {
    var r := PageRun(v, 10, true, false);
    assert HandleLogins(r, 10, [TIED, a], 0, 1) == HandleLogins(r, 10, [TIED, a], 1, 1) == r;
  }

  /** Dates have a resolution of one second and the comparison is strict: a second login
      in the second of the last one forwarded is never forwarded. */
  lemma TieIsLost() returns (run: Run)
    ensures Legal(run) && !AllGuarded(run)
    ensures var w := Exec(run);
            && w.poll.Idle? && w.first == 5 && w.floor == Some(0)
            && |w.log| == 2 && w.log[1] == TIED && TIED !in w.view.sent
            && Cursor(w.view.store) == TIED.Date()
  {
    var a := Login(Some(10), Json.Null);
    var forwarded := ForwardOne();
    ParsePrint(10);
    var grown := Then(forwarded, Grow(TIED));
    assert Legal(grown) && !Guarded(Exec(forwarded), Grow(TIED)) && !AllGuarded(grown);
    ShortPoll(grown, [TIED, a]);
    ReplyTied(Exec(grown).view, a);
    assert Begin(Exec(grown).view.store, 0) == Polling(10, 10, 1);
    hide HandleReply, Answer, Print, Parse, Next, Enabled, GetInt, Begin, HandleLogins, Backwards;
    var started := Then(grown, Start(0));
    assert !AllGuarded(started);
    run := Then(started, Fetch(1, true));
  }
}
