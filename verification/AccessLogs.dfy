/** The access-log poller: offset pagination over a newest-first list that grows at its
    head, with an early stop and a date cursor that only a completed poll moves. */
module AccessLogs {
  import opened Wrappers
  import opened StateStore
  import Json

  const STATE_KEY := "access_logs.date_first"

  /** A login as the poller reads it: an absent or non-integer date counts as 0. */
  datatype Login = Login(dateFirst: Option<I64>, raw: Json.Value) {
    function Date(): I64 {
      if dateFirst.Some? then dateFirst.value else 0
    }
  }

  /** The cursor store, the logins handed to the channel, and whether it still takes any. */
  datatype View = View(store: Store, sent: seq<Login>, open: bool)

  /** What has come of a page so far. */
  datatype PageRun = PageRun(view: View, maxSeen: I64, allOld: bool, refused: bool)

  /** Work through a page from login `i` on; the channel takes at most `takes` more. */
  function HandleLogins(r: PageRun, lastSeen: I64, logins: seq<Login>, i: nat, takes: nat): PageRun
    requires i <= |logins|
    decreases |logins| - i
  {
    if i == |logins| then r
    else if logins[i].Date() <= lastSeen then HandleLogins(r, lastSeen, logins, i + 1, takes)
    else
      var maxSeen := if logins[i].Date() > r.maxSeen then logins[i].Date() else r.maxSeen;
      if !r.view.open || takes == 0 then PageRun(r.view.(open := false), maxSeen, false, true)
      else
        var view := r.view.(sent := r.view.sent + [logins[i]]);
        HandleLogins(PageRun(view, maxSeen, false, false), lastSeen, logins, i + 1, takes - 1)
  }

  /** A page with its paging block, if any, and the outcome of the write that may follow;
      or anything that ends the poll with an error. */
  datatype Reply =
    | Page(logins: seq<Login>, page: Option<nat>, pages: Option<nat>, takes: nat, stored: bool)
    | Failed

  datatype Poll = Idle | Polling(lastSeen: I64, maxSeen: I64, page: nat)

  /** The cursor is clamped up to the backfill floor. */
  function Begin(store: Store, floor: I64): Poll {
    var stored := GetInt(store, STATE_KEY);
    var cursor: I64 := if stored.Some? then stored.value else 0;
    var lastSeen := if cursor > floor then cursor else floor;
    Polling(lastSeen, lastSeen, 1)
  }

  function Finish(v: View, lastSeen: I64, maxSeen: I64, stored: bool): View {
    if maxSeen > lastSeen && stored then v.(store := v.store[STATE_KEY := Print(maxSeen)]) else v
  }

  function HandleReply(v: View, poll: Poll, reply: Reply): (View, Poll)
    requires poll.Polling?
  {
    match reply
    case Failed => (v, Idle)
    case Page(logins, page, pages, takes, stored) =>
      if logins == [] then (Finish(v, poll.lastSeen, poll.maxSeen, stored), Idle)
      else
        var r := HandleLogins(PageRun(v, poll.maxSeen, true, false), poll.lastSeen, logins, 0, takes);
        if r.refused then (r.view, Idle)
        else if r.allOld || (if page.Some? then page.value else 1) >= (if pages.Some? then pages.value else 1)
        then (Finish(r.view, poll.lastSeen, r.maxSeen, stored), Idle)
        else (r.view, Polling(poll.lastSeen, r.maxSeen, poll.page + 1))
  }

  function HandleReplies(v: View, poll: Poll, script: seq<Reply>, i: nat): (View, Poll)
    requires i <= |script|
    decreases |script| - i
  {
    if poll.Idle? || i == |script| then (v, poll) else
      var (w, next) := HandleReply(v, poll, script[i]);
      HandleReplies(w, next, script, i + 1)
  }

  class AccessLogsPoller {
    var store: Store
    var sent: seq<Login>
    var open: bool

    ghost function Now(): View
      reads this
    {
      View(store, sent, open)
    }

    constructor (store: Store)
      ensures Now() == View(store, [], true)
    {
      this.store := store;
      sent := [];
      open := true;
    }

    method TakePage(logins: seq<Login>, lastSeen: I64, max: I64, takes: nat)
        returns (maxSeen: I64, allOld: bool, refused: bool)
      modifies this`sent, this`open
      ensures PageRun(Now(), maxSeen, allOld, refused)
           == HandleLogins(PageRun(old(Now()), max, true, false), lastSeen, logins, 0, takes)
    {
      maxSeen, allOld, refused := max, true, false;
      var left := takes;
      for i := 0 to |logins|
        invariant !refused && store == old(store)
        invariant HandleLogins(PageRun(old(Now()), max, true, false), lastSeen, logins, 0, takes)
               == HandleLogins(PageRun(Now(), maxSeen, allOld, false), lastSeen, logins, i, left)
      {
        if logins[i].Date() <= lastSeen {
          continue;
        }
        allOld := false;
        if logins[i].Date() > maxSeen {
          maxSeen := logins[i].Date();
        }
        if !open || left == 0 {
          open := false;
          refused := true;
          return;
        }
        sent := sent + [logins[i]];
        left := left - 1;
      }
    }

    /** A poll does what the reply-by-reply specification says, whatever is answered
        and wherever it is cut off. */
    method PollOnce(floor: I64, script: seq<Reply>) returns (finished: bool)
      modifies this
      ensures Now() == HandleReplies(old(Now()), Begin(old(store), floor), script, 0).0
      ensures finished <==> HandleReplies(old(Now()), Begin(old(store), floor), script, 0).1.Idle?
    {
      var read := GetInt(store, STATE_KEY);
      var cursor: I64 := if read.Some? then read.value else 0;
      var lastSeen: I64 := if cursor > floor then cursor else floor;
      var maxSeen: I64 := lastSeen;
      var number: nat := 1;
      for i := 0 to |script|
        invariant HandleReplies(old(Now()), Begin(old(store), floor), script, 0)
               == HandleReplies(Now(), Polling(lastSeen, maxSeen, number), script, i)
      {
        if script[i].Failed? {
          return true;
        }
        var logins, stored := script[i].logins, script[i].stored;
        var last := logins == [];
        if !last {
          var allOld, refused;
          maxSeen, allOld, refused := TakePage(logins, lastSeen, maxSeen, script[i].takes);
          if refused {
            return true;
          }
          var page := if script[i].page.Some? then script[i].page.value else 1;
          var pages := if script[i].pages.Some? then script[i].pages.value else 1;
          last := allOld || page >= pages;
        }
        if last {
          if maxSeen > lastSeen && stored {
            store := store[STATE_KEY := Print(maxSeen)];
          }
          return true;
        }
        number := number + 1;
      }
      finished := false;
    }
  }
}
