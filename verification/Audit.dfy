/** The audit poller: cursor pagination with persisted `oldest` and `cursor`, and the
    dedup window that hides what an inclusive lower bound returns again. */
module Audit {
  import opened Wrappers
  import opened StateStore
  import opened Dedup
  import Json

  const OLDEST_KEY := "audit.oldest"
  const CURSOR_KEY := "audit.cursor"
  const CAPACITY: nat := 10_000
  const DAY: int := 24 * 3600

  /** Seconds since the epoch, as far as a clock can show them. */
  type Clock = n: int | 0 <= n < 0x4000_0000_0000_0000

  // ---- Entries and events --------------------------------------------------

  /** An audit entry as the poller reads it: its id if that is a string, its creation
      date if that is an integer, and the JSON it came as. */
  datatype Entry = Entry(id: Option<string>, date: Option<I64>, raw: Json.Value)

  datatype AuditEvent = AuditEvent(id: string, date: I64, raw: Json.Value)

  /** Only an entry without a string id cannot be normalized. */
  function Normalize(entry: Entry): Option<AuditEvent> {
    match entry.id
    case None => None
    case Some(id) => Some(AuditEvent(id, if entry.date.Some? then entry.date.value else 0, entry.raw))
  }

  // ---- One page ------------------------------------------------------------

  /** The cursor store, the ids the dedup cache has accepted in this process, what
      was handed to the channel, and whether the channel still takes events. */
  datatype View = View(store: Store, accepted: seq<string>, sent: seq<AuditEvent>, open: bool)

  /** What happens to an entry: dropped as already seen or not normalizable, handed
      to the channel, or refused by it. */
  datatype Mark = Skipped | Handed | Refused

  function Remember(v: View, id: Option<string>): View {
    match id
    case None => v
    case Some(i) => v.(accepted := v.accepted + [i])
  }

  /** The id is remembered before the channel is asked. */
  function HandleEntry(v: View, entry: Entry, taken: bool): (View, Mark) {
    var id, event := entry.id, Normalize(entry);
    if id.Some? && id.value in Window(v.accepted, CAPACITY) then (v, Skipped)
    else
      var seen := Remember(v, id);
      if event.None? then (seen, Skipped)
      else if v.open && taken then (seen.(sent := v.sent + [event.value]), Handed)
      else (seen.(open := false), Refused)
  }

  datatype Outcome = Outcome(view: View, refused: bool)

  /** Work through a page from entry `i` on; the channel takes at most `takes` events
      before it is found closed, which ends the page. */
  function HandleEntries(v: View, entries: seq<Entry>, i: nat, takes: nat): Outcome
    requires i <= |entries|
    decreases |entries| - i
  {
    if i == |entries| then Outcome(v, false) else
      var (w, mark) := HandleEntry(v, entries[i], takes > 0);
      if mark.Refused? then Outcome(w, true)
      else HandleEntries(w, entries, i + 1, if mark.Handed? then takes - 1 else takes)
  }

  function Later(entry: Entry, newest: I64): I64 {
    var date := entry.date;
    if date.Some? && date.value > newest then date.value else newest
  }

  function Newest(entries: seq<Entry>, i: nat, newest: I64): I64
    requires i <= |entries|
    decreases |entries| - i
  {
    if i == |entries| then newest else Newest(entries, i + 1, Later(entries[i], newest))
  }

  // ---- One poll ------------------------------------------------------------

  /** What a request meets: a page, with the outcomes of the writes that follow it, a
      rate limit, or anything that ends the poll with an error. */
  datatype Reply =
    | Page(entries: seq<Entry>, next: Option<string>, takes: nat, stored: bool, cleared: bool)
    | RateLimited
    | Rejected

  datatype Poll = Idle | Polling(oldest: I64, cursor: Option<string>, newest: I64)

  function Persisted(store: Store): Option<string> {
    if CURSOR_KEY in store && store[CURSOR_KEY] != "" then Some(store[CURSOR_KEY]) else None
  }

  function Begin(store: Store, now: Clock): Poll {
    var stored := GetInt(store, OLDEST_KEY);
    var oldest: I64 := if stored.Some? then stored.value else now - DAY;
    Polling(oldest, Persisted(store), oldest)
  }

  function HandleReply(v: View, poll: Poll, reply: Reply): (View, Poll)
    requires poll.Polling?
  {
    match reply
    case RateLimited => (v, poll)
    case Rejected => (v, Idle)
    case Page(entries, next, takes, stored, cleared) =>
      var page := HandleEntries(v, entries, 0, takes);
      var w := page.view;
      if page.refused || !stored then (w, Idle)
      else if next.Some? && next.value != "" then
        (w.(store := w.store[CURSOR_KEY := next.value]), Polling(poll.oldest, next, Newest(entries, 0, poll.newest)))
      else
        var store := w.store[OLDEST_KEY := Print(Newest(entries, 0, poll.newest))];
        (w.(store := if cleared then store[CURSOR_KEY := ""] else store), Idle)
  }

  /** A poll against a script of replies. A script that runs out leaves the poll where
      it stands, as when the process is stopped. */
  function HandleReplies(v: View, poll: Poll, script: seq<Reply>): (View, Poll)
    decreases |script|
  {
    if poll.Idle? || script == [] then (v, poll) else
      var (w, next) := HandleReply(v, poll, script[0]);
      HandleReplies(w, next, script[1..])
  }

  class AuditPoller {
    var store: Store
    const dedup: DedupCache
    var sent: seq<AuditEvent>
    var open: bool

    ghost predicate Valid()
      reads this, dedup
    {
      dedup.Valid() && dedup.cap == CAPACITY
    }

    ghost function Now(): View
      reads this, dedup
    {
      View(store, dedup.accepted, sent, open)
    }

    constructor (store: Store)
      ensures Valid() && fresh(dedup) && Now() == View(store, [], [], true)
    {
      this.store := store;
      dedup := new DedupCache(CAPACITY);
      sent := [];
      open := true;
    }

    method Send(event: AuditEvent, taken: bool) returns (ok: bool)
      modifies this`sent, this`open
      ensures ok == (old(open) && taken) && open == ok
      ensures sent == if ok then old(sent) + [event] else old(sent)
    {
      ok := open && taken;
      open := ok;
      if ok {
        sent := sent + [event];
      }
    }

    method TakeEntry(entry: Entry, taken: bool) returns (mark: Mark)
      requires Valid()
      modifies this`sent, this`open, dedup
      ensures Valid() && (Now(), mark) == HandleEntry(old(Now()), entry, taken)
    {
      var id := entry.id;
      if id.Some? {
        var isNew := dedup.Record(id.value);
        if !isNew {
          return Skipped;
        }
      }
      var event := Normalize(entry);
      if event.None? {
        return Skipped;
      }
      var ok := Send(event.value, taken);
      mark := if ok then Handed else Refused;
    }

    method TakePage(entries: seq<Entry>, takes: nat, newest: I64) returns (refused: bool, newestSeen: I64)
      requires Valid()
      modifies this`sent, this`open, dedup
      ensures Valid() && Outcome(Now(), refused) == HandleEntries(old(Now()), entries, 0, takes)
      ensures !refused ==> newestSeen == Newest(entries, 0, newest)
    {
      newestSeen := newest;
      var left := takes;
      ghost var goal := HandleEntries(Now(), entries, 0, takes);
      for i := 0 to |entries|
        invariant Valid()
        invariant goal == HandleEntries(Now(), entries, i, left)
        invariant Newest(entries, 0, newest) == Newest(entries, i, newestSeen)
      {
        newestSeen := Later(entries[i], newestSeen);
        var mark := TakeEntry(entries[i], left > 0);
        if mark.Refused? {
          return true, newestSeen;
        }
        if mark.Handed? {
          left := left - 1;
        }
      }
      refused := false;
    }

    /** A poll does what the reply-by-reply specification says, whatever is answered
        and wherever it is cut off. */
    method PollOnce(now: Clock, script: seq<Reply>) returns (finished: bool)
      requires Valid()
      modifies this, dedup
      ensures Valid()
      ensures Now() == HandleReplies(old(Now()), Begin(old(store), now), script).0
      ensures finished <==> HandleReplies(old(Now()), Begin(old(store), now), script).1.Idle?
    {
      var stored := GetInt(store, OLDEST_KEY);
      var oldest: I64 := if stored.Some? then stored.value else now - DAY;
      var cursor := Persisted(store);
      var newestSeen := oldest;
      for i := 0 to |script|
        invariant Valid()
        invariant HandleReplies(old(Now()), Begin(old(store), now), script)
               == HandleReplies(Now(), Polling(oldest, cursor, newestSeen), script[i..])
      {
        assert script[i..][1..] == script[i + 1..];
        match script[i] {
          case RateLimited =>
          case Rejected => return true;
          case Page(entries, next, takes, stored, cleared) =>
            var refused;
            refused, newestSeen := TakePage(entries, takes, newestSeen);
            if refused || !stored {
              return true;
            }
            if next.Some? && next.value != "" {
              cursor := next;
              store := store[CURSOR_KEY := next.value];
            } else {
              store := store[OLDEST_KEY := Print(newestSeen)];
              if cleared {
                store := store[CURSOR_KEY := ""];
              }
              return true;
            }
        }
      }
      finished := false;
    }
  }
}
