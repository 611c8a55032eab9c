/** The Socket Mode source: acknowledge first, then deduplicate and forward, across any
    number of connections. The network, the channel and the clock answer as the script
    says; a script that ends stands for a source stopped at that point. */
module EventsSocket {
  import opened Wrappers
  import Dedup

  datatype Payload = Payload(eventId: Option<string>, body: string)

  datatype Kind = Hello | Disconnect | EventsApi(payload: Option<Payload>) | Other

  /** What wakes the message loop, with the answers to the calls that it then makes:
      whether the acknowledgement or pong is sent, the clock reading in decimal, and whether the
      channel is open. */
  datatype Move =
    | Shutdown
    | ReadError
    | StreamEnd
    | Unparsable
    | Text(envelope: Option<string>, acked: bool, kind: Kind, clock: string, open: bool)
    | Ping(answered: bool)
    | Close
    | Ignored

  /** One round of the connection loop; `woken` when shutdown ends its pause. */
  datatype Attempt =
    | SignalSeen
    | OpenFailed(woken: bool)
    | ConnectFailed(woken: bool)
    | Connected(moves: seq<Move>, woken: bool)

  datatype Action =
    | Acked(envelopeId: string)
    | AckFailed(envelopeId: string)
    | Forwarded(envelope: Option<string>, id: string, payload: Payload)
    | Discarded(envelope: Option<string>, id: string, payload: Payload)
    | Ponged
    | Closing
    | Paused(seconds: nat)

  datatype Flow = Continue | Reconnect | Stop

  /** The ids accepted by the cache and everything done, in order. */
  datatype Trace = Trace(accepted: seq<string>, log: seq<Action>)

  const BACKOFF_START: nat := 1
  const BACKOFF_MAX: nat := 30

  function EventId(payload: Payload, clock: string): string {
    match payload.eventId
    case Some(id) => id
    case None => "auto-" + clock
  }

  // ---- One frame -----------------------------------------------------------

  /** What a frame does to the connection. It does not depend on what came before. */
  function FlowOf(move: Move): Flow {
    match move
    case Shutdown => Stop
    case ReadError => Reconnect
    case StreamEnd => Reconnect
    case Unparsable => Continue
    case Text(envelope, acked, kind, _, _) =>
      if (envelope.Some? && !acked) || kind.Disconnect? then Reconnect else Continue
    case Ping(answered) => if answered then Continue else Reconnect
    case Close => Reconnect
    case Ignored => Continue
  }

  /** The id a frame brings to the cache: one of an event that came without envelope
      or whose acknowledgement was sent. */
  function Arrival(move: Move): (ids: seq<string>)
    ensures |ids| <= 1
  {
    if move.Text? && (move.envelope.None? || move.acked) && move.kind.EventsApi? && move.kind.payload.Some?
    then [EventId(move.kind.payload.value, move.clock)] else []
  }

  /** Of at most one id, what the cache lets through. */
  function Novel(accepted: seq<string>, cap: nat, ids: seq<string>): seq<string>
    requires |ids| <= 1
  {
    if ids == [] || ids[0] in Dedup.Window(accepted, cap) then [] else ids
  }

  function Hand(envelope: Option<string>, payload: Payload, clock: string, open: bool): Action {
    if open then Forwarded(envelope, EventId(payload, clock), payload)
    else Discarded(envelope, EventId(payload, clock), payload)
  }

  function Acknowledge(envelope: Option<string>, acked: bool): seq<Action> {
    if envelope.None? then [] else [if acked then Acked(envelope.value) else AckFailed(envelope.value)]
  }

  function Done(accepted: seq<string>, cap: nat, move: Move): seq<Action> {
    match move
    case Text(envelope, acked, kind, clock, open) =>
      if Novel(accepted, cap, Arrival(move)) == [] then Acknowledge(envelope, acked)
      else Acknowledge(envelope, acked) + [Hand(envelope, kind.payload.value, clock, open)]
    case Ping(true) => [Ponged]
    case Shutdown => [Closing]
    case _ => []
  }

  function Handle(t: Trace, cap: nat, move: Move): Trace {
    Trace(t.accepted + Novel(t.accepted, cap, Arrival(move)), t.log + Done(t.accepted, cap, move))
  }

  // ---- One connection, and a whole run -------------------------------------

  /** How many of the frames, from the given one on, are read. */
  function ReadCount(moves: seq<Move>, from: nat): (n: nat)
    requires from <= |moves|
    ensures from <= n <= |moves|
    ensures forall i :: from <= i < n - 1 ==> FlowOf(moves[i]).Continue?
    ensures n < |moves| ==> from < n && !FlowOf(moves[n - 1]).Continue?
    decreases |moves| - from
  {
    if from == |moves| then from
    else if FlowOf(moves[from]).Continue? then ReadCount(moves, from + 1) else from + 1
  }

  /** A connection whose frames run out has been closed by the server. */
  function LastFlow(moves: seq<Move>): Flow {
    var n := ReadCount(moves, 0);
    if n == 0 || FlowOf(moves[n - 1]).Continue? then Reconnect else FlowOf(moves[n - 1])
  }

  function Pump(t: Trace, cap: nat, moves: seq<Move>, n: nat): Trace
    requires n <= |moves|
  {
    if n == 0 then t else Handle(Pump(t, cap, moves, n - 1), cap, moves[n - 1])
  }

  /** No further round follows this one. */
  predicate Ends(attempt: Attempt) {
    match attempt
    case SignalSeen => true
    case OpenFailed(woken) => woken
    case ConnectFailed(woken) => woken
    case Connected(moves, woken) => LastFlow(moves).Stop? || woken
  }

  function Rounds(attempts: seq<Attempt>, from: nat): (n: nat)
    requires from <= |attempts|
    ensures from <= n <= |attempts|
    ensures forall i :: from <= i < n - 1 ==> !Ends(attempts[i])
    ensures n < |attempts| ==> from < n && Ends(attempts[n - 1])
    decreases |attempts| - from
  {
    if from == |attempts| then from
    else if Ends(attempts[from]) then from + 1 else Rounds(attempts, from + 1)
  }

  /** Failed rounds in a row before round `k`. */
  function Failures(attempts: seq<Attempt>, k: nat): nat
    requires k <= |attempts|
  {
    if k > 0 && (attempts[k - 1].OpenFailed? || attempts[k - 1].ConnectFailed?)
    then Failures(attempts, k - 1) + 1 else 0
  }

  /** The pause is `2^j` seconds after `j` failures before this one, at most 30, and one
      second after a connection that was made. */
  function PauseOf(attempts: seq<Attempt>, k: nat): nat
    requires k < |attempts|
  {
    if attempts[k].Connected? then BACKOFF_START else Min(Pow2(Failures(attempts, k)), BACKOFF_MAX)
  }

  function Pause(t: Trace, seconds: nat): Trace {
    t.(log := t.log + [Paused(seconds)])
  }

  function Round(t: Trace, cap: nat, attempts: seq<Attempt>, k: nat): Trace
    requires k < |attempts|
  {
    match attempts[k]
    case SignalSeen => t
    case Connected(moves, _) =>
      var u := Pump(t, cap, moves, ReadCount(moves, 0));
      if LastFlow(moves).Stop? then u else Pause(u, PauseOf(attempts, k))
    case _ => Pause(t, PauseOf(attempts, k))
  }

  function RunTo(cap: nat, attempts: seq<Attempt>, k: nat): Trace
    requires k <= |attempts|
  {
    if k == 0 then Trace([], []) else Round(RunTo(cap, attempts, k - 1), cap, attempts, k - 1)
  }

  function RunAll(cap: nat, attempts: seq<Attempt>): Trace {
    RunTo(cap, attempts, Rounds(attempts, 0))
  }

  // ---- The code ------------------------------------------------------------

  function CacheSize(capacity: nat): nat { if capacity == 0 then 1 else capacity }

  method ForwardPayload(envelope: Option<string>, payload: Payload, clock: string, open: bool, dedup: Dedup.DedupCache)
      returns (done: seq<Action>)
    requires dedup.Valid()
    modifies dedup
    ensures dedup.Valid()
    ensures var ids := Novel(old(dedup.accepted), dedup.cap, [EventId(payload, clock)]);
            dedup.accepted == old(dedup.accepted) + ids
            && done == if ids == [] then [] else [Hand(envelope, payload, clock, open)]
  {
    done := [];
    var id := EventId(payload, clock);
    var isNew := dedup.Record(id);
    if isNew {
      done := [if open then Forwarded(envelope, id, payload) else Discarded(envelope, id, payload)];
    }
  }

  /** One frame: acknowledge, then deduplicate and forward. */
  method ReceiveOne(move: Move, dedup: Dedup.DedupCache) returns (done: seq<Action>, flow: Flow)
    requires dedup.Valid()
    modifies dedup
    ensures dedup.Valid() && flow == FlowOf(move)
    ensures dedup.accepted == old(dedup.accepted) + Novel(old(dedup.accepted), dedup.cap, Arrival(move))
    ensures done == Done(old(dedup.accepted), dedup.cap, move)
  {
    done, flow := [], Continue;
    match move {
      case Shutdown =>
        done, flow := [Closing], Stop;
      case ReadError =>
        flow := Reconnect;
      case StreamEnd =>
        flow := Reconnect;
      case Text(envelope, acked, kind, clock, open) =>
        if envelope.Some? {
          if !acked {
            done, flow := [AckFailed(envelope.value)], Reconnect;
            return;
          }
          done := [Acked(envelope.value)];
        }
        match kind {
          case Disconnect =>
            flow := Reconnect;
          case EventsApi(Some(payload)) =>
            var more := ForwardPayload(envelope, payload, clock, open, dedup);
            done := done + more;
          case _ =>
        }
      case Ping(answered) =>
        if answered {
          done := [Ponged];
        } else {
          flow := Reconnect;
        }
      case Close =>
        flow := Reconnect;
      case _ =>
    }
  }

  /** The message loop of one connection. */
  method PumpMessages(ghost t: Trace, moves: seq<Move>, dedup: Dedup.DedupCache)
      returns (done: seq<Action>, flow: Flow)
    requires dedup.Valid() && dedup.accepted == t.accepted
    modifies dedup
    ensures dedup.Valid() && flow == LastFlow(moves)
    ensures Trace(dedup.accepted, t.log + done) == Pump(t, dedup.cap, moves, ReadCount(moves, 0))
  {
    hide Done, Novel, Arrival;
    done, flow := [], Continue;
    var k := 0;
    assert t.log + [] == t.log;
    while flow == Continue && k < |moves|
      invariant k <= |moves| && dedup.Valid()
      invariant flow.Continue? ==> ReadCount(moves, 0) == ReadCount(moves, k)
      invariant !flow.Continue? ==> ReadCount(moves, 0) == k
      invariant k > 0 ==> flow == FlowOf(moves[k - 1])
      invariant k == 0 ==> flow.Continue?
      invariant Trace(dedup.accepted, t.log + done) == Pump(t, dedup.cap, moves, k)
      decreases |moves| - k
    {
      var more;
      more, flow := ReceiveOne(moves[k], dedup);
      Regroup(t.log, done, more);
      done := done + more;
      k := k + 1;
    }
    if flow == Continue {
      flow := Reconnect;
    }
  }

  lemma PauseDoubles(attempts: seq<Attempt>, k: nat)
    requires k < |attempts| && (attempts[k].OpenFailed? || attempts[k].ConnectFailed?)
    ensures Min(Pow2(Failures(attempts, k + 1)), BACKOFF_MAX)
         == Min(Min(Pow2(Failures(attempts, k)), BACKOFF_MAX) * 2, BACKOFF_MAX)
  {
    assert Pow2(Failures(attempts, k) + 1) == 2 * Pow2(Failures(attempts, k));
  }

  /** The whole source. The cache outlives the connections. */
  method Run(capacity: nat, attempts: seq<Attempt>) returns (log: seq<Action>)
    ensures log == RunAll(CacheSize(capacity), attempts).log
  {
    var dedup := new Dedup.DedupCache(capacity);
    var backoff := BACKOFF_START;
    log := [];
    var k, running := 0, true;
    while running && k < |attempts|
      invariant k <= |attempts| && dedup.Valid() && fresh(dedup) && dedup.cap == CacheSize(capacity)
      invariant running ==> Rounds(attempts, 0) == Rounds(attempts, k)
      invariant !running ==> Rounds(attempts, 0) == k
      invariant Trace(dedup.accepted, log) == RunTo(dedup.cap, attempts, k)
      invariant running ==> backoff == Min(Pow2(Failures(attempts, k)), BACKOFF_MAX)
      decreases |attempts| - k
    {
      match attempts[k] {
        case SignalSeen =>
          running := false;
        case Connected(moves, woken) =>
          backoff := BACKOFF_START;
          var done, flow := PumpMessages(Trace(dedup.accepted, log), moves, dedup);
          log := log + done;
          if flow == Stop {
            running := false;
          } else {
            log := log + [Paused(backoff)];
            running := !woken;
          }
        case OpenFailed(woken) =>
          log := log + [Paused(backoff)];
          running := !woken;
          PauseDoubles(attempts, k);
          backoff := Min(backoff * 2, BACKOFF_MAX);
        case ConnectFailed(woken) =>
          log := log + [Paused(backoff)];
          running := !woken;
          PauseDoubles(attempts, k);
          backoff := Min(backoff * 2, BACKOFF_MAX);
      }
      k := k + 1;
    }
  }

  // ---- What is read --------------------------------------------------------

  function FramesOf(attempt: Attempt): seq<Move> {
    if attempt.Connected? then attempt.moves[..ReadCount(attempt.moves, 0)] else []
  }

  /** The frames read in the first `k` rounds, over all connections. */
  function Frames(attempts: seq<Attempt>, k: nat): seq<Move>
    requires k <= |attempts|
  {
    if k == 0 then [] else Frames(attempts, k - 1) + FramesOf(attempts[k - 1])
  }

  /** The frames read in a whole run. */
  function Read(attempts: seq<Attempt>): seq<Move> {
    Frames(attempts, Rounds(attempts, 0))
  }

  /** After such a frame the connection is given up. */
  predicate Closes(move: Move) {
    || move.Shutdown? || move.ReadError? || move.StreamEnd? || move.Close?
    || (move.Ping? && !move.answered)
    || (move.Text? && ((move.envelope.Some? && !move.acked) || move.kind.Disconnect?))
  }

  /** Of a connection the frames up to the first such one are read, that one included. */
  lemma {:induction false} ReadUntilClosed(moves: seq<Move>, from: nat, i: nat)
    requires from <= i < |moves|
    ensures i < ReadCount(moves, from) <==> forall j :: from <= j < i ==> !Closes(moves[j])
    decreases |moves| - from
  {
    assert Closes(moves[from]) <==> !FlowOf(moves[from]).Continue?;
    if from < i && !Closes(moves[from]) {
      ReadUntilClosed(moves, from + 1, i);
    }
  }

  /** Shutdown is seen before connecting, while pausing, or in the middle of a connection. */
  predicate MeetsShutdown(attempt: Attempt) {
    match attempt
    case SignalSeen => true
    case OpenFailed(woken) => woken
    case ConnectFailed(woken) => woken
    case Connected(moves, woken) =>
      woken || exists i :: 0 <= i < |moves| && moves[i].Shutdown? && forall j :: 0 <= j < i ==> !Closes(moves[j])
  }

  lemma EndsIff(attempt: Attempt)
    ensures Ends(attempt) <==> MeetsShutdown(attempt)
  {
    if attempt.Connected? {
      var moves := attempt.moves;
      var n := ReadCount(moves, 0);
      if n > 0 && moves[n - 1].Shutdown? {
        ReadUntilClosed(moves, 0, n - 1);
      }
      forall i | 0 <= i < |moves| && moves[i].Shutdown? && forall j :: 0 <= j < i ==> !Closes(moves[j]) ensures i == n - 1 {
        ReadUntilClosed(moves, 0, i);
      }
    }
  }

  /** Nothing but shutdown ends the source: it goes on to a further round exactly until
      then, whatever is read, fails or is closed. */
  lemma EndsOnlyByShutdown(attempts: seq<Attempt>)
    ensures forall k :: 0 <= k < Rounds(attempts, 0) - 1 ==> !MeetsShutdown(attempts[k])
    ensures Rounds(attempts, 0) < |attempts| ==>
              Rounds(attempts, 0) > 0 && MeetsShutdown(attempts[Rounds(attempts, 0) - 1])
  {
    forall attempt ensures Ends(attempt) <==> MeetsShutdown(attempt) {
      EndsIff(attempt);
    }
  }

  /** The pause is one second after a connection and after a first failure, and doubles from
      failure to failure up to half a minute. */
  lemma PausesDouble(attempts: seq<Attempt>, k: nat)
    requires k < |attempts| && !attempts[k].SignalSeen?
    ensures var failedBefore := k > 0 && (attempts[k - 1].OpenFailed? || attempts[k - 1].ConnectFailed?);
            PauseOf(attempts, k) ==
              if attempts[k].Connected? || !failedBefore then 1
              else if PauseOf(attempts, k - 1) <= 15 then 2 * PauseOf(attempts, k - 1) else 30
  {
    if k > 0 && (attempts[k - 1].OpenFailed? || attempts[k - 1].ConnectFailed?) {
      PauseDoubles(attempts, k - 1);
    }
  }

  // ---- Invariants over whole runs ------------------------------------------

  /** Every frame and every pause keeps the property, which may
      speak about the frames read so far. */
  ghost predicate Kept(P: (Trace, seq<Move>) -> bool, cap: nat) {
    && (forall t, frames, move {:trigger P(Handle(t, cap, move), frames + [move])} ::
          P(t, frames) ==> P(Handle(t, cap, move), frames + [move]))
    && (forall t, frames, seconds {:trigger P(Pause(t, seconds), frames)} ::
          P(t, frames) ==> P(Pause(t, seconds), frames))
  }

  lemma HandleKeeps(P: (Trace, seq<Move>) -> bool, cap: nat, t: Trace, frames: seq<Move>, move: Move)
    requires Kept(P, cap) && P(t, frames)
    ensures P(Handle(t, cap, move), frames + [move])
  {
  }

  lemma PauseKeeps(P: (Trace, seq<Move>) -> bool, cap: nat, t: Trace, frames: seq<Move>, seconds: nat)
    requires Kept(P, cap) && P(t, frames)
    ensures P(Pause(t, seconds), frames)
  {
  }

  lemma {:induction false} PumpKeeps(P: (Trace, seq<Move>) -> bool, cap: nat,
                                     t: Trace, frames: seq<Move>, moves: seq<Move>, n: nat)
    requires n <= |moves| && Kept(P, cap) && P(t, frames)
    ensures P(Pump(t, cap, moves, n), frames + moves[..n])
  {
    hide Handle, Kept;
    if n == 0 {
      NilRight(frames);
    } else {
      PumpKeeps(P, cap, t, frames, moves, n - 1);
      HandleKeeps(P, cap, Pump(t, cap, moves, n - 1), frames + moves[..n - 1], moves[n - 1]);
      assert frames + moves[..n - 1] + [moves[n - 1]] == frames + moves[..n];
    }
  }

  lemma RoundKeeps(P: (Trace, seq<Move>) -> bool, cap: nat,
                   t: Trace, frames: seq<Move>, attempts: seq<Attempt>, k: nat)
    requires k < |attempts| && Kept(P, cap) && P(t, frames)
    ensures P(Round(t, cap, attempts, k), frames + FramesOf(attempts[k]))
  {
    hide Kept, Pump, Pause, PauseOf, LastFlow;
    NilRight(frames);
    match attempts[k]
    case SignalSeen =>
    case Connected(moves, _) =>
      var n := ReadCount(moves, 0);
      PumpKeeps(P, cap, t, frames, moves, n);
      PauseKeeps(P, cap, Pump(t, cap, moves, n), frames + moves[..n], PauseOf(attempts, k));
    case _ => PauseKeeps(P, cap, t, frames, PauseOf(attempts, k));
  }

  lemma RunUnfolds(cap: nat, attempts: seq<Attempt>, k: nat)
    requires 0 < k <= |attempts|
    ensures RunTo(cap, attempts, k) == Round(RunTo(cap, attempts, k - 1), cap, attempts, k - 1)
    ensures Frames(attempts, k) == Frames(attempts, k - 1) + FramesOf(attempts[k - 1])
  {
    hide Round, FramesOf;
  }

  /** What frames and pauses keep holds at every point of every run. */
  lemma {:induction false} RunKeeps(P: (Trace, seq<Move>) -> bool, cap: nat,
                                    attempts: seq<Attempt>, k: nat)
    requires k <= |attempts| && Kept(P, cap) && P(Trace([], []), [])
    ensures P(RunTo(cap, attempts, k), Frames(attempts, k))
  {
    hide Kept, Round, FramesOf;
    if k > 0 {
      RunKeeps(P, cap, attempts, k - 1);
      RunUnfolds(cap, attempts, k);
      RoundKeeps(P, cap, RunTo(cap, attempts, k - 1), Frames(attempts, k - 1), attempts, k - 1);
    }
  }

  // ---- What is written to the connection -----------------------------------

  /** The actions of one kind, in order. */
  function Only(log: seq<Action>, kind: Action -> bool): seq<Action> {
    if log == [] then [] else
      var last := log[|log| - 1];
      Only(log[..|log| - 1], kind) + if kind(last) then [last] else []
  }

  lemma {:induction false} OnlyAppend(a: seq<Action>, b: seq<Action>, kind: Action -> bool)
    ensures Only(a + b, kind) == Only(a, kind) + Only(b, kind)
    decreases |b|
  {
    if b == [] {
      NilRight(a);
      NilRight(Only(a, kind));
    } else {
      var rest := b[..|b| - 1];
      OnlyAppend(a, rest, kind);
      assert (a + b)[..|a + b| - 1] == a + rest;
    }
  }

  lemma OnlyOne(part: seq<Action>, kind: Action -> bool)
    requires |part| <= 1
    ensures Only(part, kind) == if part != [] && kind(part[0]) then part else []
  {
    if part != [] {
      assert part[..0] == [] && [] + part == part;
    }
  }

  lemma {:induction false} OnlyHas(log: seq<Action>, kind: Action -> bool, action: Action)
    ensures action in Only(log, kind) <==> action in log && kind(action)
    decreases |log|
  {
    if log != [] {
      var before, last := log[..|log| - 1], log[|log| - 1];
      OnlyHas(before, kind, action);
      assert log == before + [last];
    }
  }

  /** What is written to the connection. */
  predicate IsReply(action: Action) {
    action.Acked? || action.AckFailed? || action.Ponged? || action.Closing?
  }

  predicate IsOffer(action: Action) { action.Forwarded? || action.Discarded? }

  /** A frame with an envelope asks for an acknowledgement, a ping for a pong, and shutdown for
      a closing frame. */
  function RepliesTo(move: Move): seq<Action> {
    match move
    case Text(Some(envelope), acked, _, _, _) => [if acked then Acked(envelope) else AckFailed(envelope)]
    case Ping(true) => [Ponged]
    case Shutdown => [Closing]
    case _ => []
  }

  function Replies(frames: seq<Move>): seq<Action> {
    if frames == [] then [] else Replies(frames[..|frames| - 1]) + RepliesTo(frames[|frames| - 1])
  }

  /** The offer of the event that a frame brings, if its id is new. */
  function OfferFor(accepted: seq<string>, cap: nat, move: Move): seq<Action> {
    if Novel(accepted, cap, Arrival(move)) == [] then []
    else [Hand(move.envelope, move.kind.payload.value, move.clock, move.open)]
  }

  lemma DoneParts(accepted: seq<string>, cap: nat, move: Move)
    ensures Done(accepted, cap, move) == RepliesTo(move) + OfferFor(accepted, cap, move)
  {
    hide Dedup.Window;
  }

  lemma DoneOnly(accepted: seq<string>, cap: nat, move: Move)
    ensures Only(Done(accepted, cap, move), IsReply) == RepliesTo(move)
    ensures Only(Done(accepted, cap, move), IsOffer) == OfferFor(accepted, cap, move)
  {
    DoneParts(accepted, cap, move);
    var reply, offer := RepliesTo(move), OfferFor(accepted, cap, move);
    hide Only, Done, Novel, Arrival;
    OnlyAppend(reply, offer, IsReply);
    OnlyOne(reply, IsReply);
    OnlyOne(offer, IsReply);
    OnlyAppend(reply, offer, IsOffer);
    OnlyOne(reply, IsOffer);
    OnlyOne(offer, IsOffer);
  }

  lemma HandleReplies(t: Trace, cap: nat, frames: seq<Move>, move: Move)
    requires Only(t.log, IsReply) == Replies(frames)
    ensures Only(Handle(t, cap, move).log, IsReply) == Replies(frames + [move])
  {
    OnlyAppend(t.log, Done(t.accepted, cap, move), IsReply);
    DoneOnly(t.accepted, cap, move);
    hide Done, Only, RepliesTo;
    assert (frames + [move])[..|frames|] == frames;
  }

  lemma PauseOnly(t: Trace, seconds: nat, kind: Action -> bool)
    requires !kind(Paused(seconds))
    ensures Only(Pause(t, seconds).log, kind) == Only(t.log, kind)
  {
    OnlyAppend(t.log, [Paused(seconds)], kind);
    OnlyOne([Paused(seconds)], kind);
  }

  /** Every envelope read is acknowledged, every ping answered, and shutdown closes the
      connection: once each, in order, and nothing else is written. */
  lemma RepliesToAll(cap: nat, attempts: seq<Attempt>, k: nat)
    requires k <= |attempts|
    ensures Only(RunTo(cap, attempts, k).log, IsReply) == Replies(Frames(attempts, k))
  {
    var P := (t: Trace, frames) => Only(t.log, IsReply) == Replies(frames);
    forall t, frames, move | P(t, frames) ensures P(Handle(t, cap, move), frames + [move]) {
      HandleReplies(t, cap, frames, move);
    }
    forall t, frames, seconds | P(t, frames) ensures P(Pause(t, seconds), frames) {
      PauseOnly(t, seconds, IsReply);
    }
    assert Only([], IsReply) == Replies([]);
    hide Handle, Pause, Only, Replies, RunTo, Frames;
    RunKeeps(P, cap, attempts, k);
  }

  predicate IsPause(action: Action) { action.Paused? }

  /** The pauses of the first `k` rounds: one after each that shutdown does not end first. */
  function Pauses(attempts: seq<Attempt>, k: nat): seq<Action>
    requires k <= |attempts|
  {
    if k == 0 then [] else
      Pauses(attempts, k - 1)
      + if SeesShutdown(attempts[k - 1]) then [] else [Paused(PauseOf(attempts, k - 1))]
  }

  /** Shutdown is seen before connecting or in the middle of a connection. */
  predicate SeesShutdown(attempt: Attempt) {
    || attempt.SignalSeen?
    || (attempt.Connected?
        && exists i :: 0 <= i < |attempt.moves| && attempt.moves[i].Shutdown?
                       && forall j :: 0 <= j < i ==> !Closes(attempt.moves[j]))
  }

  lemma {:induction false} NoPauseInPump(t: Trace, cap: nat, moves: seq<Move>, n: nat)
    requires n <= |moves|
    ensures Only(Pump(t, cap, moves, n).log, IsPause) == Only(t.log, IsPause)
  {
    hide Only, Handle;
    if n > 0 {
      NoPauseInPump(t, cap, moves, n - 1);
      var u := Pump(t, cap, moves, n - 1);
      NoPauseInHandle(u, cap, moves[n - 1]);
    }
  }

  lemma NoPauseInHandle(t: Trace, cap: nat, move: Move)
    ensures Only(Handle(t, cap, move).log, IsPause) == Only(t.log, IsPause)
  {
    DoneParts(t.accepted, cap, move);
    var reply, offer := RepliesTo(move), OfferFor(t.accepted, cap, move);
    hide Only, Done, Novel, Arrival;
    OnlyAppend(t.log, reply + offer, IsPause);
    OnlyAppend(reply, offer, IsPause);
    OnlyOne(reply, IsPause);
    OnlyOne(offer, IsPause);
    NilRight(Only(t.log, IsPause));
  }

  lemma PauseAdds(t: Trace, seconds: nat)
    ensures Only(Pause(t, seconds).log, IsPause) == Only(t.log, IsPause) + [Paused(seconds)]
  {
    OnlyAppend(t.log, [Paused(seconds)], IsPause);
    OnlyOne([Paused(seconds)], IsPause);
  }

  lemma RoundPauses(t: Trace, cap: nat, attempts: seq<Attempt>, k: nat)
    requires k < |attempts|
    ensures Only(Round(t, cap, attempts, k).log, IsPause)
         == Only(t.log, IsPause) + if SeesShutdown(attempts[k]) then [] else [Paused(PauseOf(attempts, k))]
  {
    NilRight(Only(t.log, IsPause));
    hide Only, Pump, PauseOf, Pause, Closes, FlowOf;
    match attempts[k]
    case SignalSeen =>
    case Connected(moves, _) =>
      StopIff(moves);
      var n := ReadCount(moves, 0);
      NoPauseInPump(t, cap, moves, n);
      PauseAdds(Pump(t, cap, moves, n), PauseOf(attempts, k));
    case _ => PauseAdds(t, PauseOf(attempts, k));
  }

  lemma StopIff(moves: seq<Move>)
    ensures LastFlow(moves).Stop? <==>
              exists i :: 0 <= i < |moves| && moves[i].Shutdown? && forall j :: 0 <= j < i ==> !Closes(moves[j])
  {
    EndsIff(Connected(moves, false));
  }

  /** The source pauses after every round but one that shutdown ends first. */
  lemma {:induction false} PausesAfterRounds(cap: nat, attempts: seq<Attempt>, k: nat)
    requires k <= |attempts|
    ensures Only(RunTo(cap, attempts, k).log, IsPause) == Pauses(attempts, k)
  {
    if k > 0 {
      PausesAfterRounds(cap, attempts, k - 1);
      hide Round, Only, PauseOf, SeesShutdown;
      RoundPauses(RunTo(cap, attempts, k - 1), cap, attempts, k - 1);
    }
  }

  // ---- Handed on once, exactly if acknowledged -----------------------------

  /** The ids that the cache let through, to be offered to the channel. */
  function Taken(log: seq<Action>): seq<string> {
    if log == [] then [] else
      var last := log[|log| - 1];
      Taken(log[..|log| - 1]) + if last.Forwarded? || last.Discarded? then [last.id] else []
  }

  lemma {:induction false} TakenAppend(a: seq<Action>, b: seq<Action>)
    ensures Taken(a + b) == Taken(a) + Taken(b)
    decreases |b|
  {
    if b == [] {
      NilRight(a);
      NilRight(Taken(a));
    } else {
      var rest, last := b[..|b| - 1], b[|b| - 1];
      TakenAppend(a, rest);
      assert (a + b)[..|a + b| - 1] == a + rest;
      Regroup(Taken(a), Taken(rest), Taken(b)[|Taken(rest)|..]);
    }
  }

  lemma TakenOne(action: Action)
    ensures Taken([action]) == if action.Forwarded? || action.Discarded? then [action.id] else []
  {
    assert [action][..0] == [];
  }

  lemma AcknowledgeTaken(envelope: Option<string>, acked: bool)
    ensures Taken(Acknowledge(envelope, acked)) == []
  {
    if envelope.Some? {
      TakenOne(Acknowledge(envelope, acked)[0]);
    }
  }

  lemma DoneTaken(accepted: seq<string>, cap: nat, move: Move)
    ensures Taken(Done(accepted, cap, move)) == Novel(accepted, cap, Arrival(move))
  {
    match move
    case Text(envelope, acked, kind, clock, open) =>
      AcknowledgeTaken(envelope, acked);
      if Novel(accepted, cap, Arrival(move)) != [] {
        var hand := Hand(envelope, kind.payload.value, clock, open);
        TakenAppend(Acknowledge(envelope, acked), [hand]);
        TakenOne(hand);
      }
    case Ping(true) => TakenOne(Ponged);
    case Shutdown => TakenOne(Closing);
    case _ =>
  }

  lemma AcceptMore(cap: nat, before: seq<string>, ids: seq<string>)
    requires |ids| <= 1
    ensures Dedup.AcceptAll(cap, before + ids)
         == Dedup.AcceptAll(cap, before) + Novel(Dedup.AcceptAll(cap, before), cap, ids)
  {
    NilRight(Dedup.AcceptAll(cap, before));
    if ids == [] {
      NilRight(before);
    } else {
      assert ids == [ids[0]];
      Dedup.AcceptLast(cap, before, ids[0]);
    }
  }

  /** The ids let through are those that one cache accepts of the given arrivals. */
  ghost predicate Refines(t: Trace, cap: nat, arrivals: seq<string>) {
    Taken(t.log) == t.accepted == Dedup.AcceptAll(cap, arrivals)
  }

  lemma HandleRefines(t: Trace, cap: nat, move: Move, ids: seq<string>)
    requires Refines(t, cap, ids)
    ensures Refines(Handle(t, cap, move), cap, ids + Arrival(move))
  {
    TakenAppend(t.log, Done(t.accepted, cap, move));
    DoneTaken(t.accepted, cap, move);
    AcceptMore(cap, ids, Arrival(move));
  }

  lemma PauseRefines(t: Trace, cap: nat, ids: seq<string>, seconds: nat)
    requires Refines(t, cap, ids)
    ensures Refines(Pause(t, seconds), cap, ids)
  {
    TakenAppend(t.log, [Paused(seconds)]);
    TakenOne(Paused(seconds));
    NilRight(Taken(t.log));
  }

  function Arrivals(frames: seq<Move>): seq<string> {
    if frames == [] then [] else Arrivals(frames[..|frames| - 1]) + Arrival(frames[|frames| - 1])
  }

  lemma ArrivalsMore(frames: seq<Move>, move: Move)
    ensures Arrivals(frames + [move]) == Arrivals(frames) + Arrival(move)
  {
    assert (frames + [move])[..|frames|] == frames;
  }

  /** However the connections come and go, the ids let through are those that one cache
      accepts of the acknowledged arrivals, in order. */
  lemma RunRefinesDedup(cap: nat, attempts: seq<Attempt>, k: nat)
    requires k <= |attempts|
    ensures Refines(RunTo(cap, attempts, k), cap, Arrivals(Frames(attempts, k)))
  {
    var P := (t, frames) => Refines(t, cap, Arrivals(frames));
    forall t, frames, move | P(t, frames) ensures P(Handle(t, cap, move), frames + [move]) {
      HandleRefines(t, cap, move, Arrivals(frames));
      ArrivalsMore(frames, move);
    }
    forall t, frames, seconds | P(t, frames) ensures P(Pause(t, seconds), frames) {
      PauseRefines(t, cap, Arrivals(frames), seconds);
    }
    assert Refines(Trace([], []), cap, Arrivals([]));
    hide Refines, Handle, Pause, Arrivals, RunTo, Frames;
    RunKeeps(P, cap, attempts, k);
  }

  /** No id is let through twice within the window, whatever connections it came over. */
  lemma NoRepeatInWindow(cap: nat, attempts: seq<Attempt>, i: nat, j: nat)
    requires i < j < |Taken(RunAll(cap, attempts).log)|
    ensures var ids := Taken(RunAll(cap, attempts).log); ids[i] == ids[j] ==> cap < j - i
  {
    RunRefinesDedup(cap, attempts, Rounds(attempts, 0));
    Dedup.AcceptAllSeparated(cap, Arrivals(Read(attempts)));
  }

  // ---- From the frames to the channel --------------------------------------

  /** The frame brings an event with that id: the event came without an envelope, or its
      acknowledgement was sent; an event without an id of its own gets one from the clock. */
  predicate Brings(move: Move, id: string) {
    match move
    case Text(envelope, acked, EventsApi(Some(payload)), clock, _) =>
      (envelope.None? || acked) && id == if payload.eventId.Some? then payload.eventId.value else "auto-" + clock
    case _ => false
  }

  predicate Brought(frames: seq<Move>, id: string) {
    exists i :: 0 <= i < |frames| && Brings(frames[i], id)
  }

  lemma {:induction false} ArrivalsAreBrought(frames: seq<Move>, id: string)
    ensures id in Arrivals(frames) <==> Brought(frames, id)
    decreases |frames|
  {
    if frames != [] {
      var before, last := frames[..|frames| - 1], frames[|frames| - 1];
      ArrivalsAreBrought(before, id);
      assert id in Arrival(last) <==> Brings(last, id);
      assert frames == before + [last];
      if Brought(before, id) {
        var i :| 0 <= i < |before| && Brings(before[i], id);
        assert Brings(frames[i], id);
      }
    }
  }

  lemma {:induction false} AcceptAllComplete(cap: nat, ids: seq<string>, id: string)
    ensures id in Dedup.AcceptAll(cap, ids) <==> id in ids
    decreases |ids|
  {
    if ids != [] {
      var before := ids[..|ids| - 1];
      AcceptAllComplete(cap, before, id);
      assert ids == before + [ids[|ids| - 1]];
    }
  }

  /** An event is offered to the channel exactly when one of the frames read brings it: a
      failed acknowledgement does not spoil the redelivery. */
  lemma OfferedIffBrought(cap: nat, attempts: seq<Attempt>, id: string)
    ensures id in Taken(RunAll(cap, attempts).log) <==> Brought(Read(attempts), id)
  {
    RunRefinesDedup(cap, attempts, Rounds(attempts, 0));
    AcceptAllComplete(cap, Arrivals(Read(attempts)), id);
    ArrivalsAreBrought(Read(attempts), id);
  }

  lemma {:induction false} AcceptAllDistinct(cap: nat, ids: seq<string>, among: set<string>)
    requires |among| <= cap && forall id :: id in ids ==> id in among
    ensures Distinct(Dedup.AcceptAll(cap, ids))
    decreases |ids|
  {
    if ids != [] {
      var before, last := ids[..|ids| - 1], ids[|ids| - 1];
      AcceptAllDistinct(cap, before, among);
      forall x | x in Dedup.AcceptAll(cap, before) ensures x in among {
        AcceptAllComplete(cap, before, x);
      }
      Dedup.AcceptDistinct(Dedup.AcceptAll(cap, before), cap, last, among);
    }
  }

  /** While the frames bring no more different ids than the cache holds, each is offered once,
      over any number of deliveries and connections, and no other is. */
  lemma OfferedOnce(cap: nat, attempts: seq<Attempt>, among: set<string>)
    requires |among| <= cap && forall id :: Brought(Read(attempts), id) ==> id in among
    ensures var ids := Taken(RunAll(cap, attempts).log);
            Distinct(ids) && forall id :: id in ids <==> Brought(Read(attempts), id)
  {
    var frames := Read(attempts);
    RunRefinesDedup(cap, attempts, Rounds(attempts, 0));
    forall id | id in Arrivals(frames) ensures id in among {
      ArrivalsAreBrought(frames, id);
    }
    AcceptAllDistinct(cap, Arrivals(frames), among);
    forall id ensures id in Taken(RunAll(cap, attempts).log) <==> Brought(frames, id) {
      OfferedIffBrought(cap, attempts, id);
    }
  }

  /** What was offered to the channel, in order. */
  function Offers(log: seq<Action>): seq<Action> {
    Only(log, IsOffer)
  }

  /** The offer is of what the frame brings: its envelope, its id, its payload; it was taken
      exactly if the channel was open then. */
  predicate OfferOf(action: Action, move: Move) {
    && move.Text? && IsOffer(action)
    && Brings(move, action.id) && move.kind == EventsApi(Some(action.payload))
    && action.envelope == move.envelope && (action.Forwarded? <==> move.open)
  }

  /** The offers are of some of the frames, in order and at most once of each. */
  predicate OffersFrom(offers: seq<Action>, frames: seq<Move>, at: seq<nat>) {
    && |at| == |offers|
    && (forall i :: 0 <= i < |at| ==> at[i] < |frames| && OfferOf(offers[i], frames[at[i]]))
    && forall i, j :: 0 <= i < j < |at| ==> at[i] < at[j]
  }

  /** The places of the frames that are offered. */
  function Places(cap: nat, frames: seq<Move>): seq<nat> {
    if frames == [] then [] else
      var before, last := frames[..|frames| - 1], frames[|frames| - 1];
      Places(cap, before)
      + if Novel(Dedup.AcceptAll(cap, Arrivals(before)), cap, Arrival(last)) != [] then [|frames| - 1] else []
  }

  ghost predicate Offered(t: Trace, cap: nat, frames: seq<Move>) {
    Refines(t, cap, Arrivals(frames)) && OffersFrom(Offers(t.log), frames, Places(cap, frames))
  }

  lemma OneMoreOffer(offers: seq<Action>, frames: seq<Move>, at: seq<nat>, action: Action, move: Move)
    requires OffersFrom(offers, frames, at) && OfferOf(action, move)
    ensures OffersFrom(offers + [action], frames + [move], at + [|frames|])
  {
  }

  lemma NoMoreOffer(offers: seq<Action>, frames: seq<Move>, at: seq<nat>, move: Move)
    requires OffersFrom(offers, frames, at)
    ensures OffersFrom(offers, frames + [move], at)
  {
  }

  lemma HandleOffers(t: Trace, cap: nat, frames: seq<Move>, move: Move)
    requires Offered(t, cap, frames)
    ensures Offered(Handle(t, cap, move), cap, frames + [move])
  {
    HandleRefines(t, cap, move, Arrivals(frames));
    ArrivalsMore(frames, move);
    DoneOnly(t.accepted, cap, move);
    OnlyAppend(t.log, Done(t.accepted, cap, move), IsOffer);
    assert (frames + [move])[..|frames|] == frames;
    var offers, at := Offers(t.log), Places(cap, frames);
    if Novel(t.accepted, cap, Arrival(move)) == [] {
      NoMoreOffer(offers, frames, at, move);
      NilRight(offers);
      NilRight(at);
    } else {
      OneMoreOffer(offers, frames, at, Hand(move.envelope, move.kind.payload.value, move.clock, move.open), move);
    }
    hide OffersFrom, Refines, Offers, Arrivals, Done, Novel, Dedup.AcceptAll;
  }

  lemma PauseOffers(t: Trace, cap: nat, frames: seq<Move>, seconds: nat)
    requires Offered(t, cap, frames)
    ensures Offered(Pause(t, seconds), cap, frames)
  {
    PauseRefines(t, cap, Arrivals(frames), seconds);
    PauseOnly(t, seconds, IsOffer);
  }

  /** At every point of every run each offer to the channel is of a frame of its own, in the order in which
      they were read: with the envelope, the id and the payload that it brought, and taken
      exactly if the channel was open when it was handled. */
  lemma OffersAreFrames(cap: nat, attempts: seq<Attempt>, k: nat)
    requires k <= |attempts|
    ensures OffersFrom(Offers(RunTo(cap, attempts, k).log), Frames(attempts, k), Places(cap, Frames(attempts, k)))
  {
    var P := (t, frames) => Offered(t, cap, frames);
    forall t, frames, move | P(t, frames) ensures P(Handle(t, cap, move), frames + [move]) {
      HandleOffers(t, cap, frames, move);
    }
    forall t, frames, seconds | P(t, frames) ensures P(Pause(t, seconds), frames) {
      PauseOffers(t, cap, frames, seconds);
    }
    assert Offered(Trace([], []), cap, []);
    hide Handle, Pause, RunTo, Frames, OffersFrom, Refines;
    RunKeeps(P, cap, attempts, k);
    assert Offered(RunTo(cap, attempts, k), cap, Frames(attempts, k));
  }

  // ---- Acknowledged before forwarded ---------------------------------------

  /** An event that came in an envelope directly follows the acknowledgement of it. */
  predicate AckedFirst(log: seq<Action>) {
    forall i :: 0 <= i < |log| && (log[i].Forwarded? || log[i].Discarded?) && log[i].envelope.Some? ==>
                  i > 0 && log[i - 1] == Acked(log[i].envelope.value)
  }

  lemma HandleAcksFirst(t: Trace, cap: nat, move: Move)
    requires AckedFirst(t.log)
    ensures AckedFirst(Handle(t, cap, move).log)
  {
  }

  lemma AckBeforeForward(cap: nat, attempts: seq<Attempt>, k: nat)
    requires k <= |attempts|
    ensures AckedFirst(RunTo(cap, attempts, k).log)
  {
    var P := (t: Trace, frames: seq<Move>) => AckedFirst(t.log);
    forall t, frames: seq<Move>, move | P(t, frames) ensures P(Handle(t, cap, move), frames + [move]) {
      HandleAcksFirst(t, cap, move);
    }
    RunKeeps(P, cap, attempts, k);
  }

  /** A failed acknowledgement changes nothing and gives up the connection. */
  lemma FailedAckIsHarmless(t: Trace, cap: nat, move: Move)
    requires move.Text? && move.envelope.Some? && !move.acked
    ensures Handle(t, cap, move) == Trace(t.accepted, t.log + [AckFailed(move.envelope.value)])
    ensures FlowOf(move).Reconnect? && Arrival(move) == []
  {
  }

  // ---- What the channel takes ----------------------------------------------

  predicate NothingDiscarded(log: seq<Action>) {
    forall i :: 0 <= i < |log| ==> !log[i].Discarded?
  }

  /** The ids that the channel took. */
  function InChannel(log: seq<Action>): seq<string> {
    if log == [] then [] else
      var last := log[|log| - 1];
      InChannel(log[..|log| - 1]) + if last.Forwarded? then [last.id] else []
  }

  lemma {:induction false} InChannelAll(log: seq<Action>)
    ensures |InChannel(log)| <= |Taken(log)|
    ensures InChannel(log) == Taken(log) <==> NothingDiscarded(log)
    decreases |log|
  {
    if log != [] {
      var before, last := log[..|log| - 1], log[|log| - 1];
      InChannelAll(before);
      assert log == before + [last];
      NilRight(InChannel(before));
      NilRight(Taken(before));
      if NothingDiscarded(before) && last.Forwarded? {
        assert InChannel(log) == Taken(log);
      }
      if !last.Discarded? && InChannel(log) == Taken(log) {
        assert |InChannel(log)| - |InChannel(before)| == |Taken(log)| - |Taken(before)|;
        assert InChannel(log)[..|InChannel(before)|] == InChannel(before);
        assert Taken(log)[..|Taken(before)|] == Taken(before);
      }
    }
  }

  lemma {:induction false} DiscardedIsOffered(log: seq<Action>)
    ensures NothingDiscarded(log) <==> forall i :: 0 <= i < |Offers(log)| ==> Offers(log)[i].Forwarded?
    decreases |log|
  {
    if log != [] {
      var before, last := log[..|log| - 1], log[|log| - 1];
      DiscardedIsOffered(before);
      assert log == before + [last];
      OnlyAppend(before, [last], IsOffer);
      OnlyOne([last], IsOffer);
      if last.Discarded? {
        assert Offers(log)[|Offers(before)|] == last && log[|before|] == last;
      }
      assert forall i :: 0 <= i < |Offers(before)| ==> Offers(log)[i] == Offers(before)[i];
    }
  }

  /** Every frame that brings an id which is new to the cache by then meets an open channel. */
  predicate AllWelcome(cap: nat, frames: seq<Move>) {
    forall i :: 0 <= i < |Places(cap, frames)| && Places(cap, frames)[i] < |frames| ==>
                  var move := frames[Places(cap, frames)[i]]; move.Text? && move.open
  }

  lemma DiscardsIff(cap: nat, attempts: seq<Attempt>, k: nat)
    requires k <= |attempts|
    ensures NothingDiscarded(RunTo(cap, attempts, k).log) <==> AllWelcome(cap, Frames(attempts, k))
  {
    OffersAreFrames(cap, attempts, k);
    DiscardedIsOffered(RunTo(cap, attempts, k).log);
    hide RunTo, Frames, Places, Offers, NothingDiscarded;
    var offers, frames, at := Offers(RunTo(cap, attempts, k).log), Frames(attempts, k), Places(cap, Frames(attempts, k));
    forall i | 0 <= i < |at| ensures offers[i].Forwarded? <==> frames[at[i]].Text? && frames[at[i]].open {
      assert OfferOf(offers[i], frames[at[i]]);
    }
  }

  /** The channel gets all ids that the cache lets through exactly if every frame read that
      brings a new one meets an open channel. */
  lemma InChannelIff(cap: nat, attempts: seq<Attempt>)
    ensures var log := RunAll(cap, attempts).log;
            InChannel(log) == Taken(log) <==> AllWelcome(cap, Read(attempts))
  {
    DiscardsIff(cap, attempts, Rounds(attempts, 0));
    InChannelAll(RunAll(cap, attempts).log);
  }

  predicate ChannelOpen(frames: seq<Move>) {
    forall i :: 0 <= i < |frames| && frames[i].Text? ==> frames[i].open
  }

  lemma OpenChannelTakesAll(cap: nat, attempts: seq<Attempt>, k: nat)
    requires k <= |attempts| && ChannelOpen(Frames(attempts, k))
    ensures NothingDiscarded(RunTo(cap, attempts, k).log)
  {
    OffersAreFrames(cap, attempts, k);
    DiscardsIff(cap, attempts, k);
    hide RunTo, Frames, Places, Offers, NothingDiscarded, Brings;
  }

  lemma {:induction false} InChannelHas(log: seq<Action>, id: string)
    ensures id in InChannel(log) <==> exists k :: 0 <= k < |log| && log[k].Forwarded? && log[k].id == id
    decreases |log|
  {
    if log != [] {
      var before, last := log[..|log| - 1], log[|log| - 1];
      InChannelHas(before, id);
      assert log == before + [last];
      if id in InChannel(before) {
        var k :| 0 <= k < |before| && before[k].Forwarded? && before[k].id == id;
        assert log[k] == before[k];
      }
    }
  }

  predicate ForwardsDiffer(log: seq<Action>) {
    forall j, k :: 0 <= j < k < |log| && log[j].Forwarded? && log[k].Forwarded? ==> log[j].id != log[k].id
  }

  lemma {:induction false} DistinctForwards(log: seq<Action>)
    requires Distinct(InChannel(log))
    ensures ForwardsDiffer(log)
    decreases |log|
  {
    if log != [] {
      var before, last := log[..|log| - 1], log[|log| - 1];
      assert InChannel(before) == InChannel(log)[..|InChannel(before)|];
      DistinctForwards(before);
      if last.Forwarded? {
        assert last.id !in InChannel(before) by {
          assert InChannel(log)[|InChannel(before)|] == last.id;
        }
        InChannelHas(before, last.id);
      }
      assert log == before + [last];
    }
  }

  /** On an open channel, and while the frames bring no more different ids than the cache holds:
      each event that some frame brings is put into the channel exactly once, over any number
      of deliveries and connections, and nothing else is; with it goes the payload of such a frame. */
  lemma ExactlyOnce(cap: nat, attempts: seq<Attempt>, among: set<string>)
    requires |among| <= cap && ChannelOpen(Read(attempts))
    requires forall id :: Brought(Read(attempts), id) ==> id in among
    ensures var log := RunAll(cap, attempts).log;
            && (forall id :: Brought(Read(attempts), id) <==>
                               exists k :: 0 <= k < |log| && log[k].Forwarded? && log[k].id == id)
            && ForwardsDiffer(log)
            && forall a :: a in log && a.Forwarded? ==>
                 exists i :: 0 <= i < |Read(attempts)| && OfferOf(a, Read(attempts)[i])
  {
    var log := RunAll(cap, attempts).log;
    OfferedOnce(cap, attempts, among);
    OpenChannelTakesAll(cap, attempts, Rounds(attempts, 0));
    InChannelAll(log);
    DistinctForwards(log);
    hide InChannel, Taken, RunAll, RunTo;
    forall id ensures Brought(Read(attempts), id) <==> exists k :: 0 <= k < |log| && log[k].Forwarded? && log[k].id == id {
      InChannelHas(log, id);
    }
    forall a | a in log && a.Forwarded? ensures exists i :: 0 <= i < |Read(attempts)| && OfferOf(a, Read(attempts)[i]) {
      OfferHasFrame(cap, attempts, a);
    }
  }

  lemma OfferHasFrame(cap: nat, attempts: seq<Attempt>, action: Action)
    requires action in RunAll(cap, attempts).log && IsOffer(action)
    ensures exists i :: 0 <= i < |Read(attempts)| && OfferOf(action, Read(attempts)[i])
  {
    OffersAreFrames(cap, attempts, Rounds(attempts, 0));
    OnlyHas(RunAll(cap, attempts).log, IsOffer, action);
    hide Only, RunTo, Frames, Places, OfferOf;
    var offers, at := Offers(RunAll(cap, attempts).log), Places(cap, Read(attempts));
    var k :| 0 <= k < |offers| && offers[k] == action;
    assert OfferOf(action, Read(attempts)[at[k]]);
  }

  /** A delivery of the payload in an envelope, acknowledged on a closed channel. */
  function TooLate(envelope: string, payload: Payload, clock: string): Move {
    Text(Some(envelope), true, EventsApi(Some(payload)), clock, false)
  }

  lemma TooLateHandled(cap: nat, envelope: string, payload: Payload, clock: string)
    requires cap > 0 && payload.eventId.Some?
    ensures var id, frame := payload.eventId.value, TooLate(envelope, payload, clock);
            var dropped := [Acked(envelope), Discarded(Some(envelope), id, payload)];
            && FlowOf(frame).Continue?
            && Handle(Trace([], []), cap, frame) == Trace([id], dropped)
            && Handle(Trace([id], dropped), cap, frame) == Trace([id], dropped + [Acked(envelope)])
  {
  }

  lemma TwoFrames(t: Trace, cap: nat, a: Move, b: Move)
    requires FlowOf(a).Continue? && FlowOf(b).Continue?
    ensures ReadCount([a, b], 0) == 2 && LastFlow([a, b]).Reconnect?
    ensures Pump(t, cap, [a, b], 2) == Handle(Handle(t, cap, a), cap, b)
  {
    assert Pump(t, cap, [a, b], 1) == Handle(t, cap, a);
  }

  lemma OneConnection(cap: nat, moves: seq<Move>)
    requires LastFlow(moves).Reconnect?
    ensures var attempts, n := [Connected(moves, true)], ReadCount(moves, 0);
            && RunAll(cap, attempts) == Pause(Pump(Trace([], []), cap, moves, n), BACKOFF_START)
            && Read(attempts) == moves[..n]
  {
    var attempts := [Connected(moves, true)];
    assert RunTo(cap, attempts, 0) == Trace([], []);
    assert Rounds(attempts, 0) == 1 && Frames(attempts, 0) == [];
  }

  /** An event offered once the channel has closed is lost: both deliveries of it are read and
      acknowledged, the cache remembers it and suppresses the second, and the channel never
      gets it. */
  lemma AcknowledgedAndDropped(cap: nat, envelope: string, payload: Payload, clock: string)
    requires cap > 0 && payload.eventId.Some?
    ensures var id, frame := payload.eventId.value, TooLate(envelope, payload, clock);
            var attempts := [Connected([frame, frame], true)];
            && Read(attempts) == [frame, frame] && Brings(frame, id)
            && RunAll(cap, attempts).log == [Acked(envelope), Discarded(Some(envelope), id, payload),
                                             Acked(envelope), Paused(BACKOFF_START)]
            && InChannel(RunAll(cap, attempts).log) == []
  {
    hide Handle, Pump, RunAll, ReadCount, Read, InChannel;
    var frame := TooLate(envelope, payload, clock);
    TooLateHandled(cap, envelope, payload, clock);
    TwoFrames(Trace([], []), cap, frame, frame);
    OneConnection(cap, [frame, frame]);
    assert [frame, frame][..2] == [frame, frame];
    NothingInChannel(RunAll(cap, [Connected([frame, frame], true)]).log);
  }

  lemma {:induction false} NothingInChannel(log: seq<Action>)
    requires forall i :: 0 <= i < |log| ==> !log[i].Forwarded?
    ensures InChannel(log) == []
    decreases |log|
  {
    if log != [] {
      NothingInChannel(log[..|log| - 1]);
    }
  }
}
