/** Restarting a source with exponential backoff, and how often that can happen. */
module Supervisor {
  import opened Wrappers

  const BACKOFF_START: nat := 1
  const BACKOFF_MAX: nat := 300
  const STABLE_RUN: real := 300.0

  /** One round of the loop, in seconds: how long the source ran and the pause after it
      lasted, and whether shutdown was seen after the run or during the pause. */
  datatype Round = Round(ran: real, slept: real, stopAfterRun: bool, stopInPause: bool)

  /** The pause that follows run `k`: one second after a stable run, twice the last one
      otherwise, up to the maximum. */
  function Delay(rounds: seq<Round>, k: nat): nat
    requires k < |rounds|
    decreases k, 1
  {
    if rounds[k].ran >= STABLE_RUN then BACKOFF_START else Due(rounds, k)
  }

  /** The pause that is due when run `k` starts. */
  function Due(rounds: seq<Round>, k: nat): nat
    requires k <= |rounds|
    decreases k, 0
  {
    if k == 0 then BACKOFF_START else Min(2 * Delay(rounds, k - 1), BACKOFF_MAX)
  }

  /** Number of runs since the last stable one, of five minutes or more, or since the beginning. */
  function SinceStable(rounds: seq<Round>, k: nat): (j: nat)
    requires k < |rounds|
    ensures j <= k
    ensures j < k ==> rounds[k - j].ran >= 300.0
    ensures forall i :: k - j < i <= k ==> rounds[i].ran < 300.0
  {
    if k == 0 || rounds[k].ran >= 300.0 then 0 else 1 + SinceStable(rounds, k - 1)
  }

  /** The pause is `2^j` seconds, `j` runs after the last stable one, capped at 300. */
  lemma {:induction false} DelayClosedForm(rounds: seq<Round>, k: nat)
    requires k < |rounds|
    ensures Delay(rounds, k) == Min(Pow2(SinceStable(rounds, k)), 300)
  {
    if k > 0 && rounds[k].ran < 300.0 {
      DelayClosedForm(rounds, k - 1);
      assert SinceStable(rounds, k) == 1 + SinceStable(rounds, k - 1);
    }
  }

  /** The round is followed by a restart. */
  predicate Restarts(round: Round) { !round.stopAfterRun && !round.stopInPause }

  /** Runs do not take negative time, and a pause that shutdown does not cut short takes
      at least as long as asked for. */
  predicate Timed(rounds: seq<Round>) {
    forall k :: 0 <= k < |rounds| ==>
                  rounds[k].ran >= 0.0 && (Restarts(rounds[k]) ==> rounds[k].slept >= Delay(rounds, k) as real)
  }

  /** Restarts that the time so far has not yet paid for, in seconds, given the pause
      that is due next. */
  function Credit(backoff: nat): nat {
    if backoff <= 1 then 297
    else if backoff <= 2 then 238
    else if backoff <= 4 then 180
    else if backoff <= 8 then 124
    else if backoff <= 16 then 72
    else if backoff <= 32 then 28
    else 0
  }

  /** The pauses that occur. */
  predicate Reachable(backoff: nat) {
    backoff in {1, 2, 4, 8, 16, 32, 64, 128, 256, 300}
  }

  /** A minute for every restart is paid by its pause and the credit it uses up. */
  lemma PausePays(backoff: nat)
    requires Reachable(backoff)
    ensures Reachable(Min(2 * backoff, 300))
    ensures 60 + Credit(Min(2 * backoff, 300)) <= Credit(backoff) + backoff
  {
  }

  function Elapsed(rounds: seq<Round>, k: nat): real
    requires k <= |rounds|
  {
    if k == 0 then 0.0 else Elapsed(rounds, k - 1) + rounds[k - 1].ran + rounds[k - 1].slept
  }

  /** At any time of any history, during the next run too, `60 * restarts <= T + 297`. */
  lemma {:induction false} RestartRate(rounds: seq<Round>, k: nat)
    requires Timed(rounds) && k <= |rounds| && forall i :: 0 <= i < k ==> Restarts(rounds[i])
    ensures 60.0 * k as real <= Elapsed(rounds, k) + 297.0
    ensures k < |rounds| ==>
              && Reachable(Delay(rounds, k))
              && 60.0 * k as real + Credit(Delay(rounds, k)) as real <= Elapsed(rounds, k) + rounds[k].ran + 297.0
  {
    if k > 0 {
      RestartRate(rounds, k - 1);
      PausePays(Delay(rounds, k - 1));
    }
  }

  /** The restart loop pauses as specified, stops at the first shutdown that it sees,
      and restarts the source at most once a minute but for a fixed allowance. */
  method RunSourceSupervised(rounds: seq<Round>) returns (restarts: nat, delays: seq<nat>)
    requires Timed(rounds)
    ensures restarts <= |rounds|
    ensures |delays| == restarts + (if restarts < |rounds| && !rounds[restarts].stopAfterRun then 1 else 0)
    ensures forall k :: 0 <= k < |delays| ==> delays[k] == Delay(rounds, k)
    ensures forall k :: 0 <= k < restarts ==> Restarts(rounds[k])
    ensures restarts < |rounds| ==> !Restarts(rounds[restarts])
    ensures 60.0 * restarts as real <= Elapsed(rounds, restarts) + 297.0
  {
    restarts, delays := 0, [];
    var backoff := BACKOFF_START;
    while restarts < |rounds|
      invariant restarts == |delays| <= |rounds|
      invariant forall k :: 0 <= k < restarts ==> delays[k] == Delay(rounds, k)
      invariant forall k :: 0 <= k < restarts ==> Restarts(rounds[k])
      invariant backoff == Due(rounds, restarts)
    {
      if rounds[restarts].stopAfterRun {
        break;
      }
      if rounds[restarts].ran >= STABLE_RUN {
        backoff := BACKOFF_START;
      }
      delays := delays + [backoff];
      if rounds[restarts].stopInPause {
        break;
      }
      backoff := Min(2 * backoff, BACKOFF_MAX);
      restarts := restarts + 1;
    }
    RestartRate(rounds, restarts);
  }

  /** Six instant failures meet the bound. */
  lemma RestartRateIsTight()
    ensures exists rounds: seq<Round> ::
              Timed(rounds) && |rounds| == 6 && (forall k :: 0 <= k < 6 ==> Restarts(rounds[k]))
              && 60.0 * 6.0 == Elapsed(rounds, 6) + 297.0
  {
    var rounds := [Round(0.0, 1.0, false, false), Round(0.0, 2.0, false, false), Round(0.0, 4.0, false, false),
                   Round(0.0, 8.0, false, false), Round(0.0, 16.0, false, false), Round(0.0, 32.0, false, false)];
    assert Delay(rounds, 0) == 1;
    assert Delay(rounds, 1) == 2;
    assert Delay(rounds, 2) == 4;
    assert Delay(rounds, 3) == 8;
    assert Delay(rounds, 4) == 16;
    assert Delay(rounds, 5) == 32;
    assert Timed(rounds);
    assert Elapsed(rounds, 1) == 1.0;
    assert Elapsed(rounds, 2) == 3.0;
    assert Elapsed(rounds, 3) == 7.0;
    assert Elapsed(rounds, 4) == 15.0;
    assert Elapsed(rounds, 5) == 31.0;
    assert Elapsed(rounds, 6) == 63.0;
  }
}
