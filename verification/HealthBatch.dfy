/**
 Checking the health of all connections: four workers share a cursor over the list, and each
 takes the next connection when its answer is in.
 */
module HealthBatch {
  import opened Common

  const WORKERS: nat := 4

  /** A worker is about to look at the cursor, waits for the answer about one connection, or has
      found the list exhausted. */
  datatype Worker = Idle | Asking(index: nat) | Finished

  /** An answer; a failed request counts as one that is not ok. */
  datatype Answer = Answer(ok: bool, detail: string)

  datatype Batch = Batch(
    total: nat,
    cursor: nat,
    completed: nat,
    failed: nat,
    results: seq<Option<Answer>>,
    workers: seq<Worker>,
    requested: seq<nat>)

  function Start(total: nat): Batch {
    Batch(total, 0, 0, 0, seq(total, _ => None), seq(if total < WORKERS then total else WORKERS, _ => Idle), [])
  }

  /** Any worker may go on whenever it can: an idle one takes a connection, a waiting one gets
      its answer. */
  datatype Step = Takes(worker: nat) | Receives(worker: nat, answer: Answer)

  function Do(b: Batch, step: Step): Batch {
    match step
    case Takes(w) =>
      if w >= |b.workers| || !b.workers[w].Idle? then b
      else if b.cursor >= b.total then b.(workers := b.workers[w := Finished])
      else b.(cursor := b.cursor + 1, workers := b.workers[w := Asking(b.cursor)],
              requested := b.requested + [b.cursor])
    case Receives(w, answer) =>
      if w >= |b.workers| || !b.workers[w].Asking? || b.workers[w].index >= |b.results| then b
      else b.(results := b.results[b.workers[w].index := Some(answer)],
              completed := b.completed + 1,
              failed := b.failed + (if answer.ok then 0 else 1),
              workers := b.workers[w := Idle])
  }

  function Run(b: Batch, steps: seq<Step>): Batch
    decreases |steps|
  {
    if steps == [] then b else Run(Do(b, steps[0]), steps[1..])
  }

  // ---------------------------------------------------------------- counting

  function Answered(results: seq<Option<Answer>>): nat {
    if results == [] then 0 else (if results[0].Some? then 1 else 0) + Answered(results[1..])
  }

  function Bad(results: seq<Option<Answer>>): nat {
    if results == [] then 0 else (if results[0].Some? && !results[0].value.ok then 1 else 0) + Bad(results[1..])
  }

  lemma {:induction false} OneMoreAnswer(results: seq<Option<Answer>>, i: nat, answer: Answer)
    requires i < |results| && results[i].None?
    ensures var r := results[i := Some(answer)];
            Answered(r) == Answered(results) + 1 && Bad(r) == Bad(results) + (if answer.ok then 0 else 1)
  {
    var r := results[i := Some(answer)];
    if i == 0 {
      assert r[1..] == results[1..];
    } else {
      OneMoreAnswer(results[1..], i - 1, answer);
      assert r[1..] == results[1..][i - 1 := Some(answer)];
    }
  }

  lemma {:induction false} AllAnswered(results: seq<Option<Answer>>)
    ensures Answered(results) == |results| <==> forall i :: 0 <= i < |results| ==> results[i].Some?
    ensures Answered(results) <= |results|
  {
    if results != [] {
      AllAnswered(results[1..]);
      if forall i :: 0 <= i < |results| ==> results[i].Some? {
        assert forall i :: 0 <= i < |results[1..]| ==> results[1..][i] == results[i + 1];
      }
      if Answered(results) == |results| {
        forall i | 0 <= i < |results| ensures results[i].Some? {
          if i > 0 { assert results[i] == results[1..][i - 1]; }
        }
      }
    }
  }

  lemma {:induction false} NoneAnswered(total: nat)
    ensures Answered(seq(total, _ => None)) == 0 && Bad(seq(total, _ => None)) == 0
  {
    if total > 0 {
      NoneAnswered(total - 1);
      assert seq(total, _ => Option<Answer>.None)[1..] == seq(total - 1, _ => Option<Answer>.None);
    }
  }

  // ---------------------------------------------------------------- the invariant

  /** The connections below the cursor have been requested once each, and each is either answered
      or being asked about by exactly one worker. */
  ghost predicate Sound(b: Batch) {
    && b.cursor <= b.total == |b.results| && |b.workers| <= WORKERS && (b.total > 0 ==> b.workers != [])
    && |b.requested| == b.cursor && (forall i :: 0 <= i < b.cursor ==> b.requested[i] == i)
    && (forall w :: 0 <= w < |b.workers| && b.workers[w].Asking? ==>
          b.workers[w].index < b.cursor && b.results[b.workers[w].index].None?)
    && (forall v, w :: 0 <= v < w < |b.workers| && b.workers[v].Asking? && b.workers[w].Asking? ==>
          b.workers[v].index != b.workers[w].index)
    && (forall i :: 0 <= i < b.cursor && b.results[i].None? ==>
          exists w :: 0 <= w < |b.workers| && b.workers[w] == Asking(i))
    && (forall i :: b.cursor <= i < b.total ==> b.results[i].None?)
    && b.completed == Answered(b.results) && b.failed == Bad(b.results)
    && (forall w :: 0 <= w < |b.workers| && b.workers[w].Finished? ==> b.cursor == b.total)
  }

  lemma StartSound(total: nat)
    ensures Sound(Start(total))
  {
    NoneAnswered(total);
  }

  lemma TakeKeeps(b: Batch, w: nat)
    requires Sound(b)
    ensures Sound(Do(b, Takes(w)))
  {
    hide Answered, Bad;
    var r := Do(b, Takes(w));
    if w < |b.workers| && b.workers[w].Idle? {
      forall i | 0 <= i < r.cursor && r.results[i].None?
        ensures exists v :: 0 <= v < |r.workers| && r.workers[v] == Asking(i)
      {
        if i < b.cursor {
          var v :| 0 <= v < |b.workers| && b.workers[v] == Asking(i);
          assert r.workers[v] == Asking(i);
        } else {
          assert r.workers[w] == Asking(i);
        }
      }
    }
  }

  lemma ReceiveKeeps(b: Batch, w: nat, answer: Answer)
    requires Sound(b)
    ensures Sound(Do(b, Receives(w, answer)))
  {
    hide Answered, Bad;
    var r := Do(b, Receives(w, answer));
    if w < |b.workers| && b.workers[w].Asking? {
      OneMoreAnswer(b.results, b.workers[w].index, answer);
      forall i | 0 <= i < r.cursor && r.results[i].None?
        ensures exists v :: 0 <= v < |r.workers| && r.workers[v] == Asking(i)
      {
        var v :| 0 <= v < |b.workers| && b.workers[v] == Asking(i);
        assert r.workers[v] == Asking(i);
      }
    }
  }

  lemma {:induction false} RunKeepsSound(b: Batch, steps: seq<Step>)
    requires Sound(b)
    ensures Sound(Run(b, steps))
    decreases |steps|
  {
    hide Sound, Do;
    if steps != [] {
      match steps[0] {
        case Takes(w) => TakeKeeps(b, w);
        case Receives(w, answer) => ReceiveKeeps(b, w, answer);
      }
      RunKeepsSound(Do(b, steps[0]), steps[1..]);
    }
  }

  function InFlight(workers: seq<Worker>): (n: nat)
    ensures n <= |workers|
  {
    if workers == [] then 0 else (if workers[0].Asking? then 1 else 0) + InFlight(workers[1..])
  }

  lemma {:induction false} InFlightUpdated(workers: seq<Worker>, i: nat, w: Worker)
    requires i < |workers|
    ensures InFlight(workers[i := w])
            == InFlight(workers) - (if workers[i].Asking? then 1 else 0) + if w.Asking? then 1 else 0
  {
    var r := workers[i := w];
    if i == 0 {
      assert r[1..] == workers[1..];
    } else {
      InFlightUpdated(workers[1..], i - 1, w);
      assert r[1..] == workers[1..][i - 1 := w];
    }
  }

  lemma {:induction false} NoneInFlight(n: nat)
    ensures InFlight(seq(n, _ => Idle)) == 0
  {
    if n > 0 {
      NoneInFlight(n - 1);
      assert seq(n, _ => Idle)[1..] == seq(n - 1, _ => Idle);
    }
  }

  /** What has been requested and not answered is in flight. */
  ghost predicate Balanced(b: Batch) { Sound(b) && b.cursor == b.completed + InFlight(b.workers) }

  lemma StepBalances(b: Batch, step: Step)
    requires Balanced(b)
    ensures Balanced(Do(b, step)) && |Do(b, step).workers| == |b.workers|
  {
    hide Sound;
    match step
    case Takes(w) =>
      TakeKeeps(b, w);
      if w < |b.workers| && b.workers[w].Idle? {
        InFlightUpdated(b.workers, w, Asking(b.cursor));
        InFlightUpdated(b.workers, w, Finished);
      }
    case Receives(w, answer) =>
      ReceiveKeeps(b, w, answer);
      if w < |b.workers| && b.workers[w].Asking? { InFlightUpdated(b.workers, w, Idle); }
  }

  lemma {:induction false} RunBalances(b: Batch, steps: seq<Step>)
    requires Balanced(b)
    ensures Balanced(Run(b, steps)) && |Run(b, steps).workers| == |b.workers|
    decreases |steps|
  {
    hide Balanced, Do;
    if steps != [] {
      StepBalances(b, steps[0]);
      RunBalances(Do(b, steps[0]), steps[1..]);
    }
  }

  /** In every interleaving each connection is requested at most once and in order, by as many
      workers as there are connections but four at most; what is requested and not answered is in
      flight, and the counters count the results.  When all workers have finished, every
      connection has been requested and answered. */
  lemma EveryInterleavingChecksAll(total: nat, steps: seq<Step>)
    ensures var b := Run(Start(total), steps);
            && b.requested == seq(b.cursor, i => i)
            && |b.workers| == (if total < 4 then total else 4)
            && |b.requested| == b.completed + InFlight(b.workers) && InFlight(b.workers) <= 4
            && b.completed == Answered(b.results) && b.failed == Bad(b.results)
            && (total > 0 && (forall w :: 0 <= w < |b.workers| ==> b.workers[w].Finished?) ==>
                  && b.cursor == total && b.completed == total
                  && |b.results| == total && forall i :: 0 <= i < total ==> b.results[i].Some?)
  {
    hide Run, Bad;
    StartSound(total);
    NoneInFlight(|Start(total).workers|);
    RunBalances(Start(total), steps);
    var b := Run(Start(total), steps);
    TotalStays(Start(total), steps);
    if total > 0 && forall w :: 0 <= w < |b.workers| ==> b.workers[w].Finished? {
      assert b.workers[0].Finished?;
      forall i | 0 <= i < total ensures b.results[i].Some? { }
      AllAnswered(b.results);
    }
  }

  lemma {:induction false} TotalStays(b: Batch, steps: seq<Step>)
    ensures Run(b, steps).total == b.total
    decreases |steps|
  {
    if steps != [] { TotalStays(Do(b, steps[0]), steps[1..]); }
  }

  /** An answer lands where its question came from, and moves no other. */
  lemma AnswerLandsAtItsIndex(total: nat, steps: seq<Step>, w: nat, answer: Answer)
    requires var b := Run(Start(total), steps); w < |b.workers| && b.workers[w].Asking?
    ensures var b := Run(Start(total), steps);
            var i := b.workers[w].index;
            var r := Do(b, Receives(w, answer));
            && i in b.requested && i < |b.results| && b.results[i].None?
            && r.results == b.results[i := Some(answer)]
  {
    hide Run;
    StartSound(total);
    RunKeepsSound(Start(total), steps);
    var b := Run(Start(total), steps);
    assert b.requested[b.workers[w].index] == b.workers[w].index;
  }

  /** Once answered, a result stays. */
  lemma {:induction false} AnswersStay(b: Batch, steps: seq<Step>, i: nat)
    requires Sound(b) && i < |b.results| && b.results[i].Some?
    ensures i < |Run(b, steps).results| && Run(b, steps).results[i] == b.results[i]
    decreases |steps|
  {
    hide Answered, Bad;
    if steps != [] {
      RunKeepsSound(b, [steps[0]]);
      assert Run(b, [steps[0]]) == Do(b, steps[0]) by { assert [steps[0]][1..] == []; }
      AnswersStay(Do(b, steps[0]), steps[1..], i);
    }
  }

  // ---------------------------------------------------------------- coming to an end

  function Weight(w: Worker): nat { if w.Idle? then 1 else if w.Asking? then 2 else 0 }

  function Weights(workers: seq<Worker>): nat {
    if workers == [] then 0 else Weight(workers[0]) + Weights(workers[1..])
  }

  /** What is left to do: two steps for each connection ahead of the cursor, and what the workers
      have in hand. */
  function Left(b: Batch): int { 2 * (b.total - b.cursor) + Weights(b.workers) }

  lemma {:induction false} WeightsUpdated(workers: seq<Worker>, i: nat, w: Worker)
    requires i < |workers|
    ensures Weights(workers[i := w]) == Weights(workers) - Weight(workers[i]) + Weight(w)
  {
    var r := workers[i := w];
    if i == 0 {
      assert r[1..] == workers[1..];
    } else {
      WeightsUpdated(workers[1..], i - 1, w);
      assert r[1..] == workers[1..][i - 1 := w];
    }
  }

  lemma StepLessens(b: Batch, step: Step)
    requires Sound(b)
    ensures Left(Do(b, step)) == Left(b) - if Do(b, step) == b then 0 else 1
  {
    hide Answered, Bad;
    match step
    case Takes(w) =>
      if w < |b.workers| && b.workers[w].Idle? {
        WeightsUpdated(b.workers, w, Asking(b.cursor));
        WeightsUpdated(b.workers, w, Finished);
      }
    case Receives(w, answer) =>
      if w < |b.workers| && b.workers[w].Asking? { WeightsUpdated(b.workers, w, Idle); }
  }

  /** How many steps have an effect. */
  function Effects(b: Batch, steps: seq<Step>): nat
    decreases |steps|
  {
    if steps == [] then 0
    else (if Do(b, steps[0]) == b then 0 else 1) + Effects(Do(b, steps[0]), steps[1..])
  }

  lemma {:induction false} EffectsLessen(b: Batch, steps: seq<Step>)
    requires Sound(b)
    ensures Left(Run(b, steps)) == Left(b) - Effects(b, steps)
    decreases |steps|
  {
    hide Sound, Do, Left;
    if steps != [] {
      StepLessens(b, steps[0]);
      match steps[0] {
        case Takes(w) => TakeKeeps(b, w);
        case Receives(w, answer) => ReceiveKeeps(b, w, answer);
      }
      EffectsLessen(Do(b, steps[0]), steps[1..]);
    }
  }

  predicate AllFinished(b: Batch) { forall w :: 0 <= w < |b.workers| ==> b.workers[w].Finished? }

  lemma {:induction false} WeightlessIffFinished(workers: seq<Worker>)
    ensures Weights(workers) == 0 <==> forall w :: 0 <= w < |workers| ==> workers[w].Finished?
  {
    if workers != [] {
      WeightlessIffFinished(workers[1..]);
      assert forall w :: 0 < w < |workers| ==> workers[w] == workers[1..][w - 1];
    }
  }

  lemma {:induction false} IdleWeights(n: nat)
    ensures Weights(seq(n, _ => Idle)) == n
  {
    if n > 0 {
      IdleWeights(n - 1);
      assert seq(n, _ => Idle)[1..] == seq(n - 1, _ => Idle);
    }
  }

  /** A worker that has not finished can do something. */
  lemma UnfinishedGoesOn(b: Batch, w: nat)
    requires Sound(b) && w < |b.workers| && !b.workers[w].Finished?
    ensures exists step :: Do(b, step) != b
  {
    hide Answered, Bad;
    var step := if b.workers[w].Idle? then Takes(w) else Receives(w, Answer(true, ""));
    assert Do(b, step).workers[w] != b.workers[w];
  }

  /** In every interleaving at most `2 * total + 4` steps have an effect.  As long as a worker has
      not finished, some step has; and when that many have had one, all workers have finished. */
  lemma EveryInterleavingEnds(total: nat, steps: seq<Step>)
    ensures var b, most := Run(Start(total), steps), 2 * total + if total < WORKERS then total else WORKERS;
            && Effects(Start(total), steps) <= most <= 2 * total + 4
            && (AllFinished(b) <==> Effects(Start(total), steps) == most)
            && (!AllFinished(b) ==> exists step :: Do(b, step) != b)
  {
    hide Run, Do, Weights, Answered, Bad;
    StartSound(total);
    RunKeepsSound(Start(total), steps);
    EffectsLessen(Start(total), steps);
    IdleWeights(if total < WORKERS then total else WORKERS);
    var b := Run(Start(total), steps);
    WeightlessIffFinished(b.workers);
    TotalStays(Start(total), steps);
    if AllFinished(b) {
      if total > 0 { assert b.workers[0].Finished?; }
    } else {
      var w :| 0 <= w < |b.workers| && !b.workers[w].Finished?;
      UnfinishedGoesOn(b, w);
    }
  }

  // ---------------------------------------------------------------- the shared variables

  /** What the workers share: each method is what a worker does between two waits. */
  class Checks {
    const total: nat
    var cursor: nat
    var completed: nat
    var failed: nat
    var results: seq<Option<Answer>>
    var workers: seq<Worker>
    var requested: seq<nat>

    ghost function View(): Batch
      reads this
    {
      Batch(total, cursor, completed, failed, results, workers, requested)
    }

    constructor (total: nat)
      ensures View() == Start(total) && Sound(View())
    {
      this.total := total;
      cursor, completed, failed, requested := 0, 0, 0, [];
      results := seq(total, _ => None);
      workers := seq(if total < WORKERS then total else WORKERS, _ => Idle);
      StartSound(total);
    }

    method Take(worker: nat)
      requires Sound(View())
      modifies this
      ensures View() == Do(old(View()), Takes(worker)) && Sound(View())
    {
      TakeKeeps(View(), worker);
      if worker >= |workers| || !workers[worker].Idle? { return; }
      if cursor < total {
        var index := cursor;
        cursor := cursor + 1;
        requested := requested + [index];
        workers := workers[worker := Asking(index)];
      } else {
        workers := workers[worker := Finished];
      }
    }

    method Receive(worker: nat, answer: Answer)
      requires Sound(View())
      modifies this
      ensures View() == Do(old(View()), Receives(worker, answer)) && Sound(View())
    {
      ReceiveKeeps(View(), worker, answer);
      if worker >= |workers| || !workers[worker].Asking? { return; }
      var index := workers[worker].index;
      results := results[index := Some(answer)];
      completed := completed + 1;
      if !answer.ok { failed := failed + 1; }
      workers := workers[worker := Idle];
    }
  }
}
