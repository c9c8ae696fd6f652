// Nothing stays in hand: whatever settlement and the engine have begun can be
// finished by their own steps alone, and every run of the coarse machine is what
// some run in the smallest steps does.

module Completion {
  import opened Domain
  import opened EventStream
  import opened Pipeline
  import opened Theorems
  import opened Grain

  // Nobody has anything in hand.
  function Idle(s: State): Fine { Fine(s, None, [], []) }

  lemma {:induction false} RunFineAppend(f: Fine, a: seq<FineStep>, b: seq<FineStep>)
    ensures RunFine(f, a + b) == RunFine(RunFine(f, a), b)
    decreases |a|
  {
    if a == [] {
      assert a + b == b;
    } else {
      assert (a + b)[1..] == a[1..] + b;
      RunFineAppend(DoFine(f, a[0]), a[1..], b);
    }
  }

  lemma RunFineOne(f: Fine, step: FineStep)
    ensures RunFine(f, [step]) == DoFine(f, step)
  {
    assert [step][1..] == [];
  }

  function Times(n: nat, step: FineStep): seq<FineStep> {
    if n == 0 then [] else [step] + Times(n - 1, step)
  }

  // One wallet update after the other.
  lemma {:induction false} LegsFinish(f: Fine)
    ensures RunFine(f, Times(|f.rest|, OneLeg))
         == f.(s := WithWallets(f.s, ApplyLegs(f.s.ledger.wallets, f.rest)), rest := [])
    decreases |f.rest|
  {
    if f.rest != [] {
      assert Times(|f.rest|, OneLeg)[1..] == Times(|f.rest| - 1, OneLeg);
      LegsFinish(DoFine(f, OneLeg));
    }
  }

  // One event after the other.
  lemma {:induction false} OutboxEmpties(f: Fine)
    ensures RunFine(f, Times(|f.outbox|, Emit))
         == f.(s := f.s.(log := Publish(f.s.producer, f.s.log, f.outbox)), outbox := [])
    decreases |f.outbox|
  {
    if f.outbox == [] {
      assert Publish(f.s.producer, f.s.log, []) == f.s.log;
    } else {
      assert Times(|f.outbox|, Emit)[1..] == Times(|f.outbox| - 1, Emit);
      OutboxEmpties(DoFine(f, Emit));
      PublishTwice(f.s.producer, f.s.log, [f.outbox[0]], f.outbox[1..]);
      assert f.outbox == [f.outbox[0]] + f.outbox[1..];
    }
  }

  // The steps that finish what is in hand.
  function Finishing(f: Fine): seq<FineStep> {
    Times(|f.rest|, OneLeg) + [Finish] + Times(|f.outbox|, Emit)
  }

  lemma EventFinishes(f: Fine)
    requires f.event.None? ==> f.rest == []
    ensures var f' := RunFine(f, Times(|f.rest|, OneLeg) + [Finish]);
      f' == Fine(f'.s, None, [], f.outbox) && f'.s == Completed(f).(log := f.s.log)
  {
    LegsFinish(f);
    RunFineAppend(f, Times(|f.rest|, OneLeg), [Finish]);
    RunFineOne(RunFine(f, Times(|f.rest|, OneLeg)), Finish);
  }

  lemma HandsEmpty(f: Fine)
    requires f.event.None? ==> f.rest == []
    ensures RunFine(f, Finishing(f)) == Idle(Completed(f))
  {
    EventFinishes(f);
    OutboxEmpties(RunFine(f, Times(|f.rest|, OneLeg) + [Finish]));
    RunFineAppend(f, Times(|f.rest|, OneLeg) + [Finish], Times(|f.outbox|, Emit));
  }

  // From every state a fine run can reach, finishing takes finitely many steps of
  // settlement and the engine, and leads to the state that completing means.
  lemma EveryRunCanFinish(producer: string, symbol: string, steps: seq<FineStep>)
    ensures var f := FineAfter(producer, symbol, steps); RunFine(f, Finishing(f)) == Idle(Completed(f))
  {
    FineRunsAreRuns(producer, symbol, steps);
    HandsEmpty(FineAfter(producer, symbol, steps));
  }

  // ----- Coarse runs -----

  // What a coarse step takes in small ones.
  function Small(s: State, step: Step): seq<FineStep> {
    match step
    case Engine => [Take] + Finishing(DoFine(Idle(s), Take))
    case Deliver(i) => [Begin(i)] + Finishing(DoFine(Idle(s), Begin(i)))
    case _ => [Coarse(step)]
  }

  lemma IdleIsComplete(s: State)
    ensures Completed(Idle(s)) == s
  {
    assert Publish(s.producer, s.log, []) == s.log;
  }

  lemma TakeIsEngine(s: State)
    ensures Completed(DoFine(Idle(s), Take)) == DoEngine(s)
  {
    IdleIsComplete(s);
  }

  lemma BeginIsDeliver(s: State, i: nat)
    ensures Completed(DoFine(Idle(s), Begin(i))) == DoDeliver(s, i)
  {
    IdleIsComplete(s);
    if i < |s.log| { LegsAreMoney(s.ledger.wallets, s.log[i]); }
  }

  lemma StepInSmall(s: State, step: Step)
    ensures RunFine(Idle(s), Small(s, step)) == Idle(Do(s, step))
  {
    match step
    case Engine =>
      RunFineOne(Idle(s), Take);
      TakeIsEngine(s);
      RunFineAppend(Idle(s), [Take], Finishing(DoFine(Idle(s), Take)));
      HandsEmpty(DoFine(Idle(s), Take));
    case Deliver(i) =>
      RunFineOne(Idle(s), Begin(i));
      BeginIsDeliver(s, i);
      RunFineAppend(Idle(s), [Begin(i)], Finishing(DoFine(Idle(s), Begin(i))));
      HandsEmpty(DoFine(Idle(s), Begin(i)));
    case _ =>
      RunFineOne(Idle(s), Coarse(step));
  }

  function AllSmall(s: State, steps: seq<Step>): seq<FineStep>
    decreases |steps|
  {
    if steps == [] then [] else Small(s, steps[0]) + AllSmall(Do(s, steps[0]), steps[1..])
  }

  lemma {:induction false} RunInSmall(s: State, steps: seq<Step>)
    ensures RunFine(Idle(s), AllSmall(s, steps)) == Idle(Run(s, steps))
    decreases |steps|
  {
    if steps != [] {
      StepInSmall(s, steps[0]);
      RunInSmall(Do(s, steps[0]), steps[1..]);
      RunFineAppend(Idle(s), Small(s, steps[0]), AllSmall(Do(s, steps[0]), steps[1..]));
    }
  }

  // Every run of the coarse machine is a fine run with nothing left in hand.
  lemma CoarseRunsAreFine(producer: string, symbol: string, steps: seq<Step>)
    ensures exists small :: FineAfter(producer, symbol, small) == Idle(After(producer, symbol, steps))
  {
    RunInSmall(Init(producer, symbol), steps);
    assert FineAfter(producer, symbol, AllSmall(Init(producer, symbol), steps)) == Idle(After(producer, symbol, steps));
  }
}
