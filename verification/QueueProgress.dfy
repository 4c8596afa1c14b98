/** The check queue does not get stuck: from every state that any interleaving leads to, the threads that have
    work and the notification they give are enough to bring the master out of Wait. */
module QueueProgress {
  import opened Arithmetic
  import opened Options
  import opened CheckQueue

  /** A batch is a fair share of the queue, rounded down, but no more than the limit and no less than one check. */
  lemma BatchIsShare(s: State)
    requires s.queue != [] && s.nTotal >= 0 && s.nIdle >= 0
    ensures var n, threads := BatchSize(s), s.nTotal + s.nIdle + 1;
      && (n > 1 ==> n * threads <= |s.queue| && n <= s.nBatchSize)
      && ((n + 1) * threads > |s.queue| || n >= s.nBatchSize)
  {
    var threads := s.nTotal + s.nIdle + 1;
    var share := |s.queue| / threads;
    assert |s.queue| == share * threads + |s.queue| % threads;
    assert (share + 1) * threads == share * threads + threads;
    var n := BatchSize(s);
    if n <= share {
      Grows(n, share, threads);
    }
    if share <= n {
      Grows(share + 1, n + 1, threads);
    }
  }

  // ------------------------------------------------------------------ steps nobody has to wait for

  /** A thread with a batch goes on with it, or the master comes back because it has been notified. */
  predicate Prompt(s: State, a: Action) {
    a.Evaluate? || a.Finish? || (a.Wake? && a.t == 0 && s.masterNotified)
  }

  function PromptStep(s: State, a: Action): Option<State> {
    if Prompt(s, a) then Step(s, a) else None
  }

  function PromptRun(s: State, actions: seq<Action>): Option<State> {
    Fold((r: State, a: Action) => PromptStep(r, a), s, actions)
  }

  lemma {:induction false} PromptIsRun(s: State, actions: seq<Action>)
    requires PromptRun(s, actions).Some?
    ensures Run(s, actions) == PromptRun(s, actions)
  {
    if actions != [] {
      PromptIsRun(s, actions[..|actions|-1]);
    }
  }

  lemma PromptFirst(s: State, a: Action, rest: seq<Action>)
    requires PromptStep(s, a).Some? && PromptRun(PromptStep(s, a).value, rest).Some?
    ensures PromptRun(s, [a] + rest) == PromptRun(PromptStep(s, a).value, rest)
  {
    var step := (r: State, a: Action) => PromptStep(r, a);
    FoldAppend(step, s, [a], rest);
    FoldOne(step, s, a);
  }

  // ------------------------------------------------------------------ how much is left to do

  /** Steps a thread still takes with its batch. */
  function Left(t: Thread): nat {
    if t.Working? && t.next <= |t.batch| then |t.batch| - t.next + 1 else 0
  }

  function Work(s: State): nat {
    2 * |s.queue| + Count(Left, s.threads)
  }

  /** The master is in Wait, with these checks and answers so far. */
  predicate InWait(s: State, added: seq<Check>, answers: seq<Answer>) {
    |s.threads| > 0 && !s.threads[0].Outside? && s.added == added && s.answers == answers
  }

  /** The master has come out of Wait with an answer about these checks. */
  predicate Returned(s: State, added: seq<Check>, answers: seq<Answer>) {
    && |s.threads| > 0 && s.threads[0].Outside?
    && |s.answers| == |answers| + 1 && s.answers[..|answers|] == answers && s.answers[|answers|].checks == added
  }

  /** What a thread does that has the mutex. */
  lemma DecideWorks(s: State, t: nat)
    requires t < |s.threads| && s.threads[t].Outside? && s.nTotal >= 0 && s.nIdle >= 0
    ensures var r := Decide(s, t);
      && Work(r) <= Work(s)
      && (t != 0 ==> r.threads[0] == s.threads[0] && r.added == s.added && r.answers == s.answers)
      && (t == 0 ==> if s.queue == [] && s.nTodo == 0 then Returned(r, s.added, s.answers)
                     else InWait(r, s.added, s.answers))
  {
    var r := Decide(s, t);
    CountUpdate(Left, s.threads, t, r.threads[t]);
    assert r.threads == s.threads[t := r.threads[t]];
  }

  /** One step of a thread with a batch. */
  function NextOf(s: State, t: nat): Action
    requires t < |s.threads| && s.threads[t].Working?
  {
    if s.threads[t].next < |s.threads[t].batch| then Evaluate(t) else Finish(t)
  }

  lemma WorkerSteps(s: State, t: nat, added: seq<Check>, answers: seq<Answer>)
    requires Inv(s, 0) && t < |s.threads| && s.threads[t].Working? && InWait(s, added, answers)
    ensures PromptStep(s, NextOf(s, t)).Some?
    ensures var r := PromptStep(s, NextOf(s, t)).value;
      && Inv(r, 0) && (Returned(r, added, answers) || (InWait(r, added, answers) && Work(r) < Work(s)))
  {
    assert ThreadOk(s.threads[t], SomeBad(s.added));
    var a := NextOf(s, t);
    Counted(s);
    StepKeeps(s, a);
    hide Inv;
    if a.Evaluate? {
      CountUpdate(Left, s.threads, t, Evaluated(s, t).threads[t]);
      assert Evaluated(s, t).threads == s.threads[t := Evaluated(s, t).threads[t]];
    } else {
      var h := HandedIn(s, t);
      CountUpdate(Left, s.threads, t, Outside);
      DecideWorks(h, t);
    }
  }

  lemma Counted(s: State)
    requires Inv(s, 0)
    ensures s.nTotal >= 0 && s.nIdle >= 0 && |s.threads| > 0
    ensures s.threads[0].Waiting? ==> s.nIdle > 0
  {
    CountUpdate(Idle, s.threads, 0, s.threads[0]);
  }

  /** When nobody has a batch the master has been notified, and comes back with its answer. */
  lemma MasterComesBack(s: State, added: seq<Check>, answers: seq<Answer>)
    requires Inv(s, 0) && InWait(s, added, answers) && forall t :: 0 <= t < |s.threads| ==> !s.threads[t].Working?
    ensures PromptStep(s, Wake(0)).Some?
    ensures var r := PromptStep(s, Wake(0)).value; Inv(r, 0) && Returned(r, added, answers)
  {
    Counted(s);
    CountZero(Load, s.threads);
    assert s.queue == [] && s.nTodo == 0;
    StepKeeps(s, Wake(0));
    hide Inv;
    DecideWorks(Awoken(s, 0), 0);
  }

  /** From every state in which the master waits, whatever happened before: if the threads with batches go on and
      the master comes back once it is notified, Wait returns.  No notification is lost. */
  lemma {:induction false} WaitReturns(s: State, added: seq<Check>, answers: seq<Answer>) returns (actions: seq<Action>)
    requires Inv(s, 0) && InWait(s, added, answers)
    ensures PromptRun(s, actions).Some?
    ensures Inv(PromptRun(s, actions).value, 0) && Returned(PromptRun(s, actions).value, added, answers)
    decreases Work(s)
  {
    hide Inv, InWait, Returned, Work, Step, Decide;
    var a;
    if t :| 0 <= t < |s.threads| && s.threads[t].Working? {
      WorkerSteps(s, t, added, answers);
      a := NextOf(s, t);
    } else {
      MasterComesBack(s, added, answers);
      a := Wake(0);
    }
    var r := PromptStep(s, a).value;
    var rest := [];
    if !Returned(r, added, answers) {
      rest := WaitReturns(r, added, answers);
    }
    PromptFirst(s, a, rest);
    actions := [a] + rest;
  }

  /** Checks can always be added when the master is outside, and their Wait can always be brought to an end; its
      answer is about all checks added since the last one. */
  lemma RoundCanEnd(s: State, results: seq<bool>) returns (actions: seq<Action>)
    requires Inv(s, 0) && s.threads[0].Outside?
    ensures Run(s, [Add(results), Enter(0)] + actions).Some?
    ensures var r := Run(s, [Add(results), Enter(0)] + actions).value;
      var checks := s.added + NewChecks(results, s.nextId);
      && r.threads[0].Outside? && |r.answers| == |s.answers| + 1 && r.answers[..|s.answers|] == s.answers
      && r.answers[|s.answers|].checks == checks && (r.answers[|s.answers|].ret <==> AllGood(checks))
  {
    hide Work, Prompt, Count, AllGood;
    Counted(s);
    StepKeeps(s, Add(results));
    var mid := Added(s, results);
    Counted(mid);
    StepKeeps(mid, Enter(0));
    var in_ := Decide(mid.(nTotal := mid.nTotal + 1), 0);
    DecideWorks(mid.(nTotal := mid.nTotal + 1), 0);
    hide Inv, Decide;
    actions := [];
    if !Returned(in_, mid.added, s.answers) {
      actions := WaitReturns(in_, mid.added, s.answers);
      PromptIsRun(in_, actions);
    }
    Joined(s, Add(results), Enter(0), actions);
    LastIsExact(Run(in_, actions).value);
  }

  lemma LastIsExact(s: State)
    requires Inv(s, 0)
    ensures s.answers != [] ==> (s.answers[|s.answers|-1].ret <==> AllGood(s.answers[|s.answers|-1].checks))
  {
    hide AllGood, Placed, RunOk;
    assert s.answers != [] ==> AnswerExact(s.answers[|s.answers|-1]);
  }

  lemma Joined(s: State, a: Action, b: Action, rest: seq<Action>)
    requires Step(s, a).Some? && Step(Step(s, a).value, b).Some?
    ensures Run(s, [a, b] + rest) == Run(Step(Step(s, a).value, b).value, rest)
  {
    var step := (r: State, a: Action) => Step(r, a);
    FoldAppend(step, s, [a, b], rest);
    FoldAppend(step, s, [a], [b]);
    FoldOne(step, s, a);
    FoldOne(step, Step(s, a).value, b);
    assert [a] + [b] == [a, b];
  }
}
