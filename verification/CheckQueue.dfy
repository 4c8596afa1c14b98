/** The parallel check queue under every interleaving of one master and its workers.

    Every critical section of CCheckQueue::Loop and Add is one step; a thread that waits on
    its condition variable has left the section and may come back at any time, notified or
    not.  Checks are evaluated outside the mutex, one per step. */
module CheckQueue {

  import opened Arithmetic
  import opened Options

  /** A check, told apart from all others by its number, and the answer it will give. */
  datatype Check = Check(id: nat, good: bool)

  datatype Thread =
    | Outside
    | Waiting
      // the batch, how many of it were passed over, how many of these were run, and fOk
    | Working(batch: seq<Check>, next: nat, ran: nat, ok: bool)

  /** What one return of Wait said, of which checks, and which of them had been run. */
  datatype Answer = Answer(checks: seq<Check>, runs: seq<Check>, ret: bool)

  /** Thread 0 is the master. */
  datatype State = State(
    queue: seq<Check>,
    nIdle: int,
    nTotal: int,
    nTodo: int,
    fAllOk: bool,
    fQuit: bool,
    nBatchSize: nat,
    threads: seq<Thread>,
    masterNotified: bool,
    // history: checks added since the last Wait, those run, those in no queue or batch, all answers
    added: seq<Check>,
    runs: seq<Check>,
    finished: seq<Check>,
    nextId: nat,
    answers: seq<Answer>)

  datatype Action = Enter(t: nat) | Evaluate(t: nat) | Finish(t: nat) | Wake(t: nat) | Add(results: seq<bool>)

  function Init(workers: nat, batchSize: nat, quit: bool): State {
    State([], 0, 0, 0, true, quit, batchSize, seq(workers + 1, _ => Outside), false, [], [], [], 0, [])
  }

  // ------------------------------------------------------------------ steps

  /** Between one check and nBatchSize, aiming at a share of the queue. */
  function BatchSize(s: State): (n: nat)
    requires s.queue != [] && s.nTotal >= 0 && s.nIdle >= 0
    ensures 1 <= n <= |s.queue| && (n <= s.nBatchSize || n == 1)
  {
    var share := |s.queue| / (s.nTotal + s.nIdle + 1);
    ShareFits(|s.queue|, s.nTotal + s.nIdle + 1);
    var capped := if s.nBatchSize < share then s.nBatchSize else share;
    if capped < 1 then 1 else capped
  }

  lemma ShareFits(q: nat, k: nat)
    requires k >= 1
    ensures 0 <= q / k <= q
  {
    QuotientFalls(q, 1, k);
  }

  /** The last n elements, the last of them first: what n calls of back and pop_back yield. */
  function TakeBack(q: seq<Check>, n: nat): (b: seq<Check>)
    requires n <= |q|
    ensures |b| == n
  {
    if n == 0 then [] else [q[|q|-1]] + TakeBack(q[..|q|-1], n - 1)
  }

  /** The while loop at the heart of the critical section, for thread t. */
  function Decide(s: State, t: nat): State
    requires t < |s.threads| && s.nTotal >= 0 && s.nIdle >= 0
  {
    if s.queue != [] then
      var n := BatchSize(s);
      var b := TakeBack(s.queue, n);
      s.(queue := s.queue[..|s.queue|-n], threads := s.threads[t := Working(b, 0, 0, s.fAllOk)])
    else if (t == 0 || s.fQuit) && s.nTodo == 0 then
      var out := s.(nTotal := s.nTotal - 1, threads := s.threads[t := Outside]);
      if t == 0
      then out.(fAllOk := true, added := [], runs := [], finished := [],
                answers := s.answers + [Answer(s.added, s.runs, s.fAllOk)])
      else out
    else
      s.(nIdle := s.nIdle + 1, threads := s.threads[t := Waiting],
         masterNotified := if t == 0 then false else s.masterNotified)
  }

  function NewChecks(results: seq<bool>, first: nat): (cs: seq<Check>)
    ensures |cs| == |results|
  {
    seq(|results|, i requires 0 <= i < |results| => Check(first + i, results[i]))
  }

  predicate DoneAll(s: State, t: nat) {
    t < |s.threads| && s.threads[t].Working? && s.threads[t].next == |s.threads[t].batch|
  }

  predicate MoreToDo(s: State, t: nat) {
    t < |s.threads| && s.threads[t].Working? && s.threads[t].next < |s.threads[t].batch|
  }

  /** The thread looks at its next check, and runs it unless one has failed already. */
  function Evaluated(s: State, t: nat): State
    requires MoreToDo(s, t)
  {
    var w := s.threads[t];
    if w.ok
    then s.(threads := s.threads[t := Working(w.batch, w.next + 1, w.ran + 1, w.batch[w.next].good)],
            runs := s.runs + [w.batch[w.next]])
    else s.(threads := s.threads[t := w.(next := w.next + 1)])
  }

  /** The thread hands in its batch; while it holds the mutex its own slot is blank. */
  function HandedIn(s: State, t: nat): State
    requires DoneAll(s, t)
  {
    var w := s.threads[t];
    var todo := s.nTodo - |w.batch|;
    s.(fAllOk := s.fAllOk && w.ok, nTodo := todo,
       masterNotified := s.masterNotified || (todo == 0 && t != 0),
       finished := s.finished + w.batch,
       threads := s.threads[t := Outside])
  }

  function Awoken(s: State, t: nat): State
    requires t < |s.threads|
  {
    s.(nIdle := s.nIdle - 1, threads := s.threads[t := Outside])
  }

  function Added(s: State, results: seq<bool>): State {
    var cs := NewChecks(results, s.nextId);
    s.(queue := s.queue + cs, nTodo := s.nTodo + |cs|, added := s.added + cs, nextId := s.nextId + |cs|)
  }

  /** The state after the action, or None when the thread is not there to take it. */
  function Step(s: State, a: Action): Option<State> {
    if s.nTotal < 0 || s.nIdle < 0 then None
    else
      match a
      case Enter(t) =>
        if t < |s.threads| && s.threads[t].Outside? then Some(Decide(s.(nTotal := s.nTotal + 1), t)) else None
      case Wake(t) =>
        if t < |s.threads| && s.threads[t].Waiting? && s.nIdle > 0 then Some(Decide(Awoken(s, t), t)) else None
      case Evaluate(t) =>
        if MoreToDo(s, t) then Some(Evaluated(s, t)) else None
      case Finish(t) =>
        if DoneAll(s, t) then Some(Decide(HandedIn(s, t), t)) else None
      case Add(results) =>
        if |s.threads| > 0 && s.threads[0].Outside? then Some(Added(s, results)) else None
  }

  function Run(s: State, actions: seq<Action>): Option<State> {
    Fold((r: State, a: Action) => Step(r, a), s, actions)
  }

  // ------------------------------------------------------------------ counting

  /** How often c occurs. */
  function Occ(c: Check, q: seq<Check>): nat {
    if q == [] then 0 else Occ(c, q[..|q|-1]) + if q[|q|-1] == c then 1 else 0
  }

  lemma {:induction false} OccAppend(c: Check, p: seq<Check>, q: seq<Check>)
    ensures Occ(c, p + q) == Occ(c, p) + Occ(c, q)
  {
    if q == [] {
      assert p + q == p;
    } else {
      OccAppend(c, p, q[..|q|-1]);
      assert (p + q)[..|p+q|-1] == p + q[..|q|-1];
    }
  }

  lemma OccOne(c: Check, d: Check)
    ensures Occ(c, [d]) == if c == d then 1 else 0
  {
    assert [d][..0] == [];
    assert Occ(c, [d][..0]) == 0;
  }

  lemma {:induction false} OccIn(c: Check, q: seq<Check>)
    ensures Occ(c, q) > 0 <==> c in q
  {
    if q != [] {
      OccIn(c, q[..|q|-1]);
      assert q == q[..|q|-1] + [q[|q|-1]];
    }
  }

  lemma {:induction false} OccTakeBack(c: Check, q: seq<Check>, n: nat)
    requires n <= |q|
    ensures Occ(c, q) == Occ(c, q[..|q|-n]) + Occ(c, TakeBack(q, n))
  {
    if n == 0 {
      assert q[..|q|] == q;
    } else {
      var k := |q| - 1;
      OccTakeBack(c, q[..k], n - 1);
      assert q[..k][..k-(n-1)] == q[..|q|-n];
      OccAppend(c, [q[k]], TakeBack(q[..k], n - 1));
      OccOne(c, q[k]);
    }
  }

  function Inside(t: Thread): nat { if t.Outside? then 0 else 1 }

  function Idle(t: Thread): nat { if t.Waiting? then 1 else 0 }

  function Busy(t: Thread): nat { if t.Working? then 1 else 0 }

  function Load(t: Thread): nat { if t.Working? then |t.batch| else 0 }

  function HeldIn(c: Check, t: Thread): nat {
    if t.Working? then Occ(c, t.batch) else 0
  }

  function RanIn(c: Check, t: Thread): nat {
    if t.Working? && t.ran <= |t.batch| then Occ(c, t.batch[..t.ran]) else 0
  }

  function Holds(c: Check): Thread -> nat { (t: Thread) => HeldIn(c, t) }

  function Runs(c: Check): Thread -> nat { (t: Thread) => RanIn(c, t) }

  function Count(f: Thread -> nat, ts: seq<Thread>): nat {
    if ts == [] then 0 else Count(f, ts[..|ts|-1]) + f(ts[|ts|-1])
  }

  lemma {:induction false} CountUpdate(f: Thread -> nat, ts: seq<Thread>, t: nat, w: Thread)
    requires t < |ts|
    ensures Count(f, ts[t := w]) == Count(f, ts) - f(ts[t]) + f(w)
    ensures Count(f, ts) >= f(ts[t])
  {
    var k := |ts| - 1;
    if t < k {
      CountUpdate(f, ts[..k], t, w);
      assert ts[t := w][..k] == ts[..k][t := w];
    } else {
      assert ts[t := w][..k] == ts[..k];
    }
  }

  lemma {:induction false} CountZero(f: Thread -> nat, ts: seq<Thread>)
    requires forall i :: 0 <= i < |ts| ==> f(ts[i]) == 0
    ensures Count(f, ts) == 0
  {
    if ts != [] {
      CountZero(f, ts[..|ts|-1]);
    }
  }

  lemma {:induction false} BusyThreads(ts: seq<Thread>)
    ensures Count(Inside, ts) - Count(Idle, ts) == Count(Busy, ts)
  {
    if ts != [] {
      BusyThreads(ts[..|ts|-1]);
    }
  }

  /** With no load nobody works: every batch has at least one check. */
  lemma NoLoad(ts: seq<Thread>)
    requires Count(Load, ts) == 0
    requires forall i :: 0 <= i < |ts| && ts[i].Working? ==> |ts[i].batch| > 0
    ensures forall i :: 0 <= i < |ts| ==> !ts[i].Working?
  {
    forall i | 0 <= i < |ts|
      ensures !ts[i].Working?
    {
      CountUpdate(Load, ts, i, Outside);
    }
  }

  // ------------------------------------------------------------------ the invariant

  predicate AllGood(cs: seq<Check>) {
    forall i :: 0 <= i < |cs| ==> cs[i].good
  }

  /** A batch under way: what was run is a prefix, all of it good while fOk is still true. */
  predicate ThreadOk(t: Thread, bad: bool) {
    t.Working? ==>
      && 0 < |t.batch| && t.ran <= t.next <= |t.batch|
      && (t.ok ==> t.ran == t.next && AllGood(t.batch[..t.next]))
      && (!t.ok ==> bad)
  }

  predicate ThreadsOk(ts: seq<Thread>, bad: bool) {
    |ts| > 0 && forall i :: 0 <= i < |ts| ==> ThreadOk(ts[i], bad)
  }

  predicate SomeBad(added: seq<Check>) {
    !AllGood(added)
  }

  /** nTodo is what is queued or in a batch, nTotal the threads in Loop and nIdle those of
      them that wait; `entered` is one for a thread that holds the mutex. */
  predicate Counters(s: State, entered: nat) {
    && s.nTodo == |s.queue| + Count(Load, s.threads)
    && s.nTotal == Count(Inside, s.threads) + entered
    && s.nIdle == Count(Idle, s.threads)
  }

  /** Every check added since the last Wait is in exactly one place. */
  ghost predicate PlacedAt(s: State, c: Check) {
    && Occ(c, s.added) == Occ(c, s.queue) + Count(Holds(c), s.threads) + Occ(c, s.finished)
    && Occ(c, s.added) <= 1
    && (Occ(c, s.added) > 0 ==> c.id < s.nextId)
  }

  /** Runs are runs of finished checks and of those in the batches under way; as long as no
      failure is known every finished check was run. */
  ghost predicate RunAt(s: State, c: Check) {
    && Count(Runs(c), s.threads) <= Occ(c, s.runs) <= Count(Runs(c), s.threads) + Occ(c, s.finished)
    && (s.fAllOk ==> Occ(c, s.runs) == Count(Runs(c), s.threads) + Occ(c, s.finished))
  }

  ghost predicate Placed(s: State) { forall c :: PlacedAt(s, c) }

  ghost predicate RunOk(s: State) { forall c :: RunAt(s, c) }

  predicate Verdict(s: State) {
    && (s.fAllOk ==> AllGood(s.finished))
    && (!s.fAllOk ==> SomeBad(s.added))
  }

  /** A master that sleeps without having been notified left nothing in the queue, and there
      is work under way. */
  predicate MasterSleeps(s: State) {
    |s.threads| > 0 && s.threads[0].Waiting? ==> s.queue == [] && (s.masterNotified || s.nTodo > 0)
  }

  /** A Wait answered true exactly when all its checks are good, ran none twice, and ran all
      of them if it answered true. */
  ghost predicate AnswerExact(a: Answer) {
    && (a.ret <==> AllGood(a.checks))
    && (forall c :: Occ(c, a.runs) <= Occ(c, a.checks) <= 1)
    && (a.ret ==> forall c :: Occ(c, a.runs) == Occ(c, a.checks))
  }

  ghost predicate AnswersOk(s: State) {
    forall i :: 0 <= i < |s.answers| ==> AnswerExact(s.answers[i])
  }

  /** With entered == 0 the mutex is free; with entered == 1 thread t holds it. */
  ghost predicate Inv(s: State, entered: nat) {
    && ThreadsOk(s.threads, SomeBad(s.added))
    && Counters(s, entered) && Placed(s) && RunOk(s) && Verdict(s) && MasterSleeps(s) && AnswersOk(s)
  }

  ghost predicate InSection(s: State, t: nat) {
    t < |s.threads| && s.threads[t].Outside? && Inv(s, 1)
  }

  // ------------------------------------------------------------------ changing one slot

  /** What becomes of the sums when the slot of thread t changes. */
  lemma SlotCounts(ts: seq<Thread>, t: nat, w: Thread)
    requires t < |ts|
    ensures Count(Inside, ts[t := w]) == Count(Inside, ts) - Inside(ts[t]) + Inside(w)
    ensures Count(Idle, ts[t := w]) == Count(Idle, ts) - Idle(ts[t]) + Idle(w)
    ensures Count(Load, ts[t := w]) == Count(Load, ts) - Load(ts[t]) + Load(w)
  {
    CountUpdate(Inside, ts, t, w);
    CountUpdate(Idle, ts, t, w);
    CountUpdate(Load, ts, t, w);
  }

  lemma SlotChecks(ts: seq<Thread>, t: nat, w: Thread, c: Check)
    requires t < |ts|
    ensures Count(Holds(c), ts[t := w]) == Count(Holds(c), ts) - HeldIn(c, ts[t]) + HeldIn(c, w)
    ensures Count(Runs(c), ts[t := w]) == Count(Runs(c), ts) - RanIn(c, ts[t]) + RanIn(c, w)
    ensures HeldIn(c, ts[t]) <= Count(Holds(c), ts) && RanIn(c, ts[t]) <= Count(Runs(c), ts)
  {
    CountUpdate(Holds(c), ts, t, w);
    CountUpdate(Runs(c), ts, t, w);
  }

  lemma SlotThreads(ts: seq<Thread>, t: nat, w: Thread, bad: bool, worse: bool)
    requires ThreadsOk(ts, bad) && t < |ts| && ThreadOk(w, worse) && (bad ==> worse)
    ensures ThreadsOk(ts[t := w], worse)
  {
    hide AllGood;
  }

  // ------------------------------------------------------------------ inside the critical section

  lemma TakeChecks(s: State, t: nat, c: Check)
    requires InSection(s, t) && s.queue != []
    ensures PlacedAt(Decide(s, t), c) && RunAt(Decide(s, t), c)
  {
    hide Count, ThreadsOk, Verdict, MasterSleeps, AnswersOk;
    assert PlacedAt(s, c) && RunAt(s, c);
    var n := BatchSize(s);
    var w := Working(TakeBack(s.queue, n), 0, 0, s.fAllOk);
    OccTakeBack(c, s.queue, n);
    SlotChecks(s.threads, t, w, c);
    assert w.batch[..0] == [];
  }

  lemma TakeKeeps(s: State, t: nat)
    requires InSection(s, t) && s.queue != []
    ensures Inv(Decide(s, t), 0)
  {
    forall c
      ensures PlacedAt(Decide(s, t), c) && RunAt(Decide(s, t), c)
    {
      TakeChecks(s, t, c);
    }
    hide Count, PlacedAt, RunAt, AnswersOk;
    var n := BatchSize(s);
    var w := Working(TakeBack(s.queue, n), 0, 0, s.fAllOk);
    SlotCounts(s.threads, t, w);
    SlotThreads(s.threads, t, w, SomeBad(s.added), SomeBad(s.added));
    hide ThreadsOk;
  }

  lemma SleepKeeps(s: State, t: nat)
    requires InSection(s, t) && s.queue == [] && !((t == 0 || s.fQuit) && s.nTodo == 0)
    ensures Inv(Decide(s, t), 0)
  {
    var r := Decide(s, t);
    forall c
      ensures PlacedAt(r, c) && RunAt(r, c)
    {
      assert PlacedAt(s, c) && RunAt(s, c);
      SlotChecks(s.threads, t, Waiting, c);
    }
    hide PlacedAt, RunAt, AnswersOk;
    SlotCounts(s.threads, t, Waiting);
    hide Count;
    SlotThreads(s.threads, t, Waiting, SomeBad(s.added), SomeBad(s.added));
    hide ThreadsOk;
  }

  /** Nothing is left anywhere: every check of the round is finished, nobody works. */
  lemma RoundIsOver(s: State, t: nat)
    requires InSection(s, t) && s.queue == [] && s.nTodo == 0
    ensures forall i :: 0 <= i < |s.threads| ==> !s.threads[i].Working?
    ensures forall c :: Count(Holds(c), s.threads) == 0 && Count(Runs(c), s.threads) == 0
    ensures forall c :: Occ(c, s.added) == Occ(c, s.finished)
  {
    hide AnswersOk, Verdict, RunAt, MasterSleeps;
    assert forall i :: 0 <= i < |s.threads| ==> ThreadOk(s.threads[i], SomeBad(s.added));
    NoLoad(s.threads);
    forall c
      ensures Count(Holds(c), s.threads) == 0 && Count(Runs(c), s.threads) == 0
      ensures Occ(c, s.added) == Occ(c, s.finished)
    {
      CountZero(Holds(c), s.threads);
      CountZero(Runs(c), s.threads);
      assert PlacedAt(s, c);
    }
  }

  lemma MasterAnswers(s: State)
    requires InSection(s, 0) && s.queue == [] && s.nTodo == 0
    ensures AnswerExact(Answer(s.added, s.runs, s.fAllOk))
  {
    RoundIsOver(s, 0);
    forall c
      ensures Occ(c, s.runs) <= Occ(c, s.added) <= 1
      ensures s.fAllOk ==> Occ(c, s.runs) == Occ(c, s.added)
    {
      assert PlacedAt(s, c) && RunAt(s, c);
    }
    if s.fAllOk {
      forall i | 0 <= i < |s.added|
        ensures s.added[i].good
      {
        OccIn(s.added[i], s.added);
        OccIn(s.added[i], s.finished);
      }
    }
  }

  lemma MasterLeaves(s: State)
    requires InSection(s, 0) && s.queue == [] && s.nTodo == 0
    ensures Inv(Decide(s, 0), 0)
  {
    RoundIsOver(s, 0);
    MasterAnswers(s);
    var r := Decide(s, 0);
    assert r.threads == s.threads;
    forall c
      ensures PlacedAt(r, c) && RunAt(r, c)
    {
    }
    hide Count, AnswerExact, PlacedAt, RunAt;
    assert ThreadsOk(r.threads, SomeBad(r.added));
  }

  lemma WorkerLeaves(s: State, t: nat)
    requires InSection(s, t) && s.queue == [] && t != 0 && s.fQuit && s.nTodo == 0
    ensures Inv(Decide(s, t), 0)
  {
    var r := Decide(s, t);
    assert r.threads == s.threads;
    forall c
      ensures PlacedAt(r, c) && RunAt(r, c)
    {
      assert PlacedAt(s, c) && RunAt(s, c);
    }
    hide Count, AnswersOk, PlacedAt, RunAt, ThreadsOk;
  }

  lemma DecideKeeps(s: State, t: nat)
    requires InSection(s, t)
    ensures Inv(Decide(s, t), 0)
  {
    if s.queue != [] {
      TakeKeeps(s, t);
    } else if t == 0 && s.nTodo == 0 {
      MasterLeaves(s);
    } else if s.fQuit && s.nTodo == 0 {
      WorkerLeaves(s, t);
    } else {
      SleepKeeps(s, t);
    }
  }

  // ------------------------------------------------------------------ every step

  lemma EnterSection(s: State, t: nat)
    requires Inv(s, 0) && t < |s.threads| && s.threads[t].Outside?
    ensures InSection(s.(nTotal := s.nTotal + 1), t)
  {
    var r := s.(nTotal := s.nTotal + 1);
    forall c
      ensures PlacedAt(r, c) && RunAt(r, c)
    {
      assert PlacedAt(s, c) && RunAt(s, c);
    }
    hide Count, AnswerExact, PlacedAt, RunAt, ThreadsOk;
  }

  lemma WakeSection(s: State, t: nat)
    requires Inv(s, 0) && t < |s.threads| && s.threads[t].Waiting? && s.nIdle > 0
    ensures InSection(Awoken(s, t), t)
  {
    var r := Awoken(s, t);
    forall c
      ensures PlacedAt(r, c) && RunAt(r, c)
    {
      assert PlacedAt(s, c) && RunAt(s, c);
      SlotChecks(s.threads, t, Outside, c);
    }
    hide PlacedAt, RunAt, AnswerExact;
    SlotCounts(s.threads, t, Outside);
    SlotThreads(s.threads, t, Outside, SomeBad(s.added), SomeBad(s.added));
    hide Count, ThreadsOk;
  }

  lemma FinishChecks(s: State, t: nat, c: Check)
    requires Inv(s, 0) && DoneAll(s, t)
    ensures PlacedAt(HandedIn(s, t), c) && RunAt(HandedIn(s, t), c)
  {
    hide Verdict, MasterSleeps, AnswersOk, Count, Counters;
    var w := s.threads[t];
    assert PlacedAt(s, c) && RunAt(s, c);
    assert ThreadOk(w, SomeBad(s.added));
    SlotChecks(s.threads, t, Outside, c);
    OccAppend(c, s.finished, w.batch);
    OccAppend(c, w.batch[..w.ran], w.batch[w.ran..]);
    assert w.batch == w.batch[..w.ran] + w.batch[w.ran..];
    assert w.batch[..|w.batch|] == w.batch;
  }

  lemma FinishVerdict(s: State, t: nat)
    requires Inv(s, 0) && DoneAll(s, t)
    ensures Verdict(HandedIn(s, t))
  {
    hide MasterSleeps, AnswersOk, Count, Counters, PlacedAt, RunAt;
    var w := s.threads[t];
    assert ThreadOk(w, SomeBad(s.added));
    assert w.batch[..|w.batch|] == w.batch;
  }

  lemma FinishSection(s: State, t: nat)
    requires Inv(s, 0) && DoneAll(s, t)
    ensures InSection(HandedIn(s, t), t)
  {
    var r := HandedIn(s, t);
    forall c
      ensures PlacedAt(r, c) && RunAt(r, c)
    {
      FinishChecks(s, t, c);
    }
    FinishVerdict(s, t);
    hide PlacedAt, RunAt, AnswerExact;
    SlotCounts(s.threads, t, Outside);
    SlotThreads(s.threads, t, Outside, SomeBad(s.added), SomeBad(s.added));
    hide Count, ThreadsOk, Verdict;
  }

  lemma EvaluateChecks(s: State, t: nat, c: Check)
    requires Inv(s, 0) && MoreToDo(s, t)
    ensures PlacedAt(Evaluated(s, t), c) && RunAt(Evaluated(s, t), c)
  {
    hide Verdict, MasterSleeps, AnswersOk, Count, Counters;
    var w := s.threads[t];
    assert PlacedAt(s, c) && RunAt(s, c);
    assert ThreadOk(w, SomeBad(s.added));
    SlotChecks(s.threads, t, Evaluated(s, t).threads[t], c);
    if w.ok {
      var d := w.batch[w.next];
      assert w.batch[..w.next+1] == w.batch[..w.next] + [d];
      OccAppend(c, w.batch[..w.next], [d]);
      OccAppend(c, s.runs, [d]);
    }
  }

  /** A check that fails is one of the round. */
  lemma HeldIsAdded(s: State, t: nat)
    requires Inv(s, 0) && MoreToDo(s, t) && !s.threads[t].batch[s.threads[t].next].good
    ensures SomeBad(s.added)
  {
    var w := s.threads[t];
    var c := w.batch[w.next];
    OccIn(c, w.batch);
    SlotChecks(s.threads, t, w, c);
    assert PlacedAt(s, c);
    OccIn(c, s.added);
  }

  lemma EvaluatePlaces(s: State, t: nat)
    requires Inv(s, 0) && MoreToDo(s, t)
    ensures forall c :: PlacedAt(Evaluated(s, t), c) && RunAt(Evaluated(s, t), c)
  {
    forall c
      ensures PlacedAt(Evaluated(s, t), c) && RunAt(Evaluated(s, t), c)
    {
      EvaluateChecks(s, t, c);
    }
  }

  lemma EvaluateThread(s: State, t: nat)
    requires Inv(s, 0) && MoreToDo(s, t)
    ensures ThreadOk(s.threads[t], SomeBad(s.added)) && ThreadOk(Evaluated(s, t).threads[t], SomeBad(s.added))
  {
    var w := s.threads[t];
    assert ThreadOk(w, SomeBad(s.added));
    if w.ok {
      assert w.batch[..w.next+1] == w.batch[..w.next] + [w.batch[w.next]];
      if !w.batch[w.next].good {
        HeldIsAdded(s, t);
      }
    }
  }

  lemma EvaluateKeeps(s: State, t: nat)
    requires Inv(s, 0) && MoreToDo(s, t)
    ensures Inv(Evaluated(s, t), 0)
  {
    var r := Evaluated(s, t);
    EvaluatePlaces(s, t);
    EvaluateThread(s, t);
    hide PlacedAt, RunAt, AnswerExact;
    SlotCounts(s.threads, t, r.threads[t]);
    SlotThreads(s.threads, t, r.threads[t], SomeBad(s.added), SomeBad(s.added));
    hide Count, ThreadsOk;
  }

  lemma AddChecks(s: State, results: seq<bool>, c: Check)
    requires PlacedAt(s, c) && RunAt(s, c)
    ensures PlacedAt(Added(s, results), c) && RunAt(Added(s, results), c)
  {
    var cs := NewChecks(results, s.nextId);
    OccAppend(c, s.added, cs);
    OccAppend(c, s.queue, cs);
    NewChecksOnce(results, s.nextId, c);
  }

  lemma {:induction false} NewChecksOnce(results: seq<bool>, first: nat, c: Check)
    ensures Occ(c, NewChecks(results, first)) <= 1
    ensures Occ(c, NewChecks(results, first)) > 0 ==> first <= c.id < first + |results|
  {
    if results != [] {
      var k := |results| - 1;
      NewChecksOnce(results[..k], first, c);
      assert NewChecks(results, first) == NewChecks(results[..k], first) + [Check(first + k, results[k])];
      OccAppend(c, NewChecks(results[..k], first), [Check(first + k, results[k])]);
      OccOne(c, Check(first + k, results[k]));
    }
  }

  lemma AddKeeps(s: State, results: seq<bool>)
    requires Inv(s, 0) && s.threads[0].Outside?
    ensures Inv(Added(s, results), 0)
  {
    var r := Added(s, results);
    forall c
      ensures PlacedAt(r, c) && RunAt(r, c)
    {
      assert PlacedAt(s, c) && RunAt(s, c);
      AddChecks(s, results, c);
    }
    hide PlacedAt, RunAt, AnswerExact, Count;
    if SomeBad(s.added) {
      var i :| 0 <= i < |s.added| && !s.added[i].good;
      assert r.added[i] == s.added[i];
    }
    SlotThreads(s.threads, 0, s.threads[0], SomeBad(s.added), SomeBad(r.added));
    assert s.threads[0 := s.threads[0]] == s.threads;
    hide ThreadsOk;
  }

  lemma StepKeeps(s: State, a: Action)
    requires Inv(s, 0) && Step(s, a).Some?
    ensures Inv(Step(s, a).value, 0)
  {
    match a
    case Enter(t) =>
      EnterSection(s, t);
      DecideKeeps(s.(nTotal := s.nTotal + 1), t);
    case Wake(t) =>
      WakeSection(s, t);
      DecideKeeps(Awoken(s, t), t);
    case Evaluate(t) =>
      EvaluateKeeps(s, t);
    case Finish(t) =>
      FinishSection(s, t);
      DecideKeeps(HandedIn(s, t), t);
    case Add(results) =>
      AddKeeps(s, results);
  }

  lemma {:induction false} RunKeeps(s: State, actions: seq<Action>)
    requires Inv(s, 0) && Run(s, actions).Some?
    ensures Inv(Run(s, actions).value, 0)
  {
    hide Inv, Step;
    if actions != [] {
      RunKeeps(s, actions[..|actions|-1]);
      StepKeeps(Run(s, actions[..|actions|-1]).value, actions[|actions|-1]);
    }
  }

  lemma InitHolds(workers: nat, batchSize: nat, quit: bool)
    ensures Inv(Init(workers, batchSize, quit), 0)
  {
    var s := Init(workers, batchSize, quit);
    CountZero(Inside, s.threads);
    CountZero(Idle, s.threads);
    CountZero(Load, s.threads);
    forall c
      ensures PlacedAt(s, c) && RunAt(s, c)
    {
      CountZero(Holds(c), s.threads);
      CountZero(Runs(c), s.threads);
    }
  }

  // ------------------------------------------------------------------ what the users of the queue get

  /** Under every interleaving every Wait returns true exactly when all checks added since
      the Wait before it are good; no check has run twice, and after true each has run once. */
  lemma WaitIsExact(workers: nat, batchSize: nat, quit: bool, actions: seq<Action>)
    requires Run(Init(workers, batchSize, quit), actions).Some?
    ensures var s := Run(Init(workers, batchSize, quit), actions).value;
            forall i :: 0 <= i < |s.answers| ==> AnswerExact(s.answers[i])
  {
    hide Run, Init, AnswerExact, Count;
    InitHolds(workers, batchSize, quit);
    RunKeeps(Init(workers, batchSize, quit), actions);
  }

  /** The counters whenever the mutex is free. */
  lemma CountersAreExact(workers: nat, batchSize: nat, quit: bool, actions: seq<Action>)
    requires Run(Init(workers, batchSize, quit), actions).Some?
    ensures var s := Run(Init(workers, batchSize, quit), actions).value;
            && s.nTodo == |s.queue| + Count(Load, s.threads)
            && s.nTotal - s.nIdle == Count(Busy, s.threads)
  {
    hide Run, Init, AnswerExact;
    InitHolds(workers, batchSize, quit);
    RunKeeps(Init(workers, batchSize, quit), actions);
    BusyThreads(Run(Init(workers, batchSize, quit), actions).value.threads);
  }

  /** The three asserts of CCheckQueueControl: between Wait and the next Add no thread holds
      a batch, nothing is left to do and the result flag is reset. */
  lemma ControlAsserts(workers: nat, batchSize: nat, quit: bool, actions: seq<Action>)
    requires Run(Init(workers, batchSize, quit), actions).Some?
    ensures var s := Run(Init(workers, batchSize, quit), actions).value;
            s.added == [] ==> s.nTotal == s.nIdle && s.nTodo == 0 && s.fAllOk
  {
    hide Run, Init, AnswerExact;
    InitHolds(workers, batchSize, quit);
    RunKeeps(Init(workers, batchSize, quit), actions);
    var s := Run(Init(workers, batchSize, quit), actions).value;
    if s.added == [] {
      NothingAdded(s);
      BusyThreads(s.threads);
    }
  }

  lemma NothingAdded(s: State)
    requires Inv(s, 0) && s.added == []
    ensures s.queue == [] && Count(Load, s.threads) == 0 && Count(Busy, s.threads) == 0
  {
    if s.queue != [] {
      assert PlacedAt(s, s.queue[0]);
      OccIn(s.queue[0], s.queue);
      assert false;
    }
    forall i | 0 <= i < |s.threads|
      ensures !s.threads[i].Working?
    {
      assert ThreadOk(s.threads[i], SomeBad(s.added));
      if s.threads[i].Working? {
        var c := s.threads[i].batch[0];
        assert PlacedAt(s, c);
        SlotChecks(s.threads, i, Outside, c);
        OccIn(c, s.threads[i].batch);
        assert false;
      }
    }
    CountZero(Load, s.threads);
    CountZero(Busy, s.threads);
  }

  /** A master that sleeps un-notified waits for a worker that has a batch to hand in. */
  lemma MasterIsNotForgotten(workers: nat, batchSize: nat, quit: bool, actions: seq<Action>)
    requires Run(Init(workers, batchSize, quit), actions).Some?
    ensures var s := Run(Init(workers, batchSize, quit), actions).value;
            && |s.threads| > 0
            && (s.threads[0].Waiting? && !s.masterNotified ==>
                  exists i :: 0 < i < |s.threads| && s.threads[i].Working?)
  {
    hide Run, Init, AnswerExact, PlacedAt, RunAt;
    InitHolds(workers, batchSize, quit);
    RunKeeps(Init(workers, batchSize, quit), actions);
    var s := Run(Init(workers, batchSize, quit), actions).value;
    if forall i :: 0 <= i < |s.threads| ==> !s.threads[i].Working? {
      CountZero(Load, s.threads);
    }
  }
}
