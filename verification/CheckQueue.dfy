/** CCheckQueue: one master and any number of workers verifying batches of checks (src/checkqueue.h). Each
    critical section is one atomic step. fQuit is never set in the program and is left out. */
module CheckQueue {
  import opened Arith

  /** A check, by the verdict it will return. */
  datatype Check = Check(id: nat, verdict: bool)

  ghost predicate AllGood(checks: seq<Check>) {
    forall i :: 0 <= i < |checks| ==> checks[i].verdict
  }

  /** The fields the mutex guards. */
  datatype Shared = Shared(queue: seq<Check>, nIdle: int, nTotal: int, fAllOk: bool, nTodo: int)

  /** Why a thread enters the critical section of Loop: for the first time, after working off a batch of a
      given size with a result, or because it woke up. */
  datatype Entry = First | Done(nNow: nat, fOk: bool) | Woken

  /** How it leaves it: returning a result, going to sleep, or with a batch and the result so far. */
  datatype Outcome = Return(fRet: bool) | Sleep | Work(checks: seq<Check>, fOk: bool)

  function Max(a: int, b: int): int { if a > b then a else b }
  function Min(a: int, b: int): int { if a < b then a else b }

  /** How many checks to take. */
  function BatchSize(s: Shared, nBatchSize: nat): (n: nat)
    requires s.queue != [] && s.nTotal >= 0 && s.nIdle >= 0
    ensures 1 <= n <= |s.queue|
  {
    Max(1, Min(nBatchSize, |s.queue| / (s.nTotal + s.nIdle + 1)))
  }

  /** An even share of the queue for every thread there is and one more, but no more than the batch size set, and at
      least one check. */
  lemma BatchIsShare(s: Shared, nBatchSize: nat)
    requires s.queue != [] && s.nTotal >= 0 && s.nIdle >= 0
    ensures var n, threads := BatchSize(s, nBatchSize), s.nTotal + s.nIdle + 1;
      && (n > 1 ==> n <= nBatchSize && n * threads <= |s.queue|)
      && (n < nBatchSize ==> (n + 1) * threads > |s.queue|)
  {
    var threads := s.nTotal + s.nIdle + 1;
    DivBounds(|s.queue|, threads);
    var share := |s.queue| / threads;
    if BatchSize(s, nBatchSize) > share { MulMono(share + 1, BatchSize(s, nBatchSize) + 1, threads); }
    if BatchSize(s, nBatchSize) < share { MulMono(BatchSize(s, nBatchSize), share, threads); }
  }

  /** The last n elements, last one first. */
  function TakenFromBack(q: seq<Check>, n: nat): (r: seq<Check>)
    requires n <= |q|
    ensures |r| == n
  {
    seq(n, i requires 0 <= i < n => q[|q| - 1 - i])
  }

  function Cleaned(s: Shared, entry: Entry): Shared {
    match entry
    case First => s.(nTotal := s.nTotal + 1)
    case Done(nNow, fOk) => s.(fAllOk := s.fAllOk && fOk, nTodo := s.nTodo - nNow)
    case Woken => s.(nIdle := s.nIdle - 1)
  }

  /** One pass through the critical section. */
  function Section(s: Shared, nBatchSize: nat, fMaster: bool, entry: Entry): (Shared, Outcome)
    requires Cleaned(s, entry).nTotal >= 0 && Cleaned(s, entry).nIdle >= 0
  {
    var c := Cleaned(s, entry);
    if c.queue == [] then
      if fMaster && c.nTodo == 0 then
        (c.(nTotal := c.nTotal - 1, fAllOk := true), Return(c.fAllOk))
      else (c.(nIdle := c.nIdle + 1), Sleep)
    else
      var n := BatchSize(c, nBatchSize);
      (c.(queue := c.queue[..|c.queue| - n]), Work(TakenFromBack(c.queue, n), c.fAllOk))
  }

  /** A thread that gets work gets the end of the queue, last check first, and leaves the rest as it was. */
  lemma WorkFromBack(s: Shared, nBatchSize: nat, fMaster: bool, entry: Entry)
    requires Cleaned(s, entry).nTotal >= 0 && Cleaned(s, entry).nIdle >= 0
    ensures var (s', out) := Section(s, nBatchSize, fMaster, entry);
      out.Work? ==>
        && out.checks != [] && s'.queue <= s.queue && |s'.queue| + |out.checks| == |s.queue|
        && (forall i :: 0 <= i < |out.checks| ==> out.checks[i] == s.queue[|s.queue| - 1 - i])
        && out.fOk == s'.fAllOk
  {
  }

  /** A finished batch that empties the to-do count wakes the master. */
  predicate NotifiesMaster(s: Shared, fMaster: bool, entry: Entry) {
    entry.Done? && Cleaned(s, entry).nTodo == 0 && !fMaster
  }

  /** The queue object; its methods are the bodies of the critical sections. */
  class CCheckQueue {
    var queue: seq<Check>
    var nIdle: int
    var nTotal: int
    var fAllOk: bool
    var nTodo: int
    const nBatchSize: nat

    ghost function Value(): Shared
      reads this
    {
      Shared(queue, nIdle, nTotal, fAllOk, nTodo)
    }

    constructor (nBatchSizeIn: nat)
      ensures Value() == Shared([], 0, 0, true, 0) && nBatchSize == nBatchSizeIn
    {
      queue, nIdle, nTotal, fAllOk, nTodo, nBatchSize := [], 0, 0, true, 0, nBatchSizeIn;
    }

    /** Push checks; says whether one worker or all of them are to be woken. */
    method Add(vChecks: seq<Check>) returns (notifyOne: bool, notifyAll: bool)
      modifies this
      ensures Value() == old(Value()).(queue := old(queue) + vChecks, nTodo := old(nTodo) + |vChecks|)
      ensures notifyOne == (|vChecks| == 1) && notifyAll == (|vChecks| > 1)
    {
      for i := 0 to |vChecks|
        invariant Value() == old(Value()).(queue := old(queue) + vChecks[..i])
      {
        queue := queue + [vChecks[i]];
      }
      assert vChecks[..|vChecks|] == vChecks;
      nTodo := nTodo + |vChecks|;
      notifyOne, notifyAll := |vChecks| == 1, |vChecks| > 1;
    }

    /** From taking the lock to releasing it, by waiting or to work. */
    method LoopSection(fMaster: bool, entry: Entry) returns (out: Outcome, notifyMaster: bool)
      requires Cleaned(Value(), entry).nTotal >= 0 && Cleaned(Value(), entry).nIdle >= 0
      modifies this
      ensures (Value(), out) == Section(old(Value()), nBatchSize, fMaster, entry)
      ensures notifyMaster == NotifiesMaster(old(Value()), fMaster, entry)
    {
      notifyMaster := false;
      match entry {
        case First =>
          nTotal := nTotal + 1;
        case Done(nNow, fOk) =>
          fAllOk := fAllOk && fOk;
          nTodo := nTodo - nNow;
          notifyMaster := nTodo == 0 && !fMaster;
        case Woken =>
          nIdle := nIdle - 1;
      }
      if queue == [] {
        if fMaster && nTodo == 0 {
          nTotal := nTotal - 1;
          var fRet := fAllOk;
          fAllOk := true;
          return Return(fRet), notifyMaster;
        }
        nIdle := nIdle + 1;
        return Sleep, notifyMaster;
      }
      var nNow := BatchSize(Shared(queue, nIdle, nTotal, fAllOk, nTodo), nBatchSize);
      var vChecks := TakeBatch(nNow);
      return Work(vChecks, fAllOk), notifyMaster;
    }

    method TakeBatch(nNow: nat) returns (vChecks: seq<Check>)
      requires nNow <= |queue|
      modifies this
      ensures vChecks == TakenFromBack(old(queue), nNow)
      ensures Value() == old(Value()).(queue := old(queue)[..|old(queue)| - nNow])
    {
      vChecks := [];
      for i := 0 to nNow
        invariant Value() == old(Value()).(queue := old(queue)[..|old(queue)| - i])
        invariant vChecks == TakenFromBack(old(queue), i)
      {
        vChecks := vChecks + [queue[|queue| - 1]];
        queue := queue[..|queue| - 1];
      }
    }
  }

  /** Work off a batch outside the lock, stopping at the first failure. */
  method RunBatch(vChecks: seq<Check>, fOkIn: bool) returns (fOk: bool)
    ensures fOk <==> fOkIn && AllGood(vChecks)
  {
    fOk := fOkIn;
    for i := 0 to |vChecks|
      invariant fOk <==> fOkIn && AllGood(vChecks[..i])
    {
      if fOk {
        fOk := vChecks[i].verdict;
      }
      assert vChecks[..i + 1] == vChecks[..i] + [vChecks[i]];
    }
    assert vChecks[..|vChecks|] == vChecks;
  }

  // ---- threads ----

  /** A thread outside Loop, asleep on its condition variable, or working on a batch. */
  datatype Thread = Out | Waiting(signalled: bool) | Working(batch: seq<Check>, fOk: bool)

  /** The whole system; added holds the checks added since the last Wait returned. */
  datatype State = State(sh: Shared, master: Thread, workers: seq<Thread>, added: seq<Check>)

  /** The master adds checks (waking any set of workers), or a thread runs one critical section. */
  datatype Step = Add(checks: seq<Check>, wake: set<nat>) | Master | Worker(i: nat)

  ghost function EntryOf(t: Thread): Entry {
    match t
    case Out => First
    case Waiting(_) => Woken
    case Working(batch, fOk) => Done(|batch|, fOk && AllGood(batch))
  }

  function AfterOutcome(out: Outcome): Thread {
    match out
    case Return(_) => Out
    case Sleep => Waiting(false)
    case Work(checks, fOk) => Working(checks, fOk)
  }

  function Signal(t: Thread): Thread {
    if t.Waiting? then Waiting(true) else t
  }

  /** The master adds only while it is not waiting; sleeping threads may wake at any time. */
  ghost predicate Enabled(s: State, step: Step) {
    match step
    case Add(_, _) => s.master.Out?
    case Master => true
    case Worker(i) => i < |s.workers|
  }

  ghost predicate CanEnter(s: State, t: Thread) {
    var c := Cleaned(s.sh, EntryOf(t));
    c.nTotal >= 0 && c.nIdle >= 0
  }

  ghost function WokenWorkers(ws: seq<Thread>, wake: set<nat>): seq<Thread> {
    seq(|ws|, i requires 0 <= i < |ws| => if i in wake then Signal(ws[i]) else ws[i])
  }

  ghost function Next(s: State, nBatchSize: nat, step: Step): State
    requires Enabled(s, step)
    requires step.Master? ==> CanEnter(s, s.master)
    requires step.Worker? ==> CanEnter(s, s.workers[step.i])
  {
    match step
    case Add(checks, wake) =>
      s.(sh := s.sh.(queue := s.sh.queue + checks, nTodo := s.sh.nTodo + |checks|),
         workers := WokenWorkers(s.workers, wake),
         added := s.added + checks)
    case Master =>
      var (sh, out) := Section(s.sh, nBatchSize, true, EntryOf(s.master));
      s.(sh := sh, master := AfterOutcome(out), added := if out.Return? then [] else s.added)
    case Worker(i) =>
      var entry := EntryOf(s.workers[i]);
      var (sh, out) := Section(s.sh, nBatchSize, false, entry);
      s.(sh := sh, workers := s.workers[i := AfterOutcome(out)],
         master := if NotifiesMaster(s.sh, false, entry) then Signal(s.master) else s.master)
  }

  // ---- counting ----

  function Asleep(t: Thread): int { if t.Waiting? then 1 else 0 }
  function Inside(t: Thread): int { if t.Out? then 0 else 1 }
  function InFlight(t: Thread): int { if t.Working? then |t.batch| else 0 }

  function Sum(f: Thread -> int, ws: seq<Thread>, k: nat): int
    requires k <= |ws|
  {
    if k == 0 then 0 else Sum(f, ws, k - 1) + f(ws[k - 1])
  }

  function Count(f: Thread -> int, s: State): int {
    f(s.master) + Sum(f, s.workers, |s.workers|)
  }

  lemma {:induction false} SumUpdate(f: Thread -> int, ws: seq<Thread>, i: nat, t: Thread, k: nat)
    requires i < |ws| && k <= |ws|
    ensures Sum(f, ws[i := t], k) == Sum(f, ws, k) + if i < k then f(t) - f(ws[i]) else 0
  {
    if k > 0 { SumUpdate(f, ws, i, t, k - 1); }
  }

  lemma {:induction false} SumSame(f: Thread -> int, a: seq<Thread>, b: seq<Thread>, k: nat)
    requires |a| == |b| && k <= |a| && forall i :: 0 <= i < k ==> f(a[i]) == f(b[i])
    ensures Sum(f, a, k) == Sum(f, b, k)
  {
    if k > 0 { SumSame(f, a, b, k - 1); }
  }

  lemma {:induction false} SumBounds(f: Thread -> int, ws: seq<Thread>, k: nat)
    requires k <= |ws| && forall t :: f(t) >= 0
    ensures Sum(f, ws, k) >= 0
    ensures forall i :: 0 <= i < k ==> f(ws[i]) <= Sum(f, ws, k)
  {
    if k > 0 { SumBounds(f, ws, k - 1); }
  }

  // ---- the invariant ----

  ghost predicate BatchGood(t: Thread) {
    t.Working? ==> AllGood(t.batch)
  }

  /** A batch is never empty, and a thread that started with a failure started after one was recorded. */
  ghost predicate ThreadOk(sh: Shared, t: Thread) {
    t.Working? ==> |t.batch| > 0 && (!t.fOk ==> !sh.fAllOk)
  }

  ghost predicate ThreadsOk(s: State) {
    ThreadOk(s.sh, s.master) && forall i :: 0 <= i < |s.workers| ==> ThreadOk(s.sh, s.workers[i])
  }

  /** nIdle counts the sleeping threads, nTotal those inside Loop, nTodo the checks queued or in flight. */
  ghost predicate CountsOk(s: State) {
    && s.sh.nIdle == Count(Asleep, s)
    && s.sh.nTotal == Count(Inside, s)
    && s.sh.nTodo == |s.sh.queue| + Count(InFlight, s)
  }

  /** What is still to be found out about the checks added since the last Wait. */
  ghost predicate Pending(s: State) {
    && s.sh.fAllOk
    && AllGood(s.sh.queue)
    && BatchGood(s.master)
    && AllBatchesGood(s.workers)
  }

  ghost predicate AllBatchesGood(ws: seq<Thread>) {
    forall i :: 0 <= i < |ws| ==> BatchGood(ws[i])
  }

  ghost predicate Inv(s: State) {
    && CountsOk(s)
    && ThreadsOk(s)
    && (AllGood(s.added) <==> Pending(s))
    && s.sh.nTodo <= |s.added|
    && (s.master == Waiting(false) ==> s.sh.queue == [] && s.sh.nTodo > 0)
  }

  // ---- one section ----

  lemma AllGoodSplit(q: seq<Check>, n: nat)
    requires n <= |q|
    ensures AllGood(q) <==> AllGood(q[..|q| - n]) && AllGood(TakenFromBack(q, n))
  {
    var back := TakenFromBack(q, n);
    if AllGood(q[..|q| - n]) && AllGood(back) {
      forall i | 0 <= i < |q| ensures q[i].verdict {
        if i >= |q| - n { assert back[|q| - 1 - i] == q[i]; }
      }
    }
    if AllGood(q) {
      forall i | 0 <= i < n ensures back[i].verdict {
        assert back[i] == q[|q| - 1 - i];
      }
    }
  }

  /** A section changes the counters by what its own thread changes. */
  lemma SectionCounts(sh: Shared, nBatchSize: nat, fMaster: bool, t: Thread)
    requires Cleaned(sh, EntryOf(t)).nTotal >= 0 && Cleaned(sh, EntryOf(t)).nIdle >= 0
    ensures var (sh', out) := Section(sh, nBatchSize, fMaster, EntryOf(t)); var t' := AfterOutcome(out);
      && sh'.nIdle - Asleep(t') == sh.nIdle - Asleep(t)
      && sh'.nTotal - Inside(t') == sh.nTotal - Inside(t)
      && sh'.nTodo - |sh'.queue| - InFlight(t') == sh.nTodo - |sh.queue| - InFlight(t)
      && sh'.nTodo <= sh.nTodo
      && (t.Working? && |t.batch| > 0 ==> sh'.nTodo < sh.nTodo)
  {
  }

  /** A section that does not return neither loses nor invents a verdict. */
  lemma SectionVerdict(sh: Shared, nBatchSize: nat, fMaster: bool, t: Thread)
    requires Cleaned(sh, EntryOf(t)).nTotal >= 0 && Cleaned(sh, EntryOf(t)).nIdle >= 0
    requires ThreadOk(sh, t)
    ensures var (sh', out) := Section(sh, nBatchSize, fMaster, EntryOf(t)); var t' := AfterOutcome(out);
      && ThreadOk(sh', t')
      && (out.Return? ==>
            && fMaster && sh'.queue == [] && sh'.nTodo == 0 && sh'.fAllOk
            && (out.fRet <==> sh.fAllOk && AllGood(sh.queue) && BatchGood(t)))
      && (!out.Return? ==>
            && (sh'.fAllOk ==> sh.fAllOk)
            && (sh'.fAllOk && AllGood(sh'.queue) && BatchGood(t')
                <==> sh.fAllOk && AllGood(sh.queue) && BatchGood(t)))
      && (t' == Waiting(false) ==> sh'.queue == [] && (fMaster ==> sh'.nTodo != 0))
  {
    var c := Cleaned(sh, EntryOf(t));
    if c.queue != [] {
      AllGoodSplit(c.queue, BatchSize(c, nBatchSize));
    }
  }

  lemma CountsNonNegative(s: State)
    ensures Count(Asleep, s) >= Asleep(s.master) && Count(Inside, s) >= Inside(s.master)
    ensures Count(InFlight, s) >= InFlight(s.master)
    ensures forall i :: 0 <= i < |s.workers| ==>
      && Asleep(s.workers[i]) <= Count(Asleep, s)
      && Inside(s.workers[i]) <= Count(Inside, s)
      && InFlight(s.workers[i]) <= Count(InFlight, s) - InFlight(s.master)
  {
    SumBounds(Asleep, s.workers, |s.workers|);
    SumBounds(Inside, s.workers, |s.workers|);
    SumBounds(InFlight, s.workers, |s.workers|);
  }

  lemma InvCanEnter(s: State, step: Step)
    requires Inv(s) && Enabled(s, step)
    ensures step.Master? ==> CanEnter(s, s.master)
    ensures step.Worker? ==> CanEnter(s, s.workers[step.i])
  {
    CountsNonNegative(s);
  }

  // ---- the steps keep the invariant ----

  lemma AddKeepsInv(s: State, nBatchSize: nat, checks: seq<Check>, wake: set<nat>)
    requires Inv(s) && s.master.Out?
    ensures Inv(Next(s, nBatchSize, Add(checks, wake)))
  {
    var s' := Next(s, nBatchSize, Add(checks, wake));
    SumSame(Asleep, s.workers, s'.workers, |s.workers|);
    SumSame(Inside, s.workers, s'.workers, |s.workers|);
    SumSame(InFlight, s.workers, s'.workers, |s.workers|);
    AllGoodAppend(s.added, checks);
    AllGoodAppend(s.sh.queue, checks);
    SameBatches(s.workers, s'.workers);
  }

  lemma AllGoodAppend(a: seq<Check>, b: seq<Check>)
    ensures AllGood(a + b) <==> AllGood(a) && AllGood(b)
  {
    if AllGood(a + b) {
      forall i | 0 <= i < |b| ensures b[i].verdict { assert b[i] == (a + b)[|a| + i]; }
      forall i | 0 <= i < |a| ensures a[i].verdict { assert a[i] == (a + b)[i]; }
    }
  }

  lemma SameBatches(a: seq<Thread>, b: seq<Thread>)
    requires |a| == |b|
    requires forall i :: 0 <= i < |a| ==> b[i] == a[i] || b[i] == Signal(a[i])
    ensures AllBatchesGood(a) <==> AllBatchesGood(b)
  {
    forall i | 0 <= i < |a| ensures BatchGood(a[i]) <==> BatchGood(b[i]) {
    }
  }

  lemma MasterKeepsInv(s: State, nBatchSize: nat)
    requires Inv(s) && CanEnter(s, s.master)
    ensures Inv(Next(s, nBatchSize, Master))
  {
    var (sh, out) := Section(s.sh, nBatchSize, true, EntryOf(s.master));
    SectionCounts(s.sh, nBatchSize, true, s.master);
    SectionVerdict(s.sh, nBatchSize, true, s.master);
    var s' := Next(s, nBatchSize, Master);
    assert CountsOk(s');
    CountsNonNegative(s');
    if out.Return? {
      assert forall i :: 0 <= i < |s.workers| ==> InFlight(s.workers[i]) <= 0;
    }
  }

  lemma BatchesGoodUpdate(ws: seq<Thread>, i: nat, t: Thread)
    requires i < |ws|
    ensures AllBatchesGood(ws[i := t]) && BatchGood(ws[i]) <==> AllBatchesGood(ws) && BatchGood(t)
  {
    var us := ws[i := t];
    if AllBatchesGood(us) && BatchGood(ws[i]) {
      assert BatchGood(us[i]);
      forall j | 0 <= j < |ws| ensures BatchGood(ws[j]) {
        if j != i { assert us[j] == ws[j]; }
      }
    }
  }

  lemma WorkerKeepsInv(s: State, nBatchSize: nat, i: nat)
    requires Inv(s) && i < |s.workers| && CanEnter(s, s.workers[i])
    ensures Inv(Next(s, nBatchSize, Worker(i)))
  {
    var t := s.workers[i];
    var (sh, out) := Section(s.sh, nBatchSize, false, EntryOf(t));
    var t' := AfterOutcome(out);
    SectionCounts(s.sh, nBatchSize, false, t);
    SectionVerdict(s.sh, nBatchSize, false, t);
    SumUpdate(Asleep, s.workers, i, t', |s.workers|);
    SumUpdate(Inside, s.workers, i, t', |s.workers|);
    SumUpdate(InFlight, s.workers, i, t', |s.workers|);
    var s' := Next(s, nBatchSize, Worker(i));
    assert CountsOk(s');
    CountsNonNegative(s');
    assert ThreadsOk(s');
    BatchesGoodUpdate(s.workers, i, t');
    assert Pending(s) ==> BatchGood(t);
    assert Pending(s') ==> BatchGood(s'.workers[i]);
  }

  /** Every step of every thread keeps the invariant. */
  lemma StepKeepsInv(s: State, nBatchSize: nat, step: Step)
    requires Inv(s) && Enabled(s, step)
    ensures step.Master? ==> CanEnter(s, s.master)
    ensures step.Worker? ==> CanEnter(s, s.workers[step.i])
    ensures Inv(Next(s, nBatchSize, step))
  {
    hide Inv, Next;
    InvCanEnter(s, step);
    match step
    case Add(checks, wake) => AddKeepsInv(s, nBatchSize, checks, wake);
    case Master => MasterKeepsInv(s, nBatchSize);
    case Worker(i) => WorkerKeepsInv(s, nBatchSize, i);
  }

  // ---- whole runs ----

  ghost predicate Initial(s: State) {
    && s.sh == Shared([], 0, 0, true, 0)
    && s.master.Out?
    && s.added == []
    && forall i :: 0 <= i < |s.workers| ==> s.workers[i].Out?
  }

  ghost predicate Transition(s: State, nBatchSize: nat, step: Step, s': State) {
    && Enabled(s, step)
    && (step.Master? ==> CanEnter(s, s.master))
    && (step.Worker? ==> CanEnter(s, s.workers[step.i]))
    && s' == Next(s, nBatchSize, step)
  }

  /** Any interleaving: states and the steps between them, from an unused queue on. */
  ghost predicate IsRun(run: seq<State>, steps: seq<Step>, nBatchSize: nat) {
    && |run| == |steps| + 1
    && Initial(run[0])
    && forall i :: 0 <= i < |steps| ==> Transition(run[i], nBatchSize, steps[i], run[i + 1])
  }

  lemma {:induction false} SumZero(f: Thread -> int, ws: seq<Thread>, k: nat)
    requires k <= |ws| && forall i :: 0 <= i < k ==> f(ws[i]) == 0
    ensures Sum(f, ws, k) == 0
  {
    if k > 0 { SumZero(f, ws, k - 1); }
  }

  lemma InitialInv(s: State)
    requires Initial(s)
    ensures Inv(s)
  {
    SumZero(Asleep, s.workers, |s.workers|);
    SumZero(Inside, s.workers, |s.workers|);
    SumZero(InFlight, s.workers, |s.workers|);
  }

  /** The invariant holds in every state of every run. */
  lemma {:induction false} RunKeepsInv(run: seq<State>, steps: seq<Step>, nBatchSize: nat, i: nat)
    requires IsRun(run, steps, nBatchSize) && i < |run|
    ensures Inv(run[i])
  {
    hide Inv, Next, Enabled, CanEnter;
    if i == 0 {
      InitialInv(run[0]);
    } else {
      RunKeepsInv(run, steps, nBatchSize, i - 1);
      assert Transition(run[i - 1], nBatchSize, steps[i - 1], run[i - 1 + 1]);
      StepKeepsInv(run[i - 1], nBatchSize, steps[i - 1]);
    }
  }

  /** The assertions made when the queue is handed to a new controller. */
  predicate Unused(s: State) {
    s.sh.nTotal == s.sh.nIdle && s.sh.nTodo == 0 && s.sh.fAllOk
  }

  /** Threads holding a batch. */
  function Holding(t: Thread): int { if t.Working? then 1 else 0 }

  lemma {:induction false} SumHolding(ws: seq<Thread>, k: nat)
    requires k <= |ws|
    ensures Sum(Holding, ws, k) == Sum(Inside, ws, k) - Sum(Asleep, ws, k)
  {
    if k > 0 { SumHolding(ws, k - 1); }
  }

  /** At every release of the lock, nTotal - nIdle is the number of threads holding a batch. */
  lemma HoldersCounted(run: seq<State>, steps: seq<Step>, nBatchSize: nat, i: nat)
    requires IsRun(run, steps, nBatchSize) && i < |run|
    ensures run[i].sh.nTotal - run[i].sh.nIdle == Count(Holding, run[i])
    ensures run[i].sh.nTodo == |run[i].sh.queue| + Count(InFlight, run[i])
  {
    RunKeepsInv(run, steps, nBatchSize, i);
    SumHolding(run[i].workers, |run[i].workers|);
  }

  lemma NothingInFlight(s: State)
    requires Inv(s) && s.sh.nTodo == 0
    ensures s.sh.queue == [] && Count(Holding, s) == 0
  {
    CountsNonNegative(s);
    SumZero(Holding, s.workers, |s.workers|);
  }

  /** Between Wait and the next Add the queue is as unused, whatever the workers do meanwhile. */
  lemma UnusedBetweenWaits(run: seq<State>, steps: seq<Step>, nBatchSize: nat, i: nat)
    requires IsRun(run, steps, nBatchSize) && i < |run|
    requires run[i].added == []
    ensures Unused(run[i])
  {
    RunKeepsInv(run, steps, nBatchSize, i);
    HoldersCounted(run, steps, nBatchSize, i);
    CountsNonNegative(run[i]);
    NothingInFlight(run[i]);
  }

  /** In every run, when Wait returns it returns true exactly when every check added since the last Wait
      passes, and it leaves an unused queue. */
  lemma WaitReturnsVerdict(run: seq<State>, steps: seq<Step>, nBatchSize: nat, i: nat)
    requires IsRun(run, steps, nBatchSize) && i < |steps|
    requires steps[i].Master? && run[i + 1].master.Out?
    ensures CanEnter(run[i], run[i].master)
    ensures var out := Section(run[i].sh, nBatchSize, true, EntryOf(run[i].master)).1;
      out.Return? && (out.fRet <==> AllGood(run[i].added))
    ensures Unused(run[i + 1]) && run[i + 1].added == []
  {
    var s := run[i];
    RunKeepsInv(run, steps, nBatchSize, i);
    assert Transition(s, nBatchSize, steps[i], run[i + 1]);
    SectionCounts(s.sh, nBatchSize, true, s.master);
    SectionVerdict(s.sh, nBatchSize, true, s.master);
    UnusedBetweenWaits(run, steps, nBatchSize, i + 1);
    NothingElseInFlight(s, nBatchSize);
  }

  /** When the master may return, nobody else holds a check. */
  lemma NothingElseInFlight(s: State, nBatchSize: nat)
    requires Inv(s) && CanEnter(s, s.master)
    requires Section(s.sh, nBatchSize, true, EntryOf(s.master)).1.Return?
    ensures AllBatchesGood(s.workers)
  {
    SectionCounts(s.sh, nBatchSize, true, s.master);
    SectionVerdict(s.sh, nBatchSize, true, s.master);
    CountsNonNegative(s);
    forall i | 0 <= i < |s.workers| ensures BatchGood(s.workers[i]) {
      assert InFlight(s.workers[i]) <= 0;
    }
  }

  // ---- no lost wakeup ----

  lemma SomeWorkerHolds(s: State)
    requires Inv(s) && s.master == Waiting(false)
    ensures exists i :: 0 <= i < |s.workers| && s.workers[i].Working?
  {
    if forall i :: 0 <= i < |s.workers| ==> !s.workers[i].Working? {
      SumZero(InFlight, s.workers, |s.workers|);
    }
  }

  /** Whenever the master sleeps without a signal on its way, the queue is empty, there is work left, and a
      worker holds some of it. */
  lemma NoLostWakeup(run: seq<State>, steps: seq<Step>, nBatchSize: nat, i: nat)
    requires IsRun(run, steps, nBatchSize) && i < |run|
    requires run[i].master == Waiting(false)
    ensures run[i].sh.queue == [] && run[i].sh.nTodo > 0
    ensures exists k :: 0 <= k < |run[i].workers| && run[i].workers[k].Working?
  {
    RunKeepsInv(run, steps, nBatchSize, i);
    SomeWorkerHolds(run[i]);
  }

  /** A step that needs no luck: no thread wakes unless it was signalled, and nothing is added. */
  ghost predicate Owed(s: State, step: Step) {
    match step
    case Add(_, _) => false
    case Master => s.master != Waiting(false)
    case Worker(i) => i < |s.workers| && s.workers[i].Working?
  }

  function Rank(t: Thread): nat {
    if t == Waiting(true) then 2 else 1
  }

  lemma NTodoNonNegative(s: State)
    requires Inv(s)
    ensures s.sh.nTodo >= 0
  {
    CountsNonNegative(s);
  }

  /** While the master is in Wait, some step is owed. */
  lemma SomethingOwed(s: State)
    requires Inv(s) && !s.master.Out?
    ensures exists step :: Owed(s, step)
  {
    if s.master == Waiting(false) {
      SomeWorkerHolds(s);
      var i :| 0 <= i < |s.workers| && s.workers[i].Working?;
      assert Owed(s, Worker(i));
    } else {
      assert Owed(s, Master);
    }
  }

  /** Any owed step can be taken and brings the master closer to returning: it returns, or the to-do count falls, or
      a signal is used up. */
  lemma Progress(s: State, nBatchSize: nat, step: Step)
    requires Inv(s) && !s.master.Out? && Owed(s, step)
    ensures exists s' :: Transition(s, nBatchSize, step, s')
    ensures forall s' :: Transition(s, nBatchSize, step, s') ==>
      && Inv(s')
      && (s'.master.Out? || s'.sh.nTodo < s.sh.nTodo
          || (s'.sh.nTodo == s.sh.nTodo && Rank(s'.master) < Rank(s.master)))
  {
    StepKeepsInv(s, nBatchSize, step);
    assert Transition(s, nBatchSize, step, Next(s, nBatchSize, step));
    if step.Worker? {
      SectionCounts(s.sh, nBatchSize, false, s.workers[step.i]);
    } else {
      SectionCounts(s.sh, nBatchSize, true, s.master);
    }
  }

  /** A step that is not owed brings the master no further away. */
  lemma NoSetback(s: State, nBatchSize: nat, step: Step, s': State)
    requires Inv(s) && !s.master.Out? && Transition(s, nBatchSize, step, s')
    ensures Inv(s')
    ensures s'.master.Out? || 2 * s'.sh.nTodo + Rank(s'.master) <= 2 * s.sh.nTodo + Rank(s.master)
  {
    StepKeepsInv(s, nBatchSize, step);
    if step.Worker? {
      SectionCounts(s.sh, nBatchSize, false, s.workers[step.i]);
    } else {
      SectionCounts(s.sh, nBatchSize, true, s.master);
    }
  }

  /** A segment of any run with the master in Wait before each step: owed steps, spurious wakeups, workers entering. */
  ghost predicate InsideRun(run: seq<State>, steps: seq<Step>, nBatchSize: nat) {
    && |run| == |steps| + 1
    && forall i :: 0 <= i < |steps| ==>
      !run[i].master.Out? && Transition(run[i], nBatchSize, steps[i], run[i + 1])
  }

  /** How many of the first k steps were owed. */
  ghost function OwedCount(run: seq<State>, steps: seq<Step>, k: nat): nat
    requires k <= |steps| < |run|
  {
    if k == 0 then 0 else OwedCount(run, steps, k - 1) + if Owed(run[k - 1], steps[k - 1]) then 1 else 0
  }

  lemma {:induction false} OwedStepsShrink(run: seq<State>, steps: seq<Step>, nBatchSize: nat, k: nat)
    requires InsideRun(run, steps, nBatchSize) && Inv(run[0]) && k <= |steps|
    ensures Inv(run[k])
    ensures run[k].master.Out? || OwedCount(run, steps, k) + 2 * run[k].sh.nTodo + Rank(run[k].master)
      <= 2 * run[0].sh.nTodo + Rank(run[0].master)
    ensures OwedCount(run, steps, k) <= 2 * run[0].sh.nTodo + Rank(run[0].master)
  {
    hide Inv, Transition, Owed;
    if k == 0 {
      NTodoNonNegative(run[0]);
    } else {
      var before, after, step := run[k - 1], run[k], steps[k - 1];
      OwedStepsShrink(run, steps, nBatchSize, k - 1);
      assert Transition(before, nBatchSize, step, run[k - 1 + 1]);
      NoSetback(before, nBatchSize, step, after);
      NTodoNonNegative(before);
      NTodoNonNegative(after);
      if Owed(before, step) { Progress(before, nBatchSize, step); }
    }
  }

  /** However a run goes on while the master is in Wait: no more than 2 * nTodo + 2 owed steps are taken before Wait
      returns, whatever else happens between them, and until it returns there is an owed step to take. */
  lemma MasterAlwaysReturns(run: seq<State>, steps: seq<Step>, nBatchSize: nat, i: nat, inside: seq<State>,
                            schedule: seq<Step>)
    requires IsRun(run, steps, nBatchSize) && i < |run|
    requires InsideRun(inside, schedule, nBatchSize) && inside[0] == run[i]
    ensures OwedCount(inside, schedule, |schedule|) <= 2 * run[i].sh.nTodo + 2
    ensures var last := inside[|schedule|];
      last.master.Out? || exists step, s' :: Owed(last, step) && Transition(last, nBatchSize, step, s')
  {
    RunKeepsInv(run, steps, nBatchSize, i);
    var last := inside[|schedule|];
    OwedStepsShrink(inside, schedule, nBatchSize, |schedule|);
    hide Inv, Transition, Owed;
    if !last.master.Out? {
      SomethingOwed(last);
      var step :| Owed(last, step);
      Progress(last, nBatchSize, step);
    }
  }
}
