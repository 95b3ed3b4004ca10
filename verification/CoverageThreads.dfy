/**
 Any number of threads calling `coverageTraceFunc1`, which runs `taskEncountered` under a mutex.
 A run is any sequence of scheduling choices; each choice lets one thread take one step.
 */
module CoverageThreads {
  import opened Sequences
  import opened Coverage

  /** Where a thread stands: outside; with the lock; not found; reported; about to unlock. */
  datatype Phase = Outside | Entered | Absent | Reported | Leaving

  /** `calls[..next]` are finished, `calls[next]` is the current or next call. */
  datatype Thread = Thread(phase: Phase, calls: seq<CString>, next: nat)

  datatype Owner = Free | HeldBy(thread: nat)

  /**
   `seen` and `capacity` are the hash set, `failed` the error latch; `acquired` records the lock
   acquisitions. Once a bucket outside the table has been used, the run is `lost`: what the program does
   then is not modelled.
   */
  datatype State = State(threads: seq<Thread>, owner: Owner, seen: set<CString>, capacity: int, failed: bool,
                         emitted: seq<CString>, acquired: seq<CString>, lost: bool)

  function Initial(calls: seq<seq<CString>>): State {
    State(seq(|calls|, t requires 0 <= t < |calls| => Thread(Outside, calls[t], 0)), Free, {}, INITIAL_CAPACITY, false, [], [], false)
  }

  function GrownCapacity(seen: set<CString>, capacity: int): int {
    if Grows(|seen|, capacity) then 2 * capacity else capacity
  }

  /** One step of thread `t`; `ok` is whether a print in this step succeeds.  A blocked thread stays put. */
  function Step(st: State, t: nat, ok: bool): State
    requires t < |st.threads|
  {
    var th := st.threads[t];
    if th.next >= |th.calls| || st.lost then st
    else
      var s := th.calls[th.next];
      match th.phase
      case Outside =>
        if st.owner != Free then st
        else st.(threads := st.threads[t := th.(phase := Entered)], owner := HeldBy(t), acquired := st.acquired + [s])
      case Entered =>
        if !InTable(s, st.capacity) then st.(lost := true)
        else st.(threads := st.threads[t := th.(phase := if s in st.seen then Leaving else Absent)])
      case Absent =>
        st.(threads := st.threads[t := th.(phase := Reported)],
            failed := st.failed || !ok,
            emitted := if !st.failed && ok then st.emitted + [s] else st.emitted)
      case Reported =>
        var seen, grown := st.seen + {s}, GrownCapacity(st.seen + {s}, st.capacity);
        if grown != st.capacity && !FitAll(seen, grown) then st.(lost := true)
        else st.(threads := st.threads[t := th.(phase := Leaving)], seen := seen, capacity := grown)
      case Leaving =>
        st.(threads := st.threads[t := th.(phase := Outside, next := th.next + 1)], owner := Free)
  }

  datatype Choice = Choice(thread: nat, ok: bool)

  function Run(st: State, choices: seq<Choice>): (st': State)
    ensures |st'.threads| == |st.threads|
    decreases |choices|
  {
    if choices == [] then st
    else
      var before := Run(st, choices[..|choices| - 1]);
      var c := choices[|choices| - 1];
      if c.thread < |st.threads| then Step(before, c.thread, c.ok) else before
  }

  // ------------------------------------------------------------------ first occurrences

  /** The distinct strings of `h`, in the order of their first occurrence. */
  function Firsts(h: seq<CString>): seq<CString> {
    if h == [] then []
    else
      var f, s := Firsts(h[..|h| - 1]), h[|h| - 1];
      if s in h[..|h| - 1] then f else f + [s]
  }

  lemma {:induction false} FirstsElements(h: seq<CString>, s: CString)
    ensures s in Firsts(h) <==> s in h
  {
    if h != [] {
      FirstsElements(h[..|h| - 1], s);
      assert h == h[..|h| - 1] + [h[|h| - 1]];
    }
  }

  lemma {:induction false} FirstsDistinct(h: seq<CString>)
    ensures forall i, j :: 0 <= i < j < |Firsts(h)| ==> Firsts(h)[i] != Firsts(h)[j]
  {
    if h != [] {
      FirstsDistinct(h[..|h| - 1]);
      FirstsElements(h[..|h| - 1], h[|h| - 1]);
    }
  }

  /** The position of the first occurrence. */
  function FirstIndex(h: seq<CString>, s: CString): (i: nat)
    requires s in h
    ensures i < |h| && h[i] == s && s !in h[..i]
  {
    if s in h[..|h| - 1] then
      var i := FirstIndex(h[..|h| - 1], s);
      assert h[..i] == h[..|h| - 1][..i];
      i
    else |h| - 1
  }

  lemma {:induction false} FirstsOrdered(h: seq<CString>, i: nat, j: nat)
    requires i < j < |Firsts(h)|
    ensures Firsts(h)[i] in h && Firsts(h)[j] in h && FirstIndex(h, Firsts(h)[i]) < FirstIndex(h, Firsts(h)[j])
  {
    var g := h[..|h| - 1];
    FirstsElements(h, Firsts(h)[i]);
    FirstsElements(h, Firsts(h)[j]);
    FirstsElements(g, Firsts(h)[i]);
    if j < |Firsts(g)| {
      FirstsElements(g, Firsts(h)[j]);
      FirstsOrdered(g, i, j);
    }
  }

  // ------------------------------------------------------------------ what every step keeps

  /** The thread inside the critical section, if any, is the owner of the lock, and its call was acquired last. */
  ghost predicate Exclusive(st: State) {
    && (forall t :: 0 <= t < |st.threads| ==> (st.threads[t].phase != Outside <==> st.owner == HeldBy(t)))
    && (forall t :: 0 <= t < |st.threads| && st.threads[t].phase != Outside ==>
          var th := st.threads[t];
          th.next < |th.calls| && st.acquired != [] && st.acquired[|st.acquired| - 1] == th.calls[th.next])
    && (st.owner.HeldBy? ==> st.owner.thread < |st.threads|)
  }

  /** The phase of the thread inside the critical section. */
  function Stage(st: State): Phase {
    if st.owner.HeldBy? && st.owner.thread < |st.threads| then st.threads[st.owner.thread].phase else Outside
  }

  function ButLast(h: seq<CString>): seq<CString> {
    if h == [] then [] else h[..|h| - 1]
  }

  /** The acquisitions whose report is done, and those whose string is in the set. */
  function Handled(st: State): seq<CString> {
    if Stage(st) in {Entered, Absent} then ButLast(st.acquired) else st.acquired
  }

  function Stored(st: State): seq<CString> {
    if Stage(st) in {Entered, Absent, Reported} then ButLast(st.acquired) else st.acquired
  }

  ghost predicate Inv(st: State) {
    && Exclusive(st)
    && st.capacity > 0 && st.seen == Elements(Stored(st))
    && (Stage(st) in {Absent, Reported} ==>
          st.acquired[|st.acquired| - 1] !in st.seen && InTable(st.acquired[|st.acquired| - 1], st.capacity))
    && st.emitted <= Firsts(Handled(st))
    && (!st.failed ==> st.emitted == Firsts(Handled(st)))
  }

  lemma InitialInv(calls: seq<seq<CString>>)
    ensures Inv(Initial(calls))
  {
  }

  lemma StepExclusive(st: State, t: nat, ok: bool)
    requires t < |st.threads| && Exclusive(st)
    ensures Exclusive(Step(st, t, ok))
  {
  }

  lemma {:induction false} Acquire(st: State, t: nat, ok: bool)
    requires t < |st.threads| && Inv(st) && st.threads[t].phase == Outside
    ensures Inv(Step(st, t, ok))
  {
    var st', th := Step(st, t, ok), st.threads[t];
    if th.next < |th.calls| && st.owner == Free && !st.lost {
      StepExclusive(st, t, ok);
      assert Stage(st) == Outside && Stage(st') == Entered;
      assert ButLast(st'.acquired) == st.acquired;
      assert Handled(st') == Handled(st) && Stored(st') == Stored(st);
    } else {
      assert st' == st;
    }
  }

  /** While a thread is inside, it is the owner, and the last acquisition is its string. */
  lemma Inside(st: State, t: nat)
    requires t < |st.threads| && Exclusive(st) && st.threads[t].phase != Outside
    ensures st.owner == HeldBy(t) && Stage(st) == st.threads[t].phase
    ensures st.threads[t].next < |st.threads[t].calls|
    ensures st.acquired == ButLast(st.acquired) + [st.threads[t].calls[st.threads[t].next]]
  {
  }

  lemma {:induction false} LookUp(st: State, t: nat, ok: bool)
    requires t < |st.threads| && Inv(st) && st.threads[t].phase == Entered
    ensures Inv(Step(st, t, ok))
  {
    Inside(st, t);
    StepExclusive(st, t, ok);
    Inside(Step(st, t, ok), t);
    var h, s := ButLast(st.acquired), st.threads[t].calls[st.threads[t].next];
    if s in st.seen {
      assert Elements(h) == Elements(st.acquired);
      assert Firsts(st.acquired) == Firsts(h);
    }
  }

  lemma {:induction false} Report(st: State, t: nat, ok: bool)
    requires t < |st.threads| && Inv(st) && st.threads[t].phase == Absent
    ensures Inv(Step(st, t, ok))
  {
    Inside(st, t);
    StepExclusive(st, t, ok);
    Inside(Step(st, t, ok), t);
    var h, s := ButLast(st.acquired), st.threads[t].calls[st.threads[t].next];
    assert s !in h;
    assert Firsts(st.acquired) == Firsts(h) + [s];
  }

  lemma {:induction false} Store(st: State, t: nat, ok: bool)
    requires t < |st.threads| && Inv(st) && st.threads[t].phase == Reported
    ensures Inv(Step(st, t, ok))
  {
    Inside(st, t);
    StepExclusive(st, t, ok);
    var st', h, s := Step(st, t, ok), ButLast(st.acquired), st.threads[t].calls[st.threads[t].next];
    if st'.lost {
      StillInv(st);
      assert st' == st.(lost := true);
    } else {
      Inside(st', t);
      StoredNext(st, st', s);
    }
  }

  lemma StoredNext(st: State, st': State, s: CString)
    requires Inv(st) && Stage(st) == Reported && Exclusive(st') && Stage(st') == Leaving
    requires st.acquired == ButLast(st.acquired) + [s] && st'.acquired == st.acquired && st'.emitted == st.emitted && st'.failed == st.failed
    requires st'.seen == st.seen + {s} && st'.capacity > 0
    ensures Inv(st')
  {
    assert Elements(st.acquired) == Elements(ButLast(st.acquired)) + {s};
  }

  lemma StillInv(st: State)
    requires Inv(st)
    ensures Inv(st.(lost := true))
  {
  }

  lemma {:induction false} Release(st: State, t: nat, ok: bool)
    requires t < |st.threads| && Inv(st) && st.threads[t].phase == Leaving
    ensures Inv(Step(st, t, ok))
  {
    Inside(st, t);
    StepExclusive(st, t, ok);
  }

  lemma {:induction false} StepInv(st: State, t: nat, ok: bool)
    requires t < |st.threads| && Inv(st)
    ensures Inv(Step(st, t, ok))
  {
    match st.threads[t].phase
    case Outside => Acquire(st, t, ok);
    case Entered => LookUp(st, t, ok);
    case Absent => Report(st, t, ok);
    case Reported => Store(st, t, ok);
    case Leaving => Release(st, t, ok);
  }

  /** Safety over whole runs, for every schedule and every pattern of print failures. */
  lemma {:induction false} RunInv(calls: seq<seq<CString>>, choices: seq<Choice>)
    ensures Inv(Run(Initial(calls), choices))
    decreases |choices|
  {
    if choices == [] {
      InitialInv(calls);
    } else {
      RunInv(calls, choices[..|choices| - 1]);
      var before, c := Run(Initial(calls), choices[..|choices| - 1]), choices[|choices| - 1];
      if c.thread < |before.threads| {
        StepInv(before, c.thread, c.ok);
      }
    }
  }

  /**
   The trace, in every reachable state: no string twice, in the order in which the strings first got
   the lock, and complete whenever nobody holds the lock and no print has failed.
   */
  lemma {:induction false} TraceIsFirsts(calls: seq<seq<CString>>, choices: seq<Choice>)
    requires !Run(Initial(calls), choices).lost
    ensures var st := Run(Initial(calls), choices);
            && st.emitted <= Firsts(st.acquired)
            && (forall i, j :: 0 <= i < j < |st.emitted| ==> st.emitted[i] != st.emitted[j])
            && (st.owner == Free && !st.failed ==> st.emitted == Firsts(st.acquired))
  {
    RunInv(calls, choices);
    var st := Run(Initial(calls), choices);
    FirstsDistinct(Handled(st));
    if Stage(st) in {Entered, Absent} {
      Inside(st, st.owner.thread);
      assert Firsts(ButLast(st.acquired)) <= Firsts(st.acquired);
    }
  }

  /** After the latch is set, nothing more is emitted. */
  lemma {:induction false} LatchIsFinal(st: State, choices: seq<Choice>)
    requires st.failed
    ensures Run(st, choices).failed && Run(st, choices).emitted == st.emitted
    decreases |choices|
  {
    if choices != [] {
      LatchIsFinal(st, choices[..|choices| - 1]);
    }
  }

  // ------------------------------------------------------------------ nothing is forgotten

  /** The acquisitions are exactly the calls that have been started. */
  ghost predicate Accounted(st: State, calls: seq<seq<CString>>) {
    && |st.threads| == |calls|
    && (forall t :: 0 <= t < |calls| ==> st.threads[t].calls == calls[t] && st.threads[t].next <= |calls[t]|)
    && (forall s :: s in st.acquired ==> exists t, i :: Started(st, t, i) && st.threads[t].calls[i] == s)
    && (forall t, i :: Started(st, t, i) ==> st.threads[t].calls[i] in st.acquired)
  }

  ghost predicate Started(st: State, t: int, i: int) {
    && 0 <= t < |st.threads| && 0 <= i < |st.threads[t].calls|
    && (i < st.threads[t].next || (i == st.threads[t].next && st.threads[t].phase != Outside))
  }

  lemma StartedKept(st: State, t: nat, ok: bool, t': int, i: int)
    requires t < |st.threads| && Exclusive(st)
    ensures Started(st, t', i) ==> Started(Step(st, t, ok), t', i)
    ensures Started(Step(st, t, ok), t', i) && !Started(st, t', i) ==>
              t' == t && i == st.threads[t].next && Step(st, t, ok).acquired == st.acquired + [st.threads[t].calls[i]]
  {
  }

  lemma StepFrame(st: State, t: nat, ok: bool)
    requires t < |st.threads|
    ensures var st' := Step(st, t, ok);
            && |st'.threads| == |st.threads|
            && (forall t' :: 0 <= t' < |st.threads| ==> st'.threads[t'].calls == st.threads[t'].calls)
            && (forall t' :: 0 <= t' < |st.threads| && t' != t ==> st'.threads[t'] == st.threads[t'])
            && (st'.acquired == st.acquired ||
                (Started(st', t, st.threads[t].next) && st'.acquired == st.acquired + [st.threads[t].calls[st.threads[t].next]]))
            && (st.threads[t].next <= |st.threads[t].calls| ==> st'.threads[t].next <= |st.threads[t].calls|)
  {
  }

  lemma {:induction false} StepAccounted(st: State, t: nat, ok: bool, calls: seq<seq<CString>>)
    requires t < |st.threads| && Exclusive(st) && Accounted(st, calls)
    ensures Accounted(Step(st, t, ok), calls)
  {
    var st' := Step(st, t, ok);
    var n := st.threads[t].next;
    StepFrame(st, t, ok);
    forall s | s in st'.acquired ensures exists t', i :: Started(st', t', i) && st'.threads[t'].calls[i] == s {
      if s in st.acquired {
        var t', i :| Started(st, t', i) && st.threads[t'].calls[i] == s;
        StartedKept(st, t, ok, t', i);
        assert Started(st', t', i) && st'.threads[t'].calls[i] == s;
      } else {
        assert Started(st', t, n) && st'.threads[t].calls[n] == s;
      }
    }
    forall t', i | Started(st', t', i) ensures st'.threads[t'].calls[i] in st'.acquired {
      StartedKept(st, t, ok, t', i);
      assert Started(st, t', i) ==> st.threads[t'].calls[i] in st.acquired;
    }
  }

  lemma {:induction false} RunAccounted(calls: seq<seq<CString>>, choices: seq<Choice>)
    ensures Accounted(Run(Initial(calls), choices), calls)
    decreases |choices|
  {
    if choices != [] {
      RunAccounted(calls, choices[..|choices| - 1]);
      RunInv(calls, choices[..|choices| - 1]);
      var before, c := Run(Initial(calls), choices[..|choices| - 1]), choices[|choices| - 1];
      if c.thread < |before.threads| {
        StepAccounted(before, c.thread, c.ok, calls);
      }
    }
  }

  /** All calls of all threads have returned. */
  ghost predicate Complete(st: State) {
    forall t :: 0 <= t < |st.threads| ==> st.threads[t].phase == Outside && st.threads[t].next >= |st.threads[t].calls|
  }

  /** When all calls have returned and no print has failed, exactly the strings of the calls have been printed. */
  lemma {:induction false} AllReported(calls: seq<seq<CString>>, choices: seq<Choice>, s: CString)
    requires var st := Run(Initial(calls), choices);
             !st.lost && !st.failed && Complete(st)
    ensures s in Run(Initial(calls), choices).emitted <==> exists t :: 0 <= t < |calls| && s in calls[t]
  {
    var st := Run(Initial(calls), choices);
    RunInv(calls, choices);
    RunAccounted(calls, choices);
    assert st.owner == Free;
    FirstsElements(st.acquired, s);
    if t :| 0 <= t < |calls| && s in calls[t] {
      var i :| 0 <= i < |calls[t]| && calls[t][i] == s;
      assert Started(st, t, i);
    }
  }

  // ------------------------------------------------------------------ the threads on the real table

  /** The real table and the real report hold what the state says. */
  ghost predicate Matches(tasks: TaskSet, reporter: Reporter, st: State)
    reads tasks, tasks.table, Cells(tasks.chains), reporter
  {
    && tasks.Valid() && tasks.Contents() == st.seen && tasks.capacity == st.capacity
    && reporter.failed == st.failed && reporter.emitted == st.emitted
  }

  /** The phase after a thread has used the table or the report. */
  function NextPhase(st: State, t: nat, ok: bool): Phase
    requires t < |st.threads|
  {
    Step(st, t, ok).threads[t].phase
  }

  /** What the steps in the critical section do to the shared data. */
  lemma {:induction false} StepInside(st: State, t: nat, ok: bool)
    requires t < |st.threads| && Inv(st) && !Step(st, t, ok).lost && st.threads[t].phase in {Entered, Absent, Reported}
    ensures var th, st' := st.threads[t], Step(st, t, ok);
            && th.next < |th.calls| && st'.owner == st.owner && st'.threads == st.threads[t := th.(phase := NextPhase(st, t, ok))]
    ensures var s, st' := st.threads[t].calls[st.threads[t].next], Step(st, t, ok);
            match st.threads[t].phase
            case Entered =>
              && InTable(s, st.capacity) && NextPhase(st, t, ok) == (if s in st.seen then Leaving else Absent)
              && st'.seen == st.seen && st'.capacity == st.capacity && st'.failed == st.failed && st'.emitted == st.emitted
            case Absent =>
              && NextPhase(st, t, ok) == Reported && st'.seen == st.seen && st'.capacity == st.capacity
              && st'.failed == (st.failed || !ok) && st'.emitted == if !st.failed && ok then st.emitted + [s] else st.emitted
            case Reported =>
              && NextPhase(st, t, ok) == Leaving && s !in st.seen && InTable(s, st.capacity) && st'.seen == st.seen + {s}
              && st'.capacity == GrownCapacity(st.seen + {s}, st.capacity) && st'.failed == st.failed && st'.emitted == st.emitted
              && (Grows(|st.seen + {s}|, st.capacity) ==> FitAll(st.seen + {s}, 2 * st.capacity))
            case _ => true
  {
    Inside(st, t);
  }

  /** Locking and unlocking do not touch them. */
  lemma StepOutside(st: State, t: nat, ok: bool)
    requires t < |st.threads| && st.threads[t].phase in {Outside, Leaving}
    ensures var st' := Step(st, t, ok);
            && st'.seen == st.seen && st'.capacity == st.capacity && st'.failed == st.failed && st'.emitted == st.emitted
            && st'.lost == st.lost
  {
  }

  /** A thread that has just entered, when it is about to unlock. */
  function AtUnlock(st: State, t: nat, ok: bool): (st': State)
    requires t < |st.threads|
    ensures |st'.threads| == |st.threads|
  {
    var st1 := Step(st, t, ok);
    if st1.threads[t].phase == Absent then Step(Step(st1, t, ok), t, ok) else st1
  }

  lemma {:induction false} SectionIs(st: State, t: nat, ok: bool)
    requires t < |st.threads| && Inv(st) && st.threads[t].phase == Entered && !AtUnlock(st, t, ok).lost
    ensures st.threads[t].next < |st.threads[t].calls|
    ensures var s, st' := st.threads[t].calls[st.threads[t].next], AtUnlock(st, t, ok);
            && InTable(s, st.capacity) && st'.threads[t].phase == Leaving && st'.seen == st.seen + {s}
            && (s in st.seen ==> st'.capacity == st.capacity && st'.failed == st.failed && st'.emitted == st.emitted)
            && (s !in st.seen ==>
                  && st'.capacity == GrownCapacity(st.seen + {s}, st.capacity)
                  && (Grows(|st.seen + {s}|, st.capacity) ==> FitAll(st.seen + {s}, 2 * st.capacity))
                  && st'.failed == (st.failed || !ok) && st'.emitted == if !st.failed && ok then st.emitted + [s] else st.emitted)
  {
    StepInside(st, t, ok);
    var st1 := Step(st, t, ok);
    var s := st.threads[t].calls[st.threads[t].next];
    StepInv(st, t, ok);
    if s in st.seen {
      assert st.seen + {s} == st.seen;
    } else {
      StepInside(st1, t, ok);
      StepInv(st1, t, ok);
      StepInside(Step(st1, t, ok), t, ok);
    }
  }

  /** The threads of a program and the statics they share; the lock decides who may use them. */
  class Program {
    var threads: seq<Thread>
    var owner: Owner
    const tasks: TaskSet
    const reporter: Reporter
    ghost var st: State

    ghost predicate Valid()
      reads this, tasks, tasks.table, Cells(tasks.chains), reporter
    {
      Matches(tasks, reporter, st) && threads == st.threads && owner == st.owner
    }

    constructor (calls: seq<seq<CString>>)
      ensures Valid() && st == Initial(calls)
      ensures fresh(tasks) && fresh(tasks.table) && Cells(tasks.chains) == {} && fresh(reporter)
    {
      threads := seq(|calls|, t requires 0 <= t < |calls| => Thread(Outside, calls[t], 0));
      owner := Free;
      var set0 := new TaskSet(INITIAL_CAPACITY);
      var reporter0 := new Reporter();
      tasks, reporter := set0, reporter0;
      st := Initial(calls);
    }

    /** The string of the current call of a thread. */
    ghost predicate Current(t: nat, ok: bool, s: CString, phase: Phase)
      reads this
    {
      && t < |st.threads| && Inv(st) && !Step(st, t, ok).lost && st.threads[t].phase == phase
      && st.threads[t].next < |st.threads[t].calls| && st.threads[t].calls[st.threads[t].next] == s
    }

    method Search(s: CString, ghost t: nat, ghost ok: bool) returns (next: Phase)
      requires Matches(tasks, reporter, st) && Current(t, ok, s, Entered)
      ensures next == NextPhase(st, t, ok) && Matches(tasks, reporter, Step(st, t, ok))
    {
      StepInside(st, t, ok);
      var found := tasks.Lookup(s);
      next := if found then Leaving else Absent;
    }

    method Print(s: CString, ghost t: nat, ok: bool)
      requires Matches(tasks, reporter, st) && Current(t, ok, s, Absent)
      modifies reporter
      ensures Reported == NextPhase(st, t, ok) && Matches(tasks, reporter, Step(st, t, ok))
    {
      StepInside(st, t, ok);
      reporter.ReportTask(s, ok);
    }

    method Add(s: CString, ghost t: nat, ghost ok: bool)
      requires Matches(tasks, reporter, st) && Current(t, ok, s, Reported)
      modifies tasks, tasks.table, Cells(tasks.chains)
      ensures Leaving == NextPhase(st, t, ok) && Matches(tasks, reporter, Step(st, t, ok))
      ensures tasks.table == old(tasks.table) || fresh(tasks.table)
      ensures fresh(Cells(tasks.chains) - old(Cells(tasks.chains)))
    {
      StepInside(st, t, ok);
      tasks.Store(s);
    }

    /** The part of a step that uses the table or the report. */
    method UseTable(s: CString, phase: Phase, ghost t: nat, ok: bool) returns (next: Phase)
      requires Matches(tasks, reporter, st) && Current(t, ok, s, phase) && phase in {Entered, Absent, Reported}
      modifies tasks, tasks.table, Cells(tasks.chains), reporter
      ensures next == NextPhase(st, t, ok) && Matches(tasks, reporter, Step(st, t, ok))
      ensures tasks.table == old(tasks.table) || fresh(tasks.table)
      ensures fresh(Cells(tasks.chains) - old(Cells(tasks.chains)))
    {
      if phase == Entered {
        next := Search(s, t, ok);
      } else if phase == Absent {
        Print(s, t, ok);
        next := Reported;
      } else {
        Add(s, t, ok);
        next := Leaving;
      }
    }

    /** The part of a step that only locks or unlocks. */
    method UseLock(t: nat, ghost ok: bool)
      requires threads == st.threads && owner == st.owner && t < |threads| && threads[t].phase in {Outside, Leaving} && !st.lost
      requires threads[t].next < |threads[t].calls|
      modifies this`threads, this`owner
      ensures threads == Step(st, t, ok).threads && owner == Step(st, t, ok).owner
    {
      var th := threads[t];
      if th.phase == Leaving {
        threads, owner := threads[t := th.(phase := Outside, next := th.next + 1)], Free;
      } else if owner == Free {
        threads, owner := threads[t := th.(phase := Entered)], HeldBy(t);
      }
    }

    /** The critical section in one go: `taskEncountered` on the real table is the steps up to the unlocking. */
    method CriticalSection(s: CString, ghost t: nat, ok: bool)
      requires Matches(tasks, reporter, st) && Current(t, ok, s, Entered) && !AtUnlock(st, t, ok).lost
      modifies tasks, tasks.table, Cells(tasks.chains), reporter
      ensures Matches(tasks, reporter, AtUnlock(st, t, ok)) && AtUnlock(st, t, ok).threads[t].phase == Leaving
      ensures tasks.table == old(tasks.table) || fresh(tasks.table)
      ensures fresh(Cells(tasks.chains) - old(Cells(tasks.chains)))
    {
      SectionIs(st, t, ok);
      tasks.TaskEncountered(s, reporter, ok);
    }

    /** One step of one thread: lock, search, print, store, or unlock, on the real table. */
    method StepThread(t: nat, ok: bool)
      requires Valid() && Inv(st) && t < |threads| && !Step(st, t, ok).lost
      modifies this, tasks, tasks.table, Cells(tasks.chains), reporter
      ensures Valid() && st == Step(old(st), t, ok)
      ensures tasks.table == old(tasks.table) || fresh(tasks.table)
      ensures fresh(Cells(tasks.chains) - old(Cells(tasks.chains)))
    {
      var th := threads[t];
      if th.next < |th.calls| {
        if th.phase in {Outside, Leaving} {
          StepOutside(st, t, ok);
          UseLock(t, ok);
          st := Step(st, t, ok);
        } else {
          StepSection(t, ok);
        }
      }
    }

    /** A step inside the critical section. */
    method StepSection(t: nat, ok: bool)
      requires Valid() && Inv(st) && t < |threads| && !Step(st, t, ok).lost && threads[t].phase in {Entered, Absent, Reported}
      modifies this, tasks, tasks.table, Cells(tasks.chains), reporter
      ensures Valid() && st == Step(old(st), t, ok)
      ensures tasks.table == old(tasks.table) || fresh(tasks.table)
      ensures fresh(Cells(tasks.chains) - old(Cells(tasks.chains)))
    {
      var th := threads[t];
      StepInside(st, t, ok);
      var next := UseTable(th.calls[th.next], th.phase, t, ok);
      ghost var st' := Step(st, t, ok);
      assert st'.threads == threads[t := th.(phase := next)] && st'.owner == owner;
      threads := threads[t := th.(phase := next)];
      st := st';
      assert Matches(tasks, reporter, st');
    }

    /** Any schedule, on the real table: its report is the trace of the run. */
    method Execute(calls: seq<seq<CString>>, choices: seq<Choice>)
      requires Valid() && st == Initial(calls) && !Run(st, choices).lost
      modifies this, tasks, tasks.table, Cells(tasks.chains), reporter
      ensures Valid() && st == Run(Initial(calls), choices)
      ensures reporter.emitted <= Firsts(st.acquired) && (owner == Free && !reporter.failed ==> reporter.emitted == Firsts(st.acquired))
      ensures tasks.Contents() == Elements(Stored(st))
    {
      for i := 0 to |choices|
        invariant Valid() && st == Run(Initial(calls), choices[..i])
        invariant tasks.table == old(tasks.table) || fresh(tasks.table)
        invariant fresh(Cells(tasks.chains) - old(Cells(tasks.chains)))
      {
        NotLostBefore(Initial(calls), choices, i + 1);
        RunInv(calls, choices[..i]);
        assert choices[..i + 1][..i] == choices[..i];
        if choices[i].thread < |threads| {
          StepThread(choices[i].thread, choices[i].ok);
        }
      }
      assert choices[..|choices|] == choices;
      RunInv(calls, choices);
      TraceIsFirsts(calls, choices);
    }
  }

  lemma {:induction false} NotLostBefore(st: State, choices: seq<Choice>, n: nat)
    requires n <= |choices| && !Run(st, choices).lost
    ensures !Run(st, choices[..n]).lost
    decreases |choices|
  {
    if n < |choices| {
      NotLostBefore(st, choices[..|choices| - 1], n);
      assert choices[..|choices| - 1][..n] == choices[..n];
    } else {
      assert choices[..n] == choices;
    }
  }
}
