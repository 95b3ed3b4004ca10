/**
 Which calls keep every run of the coverage runtime within its table.

 The size of the table depends only on how many different strings it holds, and a string that has a bucket in
 a table has one in all smaller ones. So the table that the last string finds decides.
 */
module CoverageBounds {
  import opened Sequences
  import opened Coverage
  import opened CoverageThreads

  /** The capacity of a table that holds `n` strings. */
  function CapacityAfter(n: nat): int {
    if n == 0 then INITIAL_CAPACITY
    else if Grows(n, CapacityAfter(n - 1)) then 2 * CapacityAfter(n - 1) else CapacityAfter(n - 1)
  }

  ghost function AllStrings(calls: seq<seq<CString>>): set<CString> {
    set t, i | 0 <= t < |calls| && 0 <= i < |calls[t]| :: calls[t][i]
  }

  /** Every string of the calls has a bucket in the table that can hold them all. */
  ghost predicate Fits(calls: seq<seq<CString>>) {
    FitAll(AllStrings(calls), CapacityAfter(|AllStrings(calls)|))
  }

  // ------------------------------------------------------------------ smaller tables

  /** A string that has a bucket in a table has one in a table of half the size. */
  lemma {:induction false} FitsHalf(s: CString, capacity: int)
    requires capacity > 0 && InTable(s, 2 * capacity)
    ensures InTable(s, capacity)
  {
    var x := HashCode(s);
    BucketInRange(s, 2 * capacity);
    BucketInRange(s, capacity);
    if x < 0 {
      var q := x / (2 * capacity);
      assert x == capacity * (2 * q) by {
        assert x == (2 * capacity) * q;
      }
      Multiple(2 * q, capacity);
    }
  }

  lemma {:induction false} FitsSmaller(s: CString, m: nat, n: nat)
    requires m <= n && InTable(s, CapacityAfter(n))
    ensures CapacityAfter(m) > 0 && InTable(s, CapacityAfter(m))
  {
    if m < n {
      PositiveCapacity(n - 1);
      if CapacityAfter(n) != CapacityAfter(n - 1) {
        FitsHalf(s, CapacityAfter(n - 1));
      }
      FitsSmaller(s, m, n - 1);
    } else {
      PositiveCapacity(n);
    }
  }

  lemma {:induction false} PositiveCapacity(n: nat)
    ensures CapacityAfter(n) > 0
  {
    if n > 0 {
      PositiveCapacity(n - 1);
    }
  }

  // ------------------------------------------------------------------ what every run keeps

  /** The capacity goes with the number of strings, and all of them have a bucket in the table. */
  ghost predicate Sized(st: State) {
    st.capacity == CapacityAfter(|st.seen|) && FitAll(st.seen, st.capacity)
  }

  lemma {:induction false} GrownIs(st: State, s: CString)
    requires Sized(st) && s !in st.seen
    ensures GrownCapacity(st.seen + {s}, st.capacity) == CapacityAfter(|st.seen + {s}|)
  {
    assert |st.seen + {s}| == |st.seen| + 1;
  }

  lemma {:induction false} StepSized(st: State, t: nat, ok: bool)
    requires t < |st.threads| && Inv(st) && Sized(st)
    ensures Sized(Step(st, t, ok))
  {
    if st.threads[t].phase == Reported && !Step(st, t, ok).lost && st.threads[t].next < |st.threads[t].calls| {
      StepInside(st, t, ok);
      GrownIs(st, st.threads[t].calls[st.threads[t].next]);
    }
  }

  lemma {:induction false} RunSized(calls: seq<seq<CString>>, choices: seq<Choice>)
    ensures Sized(Run(Initial(calls), choices))
    decreases |choices|
  {
    if choices != [] {
      var init := choices[..|choices| - 1];
      RunSized(calls, init);
      RunInv(calls, init);
      var before, c := Run(Initial(calls), init), choices[|choices| - 1];
      if c.thread < |before.threads| {
        StepSized(before, c.thread, c.ok);
      }
    }
  }

  /** Only strings of the calls get into the table. */
  lemma {:induction false} SeenAreCalled(calls: seq<seq<CString>>, st: State)
    requires Accounted(st, calls) && Inv(st)
    ensures st.seen <= AllStrings(calls)
  {
    forall s | s in st.seen ensures s in AllStrings(calls) {
      assert s in st.acquired;
      var t, i :| Started(st, t, i) && st.threads[t].calls[i] == s;
      assert calls[t][i] == s;
    }
  }

  lemma {:induction false} SubsetSize<T>(a: set<T>, b: set<T>)
    requires a <= b
    ensures |a| <= |b|
  {
    assert b == a + (b - a);
  }

  /** The strings of a subset fit the table for that many. */
  lemma {:induction false} SubsetFits(calls: seq<seq<CString>>, strings: set<CString>, n: nat)
    requires Fits(calls) && strings <= AllStrings(calls) && n <= |AllStrings(calls)|
    ensures FitAll(strings, CapacityAfter(n))
  {
    forall s | s in strings ensures InTable(s, CapacityAfter(n)) {
      FitsSmaller(s, n, |AllStrings(calls)|);
    }
  }

  // ------------------------------------------------------------------ enough

  /** A step leaves the table in a search or on a resize. */
  lemma LeavesTable(st: State, t: nat, ok: bool)
    requires t < |st.threads| && !st.lost && Step(st, t, ok).lost
    ensures st.threads[t].next < |st.threads[t].calls|
    ensures var s := st.threads[t].calls[st.threads[t].next];
            || (st.threads[t].phase == Entered && !InTable(s, st.capacity))
            || (st.threads[t].phase == Reported && !FitAll(st.seen + {s}, GrownCapacity(st.seen + {s}, st.capacity)))
  {
  }

  /** The string that a thread looks up has a bucket, ... */
  lemma {:induction false} SearchFits(calls: seq<seq<CString>>, st: State, s: CString)
    requires Fits(calls) && Accounted(st, calls) && Inv(st) && Sized(st) && s in AllStrings(calls)
    ensures InTable(s, st.capacity)
  {
    SeenAreCalled(calls, st);
    SubsetSize(st.seen, AllStrings(calls));
    SubsetFits(calls, {s}, |st.seen|);
  }

  /** ... and so have all strings when one more is in the set. */
  lemma {:induction false} AdditionFits(calls: seq<seq<CString>>, st: State, s: CString)
    requires Fits(calls) && Accounted(st, calls) && Inv(st) && Sized(st) && s in AllStrings(calls) && s !in st.seen
    ensures FitAll(st.seen + {s}, GrownCapacity(st.seen + {s}, st.capacity))
  {
    SeenAreCalled(calls, st);
    var more := st.seen + {s};
    SubsetSize(more, AllStrings(calls));
    SubsetFits(calls, more, |more|);
    GrownIs(st, s);
  }

  lemma {:induction false} StepStays(calls: seq<seq<CString>>, st: State, t: nat, ok: bool)
    requires Fits(calls) && Accounted(st, calls) && Inv(st) && Sized(st) && t < |st.threads| && !st.lost
    ensures !Step(st, t, ok).lost
  {
    if Step(st, t, ok).lost {
      LeavesTable(st, t, ok);
      var s := st.threads[t].calls[st.threads[t].next];
      assert calls[t][st.threads[t].next] == s;
      Inside(st, t);
      if st.threads[t].phase == Entered {
        SearchFits(calls, st, s);
      } else {
        AdditionFits(calls, st, s);
      }
    }
  }

  /** If all strings fit, no run ever leaves the table. */
  lemma {:induction false} FitsNeverLost(calls: seq<seq<CString>>, choices: seq<Choice>)
    requires Fits(calls)
    ensures !Run(Initial(calls), choices).lost
    decreases |choices|
  {
    if choices != [] {
      var init := choices[..|choices| - 1];
      FitsNeverLost(calls, init);
      RunInv(calls, init);
      RunSized(calls, init);
      RunAccounted(calls, init);
      var before, c := Run(Initial(calls), init), choices[|choices| - 1];
      if c.thread < |before.threads| {
        StepStays(calls, before, c.thread, c.ok);
      }
    }
  }

  // ------------------------------------------------------------------ and needed

  /** A run that comes to its end within the table shows that all strings fit. */
  lemma {:induction false} CompleteFits(calls: seq<seq<CString>>, choices: seq<Choice>)
    requires Complete(Run(Initial(calls), choices)) && !Run(Initial(calls), choices).lost
    ensures Fits(calls)
  {
    var st := Run(Initial(calls), choices);
    RunInv(calls, choices);
    RunSized(calls, choices);
    RunAccounted(calls, choices);
    SeenAreCalled(calls, st);
    assert Stage(st) == Outside;
    forall s | s in AllStrings(calls) ensures s in st.seen {
      var t, i :| 0 <= t < |calls| && 0 <= i < |calls[t]| && calls[t][i] == s;
      assert Started(st, t, i);
    }
    assert st.seen == AllStrings(calls);
  }

  function PhaseNumber(p: Phase): nat {
    match p
    case Outside => 0
    case Entered => 1
    case Absent => 2
    case Reported => 3
    case Leaving => 4
  }

  /** A bound for the steps that a thread has still to take. */
  function StepsLeft(th: Thread): int {
    if th.next >= |th.calls| then 0 else 5 * (|th.calls| - th.next) - PhaseNumber(th.phase)
  }

  function StepsLeftTo(threads: seq<Thread>, n: nat): int
    requires n <= |threads|
  {
    if n == 0 then 0 else StepsLeftTo(threads, n - 1) + StepsLeft(threads[n - 1])
  }

  lemma {:induction false} StepsLeftBounds(threads: seq<Thread>, n: nat)
    requires n <= |threads|
    ensures StepsLeftTo(threads, n) >= 0
  {
    if n > 0 {
      StepsLeftBounds(threads, n - 1);
    }
  }

  lemma {:induction false} OneFewer(threads: seq<Thread>, t: nat, th: Thread, n: nat)
    requires t < |threads| && n <= |threads| && StepsLeft(th) < StepsLeft(threads[t])
    ensures StepsLeftTo(threads[t := th], n) <= StepsLeftTo(threads, n)
    ensures t < n ==> StepsLeftTo(threads[t := th], n) < StepsLeftTo(threads, n)
  {
    if n > 0 {
      OneFewer(threads, t, th, n - 1);
    }
  }

  /** As long as not all calls have returned, some thread can take a step towards its end. */
  lemma {:induction false} SomeoneCanStep(st: State) returns (t: nat)
    requires Inv(st) && !Complete(st) && !st.lost
    ensures t < |st.threads| && st.threads[t].next < |st.threads[t].calls| && (st.owner == Free || st.owner == HeldBy(t))
    ensures st.owner == Free <==> st.threads[t].phase == Outside
  {
    if st.owner.HeldBy? {
      t := st.owner.thread;
    } else {
      t :| 0 <= t < |st.threads| && !(st.threads[t].phase == Outside && st.threads[t].next >= |st.threads[t].calls|);
    }
  }

  lemma {:induction false} StepAdvances(st: State, t: nat)
    requires Inv(st) && !st.lost && t < |st.threads| && st.threads[t].next < |st.threads[t].calls|
    requires st.owner == Free <==> st.threads[t].phase == Outside
    ensures Step(st, t, true).lost || StepsLeftTo(Step(st, t, true).threads, |st.threads|) < StepsLeftTo(st.threads, |st.threads|)
  {
    var st', th := Step(st, t, true), st.threads[t];
    if !st'.lost {
      var th' := st'.threads[t];
      assert st'.threads == st.threads[t := th'];
      OneFewer(st.threads, t, th', |st.threads|);
    }
  }

  /** Every run can be continued until all calls have returned or the table has been left. */
  lemma {:induction false} CanComplete(calls: seq<seq<CString>>, choices: seq<Choice>) returns (all: seq<Choice>)
    ensures choices <= all && (Run(Initial(calls), all).lost || Complete(Run(Initial(calls), all)))
    decreases var st := Run(Initial(calls), choices); StepsLeftTo(st.threads, |st.threads|)
  {
    var st := Run(Initial(calls), choices);
    all := choices;
    if !st.lost && !Complete(st) {
      RunInv(calls, choices);
      var t := SomeoneCanStep(st);
      StepAdvances(st, t);
      var longer := choices + [Choice(t, true)];
      assert longer[..|longer| - 1] == choices;
      StepsLeftBounds(Run(Initial(calls), longer).threads, |st.threads|);
      if Run(Initial(calls), longer).lost {
        all := longer;
      } else {
        all := CanComplete(calls, longer);
      }
    }
  }

  /** No schedule of the calls ever leaves the table exactly if all their strings fit. */
  lemma {:induction false} NeverLostExactly(calls: seq<seq<CString>>)
    ensures (forall choices {:trigger Run(Initial(calls), choices)} :: !Run(Initial(calls), choices).lost) <==> Fits(calls)
  {
    if Fits(calls) {
      forall choices ensures !Run(Initial(calls), choices).lost {
        FitsNeverLost(calls, choices);
      }
    } else {
      var all := CanComplete(calls, []);
      if !Run(Initial(calls), all).lost {
        CompleteFits(calls, all);
      }
    }
  }

  // ------------------------------------------------------------------ for example

  /** No call has a string whose code is negative. */
  ghost predicate Safe(calls: seq<seq<CString>>) {
    forall t, i :: 0 <= t < |calls| && 0 <= i < |calls[t]| ==> HashCode(calls[t][i]) >= 0
  }

  /** Strings without negative codes fit any table. */
  lemma {:induction false} SafeFits(calls: seq<seq<CString>>)
    requires Safe(calls)
    ensures Fits(calls)
  {
    var n := |AllStrings(calls)|;
    PositiveCapacity(n);
    forall s | s in AllStrings(calls) ensures InTable(s, CapacityAfter(n)) {
      BucketInRange(s, CapacityAfter(n));
    }
  }

  /** For example one call with a string of code -1 leaves the first table. */
  lemma {:induction false} LostExample()
    ensures Run(Initial([[[-1]]]), [Choice(0, true), Choice(0, true)]).lost
  {
    var calls: seq<seq<CString>> := [[[-1]]];
    var both := [Choice(0, true), Choice(0, true)];
    assert both[..1] == [Choice(0, true)] && both[..1][..0] == [];
    var st0 := Initial(calls);
    assert Run(st0, []) == st0;
    var st1 := Step(st0, 0, true);
    assert Run(st0, both[..1]) == st1;
    assert st1.threads[0] == Thread(Entered, [[-1]], 0);
    NegativeExample();
  }

  /** For calls that fit, every schedule on a new table prints the trace of the run. */
  method TraceOf(calls: seq<seq<CString>>, choices: seq<Choice>) returns (trace: seq<CString>, failed: bool)
    requires Fits(calls)
    ensures trace == Run(Initial(calls), choices).emitted && failed == Run(Initial(calls), choices).failed
  {
    FitsNeverLost(calls, choices);
    var program := new Program(calls);
    program.Execute(calls, choices);
    return program.reporter.emitted, program.reporter.failed;
  }
}
