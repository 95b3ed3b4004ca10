/**
 The protocol of the distributed verifier on real objects: every process has a `Verifier`, and the
 buffers that `Serialize` fills travel to the distinguished process.
 */
module DistRun {
  import opened Sequences
  import opened DistVerifier

  /** The object of one process holds what the state says. */
  ghost predicate Agrees(v: Verifier, q: Process)
    reads v
  {
    v.success == q.success && v.report == q.report
  }

  /** Flag and report are those of all processes together, the reports in the order `ps` after that of process 0. */
  ghost predicate Merges(share: seq<seq<Func>>, o: Oracle, ps: seq<nat>, success: bool, report: string)
    requires |share| > 0
  {
    && (forall i :: 0 <= i < |ps| ==> ps[i] < |share|) && Distinct(ps) && (forall p :: p in ps <==> 0 < p < |share|)
    && (success <==> forall p, i :: 0 <= p < |share| && 0 <= i < |share[p]| ==> o.ok(share[p][i]))
    && report == Texts(o, share[0]) + Merged(share, o, ps)
  }

  lemma {:induction false} RootMerges(share: seq<seq<Func>>, o: Oracle, run: seq<Event>, end: State)
    requires |share| > 0 && Runs(share, o, Initial(share), run, end) && Complete(share, end)
    ensures Merges(share, o, end.received, end.procs[0].success, end.procs[0].report)
  {
    FinalResult(share, o, run, end);
  }

  class Cluster {
    const share: seq<seq<Func>>
    const oracle: Oracle
    const verifiers: seq<Verifier>
    var done: seq<nat>
    var sent: set<nat>
    var buffers: map<nat, array<char>>
    ghost var st: State

    ghost predicate Valid()
      reads this, verifiers, buffers.Values
    {
      && |verifiers| == |done| == |st.procs| == |share| > 0 && Distinct(verifiers)
      && (forall p :: 0 <= p < |share| ==> Agrees(verifiers[p], st.procs[p]) && done[p] == st.procs[p].done)
      && sent == st.sent && BuffersAgree()
    }

    ghost predicate BuffersAgree()
      reads this, buffers.Values
    {
      buffers.Keys == st.inFlight.Keys && forall p :: p in buffers ==> buffers[p][..] == st.inFlight[p]
    }

    constructor (share: seq<seq<Func>>, oracle: Oracle)
      requires |share| > 0
      ensures Valid() && st == Initial(share) && this.share == share && this.oracle == oracle
      ensures fresh(set v | v in verifiers)
    {
      var vs: seq<Verifier> := [];
      while |vs| < |share|
        invariant |vs| <= |share| && Distinct(vs) && fresh(set v | v in vs)
        invariant forall p :: 0 <= p < |vs| ==> vs[p].success && vs[p].report == []
      {
        var v := new Verifier();
        vs := vs + [v];
      }
      this.share, this.oracle, verifiers := share, oracle, vs;
      done, sent, buffers := seq(|share|, p => 0), {}, map[];
      st := Initial(share);
    }

    method Analyze(p: nat)
      requires Valid() && Enabled(share, st, Event.Analyze(p))
      modifies this`done, this`st, verifiers[p]
      ensures Valid() && st == Step(share, oracle, old(st), Event.Analyze(p))
    {
      var f := share[p][done[p]];
      verifiers[p].AnalyzeSubtree(oracle.ok(f), oracle.text(f));
      done := done[p := done[p] + 1];
      st := Step(share, oracle, st, Event.Analyze(p));
    }

    method Send(p: nat)
      requires Valid() && Enabled(share, st, Event.Send(p))
      modifies this`sent, this`buffers, this`st
      ensures Valid() && st == Step(share, oracle, old(st), Event.Send(p))
    {
      var buffer := verifiers[p].Serialize();
      buffers := buffers[p := buffer];
      sent := sent + {p};
      st := Step(share, oracle, st, Event.Send(p));
    }

    method Receive(p: nat)
      requires Valid() && Enabled(share, st, Event.Receive(p)) && NUL in st.inFlight[p][1..]
      modifies this`buffers, this`st, verifiers[0]
      ensures Valid() && st == Step(share, oracle, old(st), Event.Receive(p))
    {
      var buffer := buffers[p];
      ghost var bytes := buffer[..];
      assert bytes[1..] == buffer[1..];
      verifiers[0].AddSerializedState(buffer);
      buffers := buffers - {p};
      st := Step(share, oracle, st, Event.Receive(p));
    }

    /** One event of the protocol. */
    method Perform(e: Event)
      requires Valid() && Enabled(share, st, e) && Inv(share, oracle, st)
      modifies this, verifiers
      ensures Valid() && st == Step(share, oracle, old(st), e)
    {
      match e {
        case Analyze(p) => Analyze(p);
        case Send(p) => Send(p);
        case Receive(p) =>
          InFlightEnds(share, oracle, st, p);
          Receive(p);
      }
    }

    /** Any run of the protocol, event by event. */
    method PerformAll(run: seq<Event>, ghost end: State)
      requires Valid() && Inv(share, oracle, st) && Runs(share, oracle, st, run, end)
      modifies this, verifiers
      ensures Valid() && st == end
    {
      var i := 0;
      assert run[0..] == run;
      while i < |run|
        invariant i <= |run| && Valid() && Inv(share, oracle, st) && Runs(share, oracle, st, run[i..], end)
      {
        OneEvent(share, oracle, st, run, i, end);
        Perform(run[i]);
        i := i + 1;
      }
    }

    /** A run from the start that comes to its end: what the distinguished object then holds. */
    method Execute(run: seq<Event>, ghost end: State)
      requires Valid() && st == Initial(share) && Runs(share, oracle, st, run, end)
      modifies this, verifiers
      ensures Valid() && st == end
      ensures Complete(share, end) ==> Merges(share, oracle, end.received, verifiers[0].success, verifiers[0].report)
    {
      InitialInv(share, oracle);
      if Complete(share, end) {
        RootMerges(share, oracle, run, end);
      }
      PerformAll(run, end);
      assert Agrees(verifiers[0], st.procs[0]);
    }
  }

  /** A buffer is long enough and ends in a NUL. */
  lemma {:induction false} EncodedEnds(success: bool, report: string)
    ensures |Encode(success, report)| >= 2 && NUL in Encode(success, report)[1..]
  {
    var b := Encode(success, report);
    assert b[1..][|report|] == NUL;
  }

  lemma {:induction false} InFlightEnds(share: seq<seq<Func>>, o: Oracle, st: State, p: nat)
    requires Inv(share, o, st) && p < |share| && p in st.inFlight
    ensures |st.inFlight[p]| >= 2 && NUL in st.inFlight[p][1..]
  {
    EncodedEnds(AllOk(o, share[p]), Texts(o, share[p]));
  }

  lemma {:induction false} OneEvent(share: seq<seq<Func>>, o: Oracle, st: State, run: seq<Event>, i: nat, end: State)
    requires i < |run| && Inv(share, o, st) && Runs(share, o, st, run[i..], end)
    ensures Enabled(share, st, run[i]) && Inv(share, o, Step(share, o, st, run[i])) && Runs(share, o, Step(share, o, st, run[i]), run[i + 1..], end)
  {
    assert run[i..][0] == run[i] && run[i..][1..] == run[i + 1..];
    var next := Step(share, o, st, run[i]);
    assert Runs(share, o, st, [run[i]], next) by {
      assert [run[i]][1..] == [];
      assert Runs(share, o, next, [], next);
    }
    RunsInv(share, o, st, [run[i]], next);
  }
}
