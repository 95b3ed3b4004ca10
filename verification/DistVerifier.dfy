/**
 The distributed program verifier: every process analyses its share of the functions, packs its
 verdict and report into a byte buffer, and one distinguished process merges the buffers it receives.
 */
module DistVerifier {

  const NUL := '\0'
  const TRUE_BYTE := '\U{0001}'

  /** A C string in memory ends at the first NUL. */
  function UpToNul(s: string): string {
    if s == [] || s[0] == NUL then [] else [s[0]] + UpToNul(s[1..])
  }

  lemma {:induction false} UpToNulMeans(s: string)
    ensures UpToNul(s) <= s && NUL !in UpToNul(s)
    ensures NUL in s ==> |UpToNul(s)| < |s| && s[|UpToNul(s)|] == NUL
    ensures NUL !in s <==> UpToNul(s) == s
  {
    if s != [] && s[0] != NUL {
      UpToNulMeans(s[1..]);
      assert s == [s[0]] + s[1..];
    }
  }

  /** The serialized state: one byte for the flag, the report, a terminating NUL. */
  function Encode(success: bool, report: string): string {
    [if success then TRUE_BYTE else NUL] + report + [NUL]
  }

  /** The layout, byte by byte. */
  lemma EncodeLayout(success: bool, report: string)
    ensures var buffer := Encode(success, report);
            && |buffer| == 1 + |report| + 1 && (buffer[0] == '\0' <==> !success) && buffer[1..|report| + 1] == report
            && buffer[|report| + 1] == '\0'
  {
  }

  /** What a receiver reads back. */
  function DecodeSuccess(buffer: string): bool
    requires |buffer| >= 2
  {
    buffer[0] != NUL
  }

  function DecodeReport(buffer: string): string
    requires |buffer| >= 2
  {
    UpToNul(buffer[1..])
  }

  lemma {:induction false} UpToNulStops(s: string, rest: string)
    ensures UpToNul(s + [NUL] + rest) == UpToNul(s)
  {
    if s == [] || s[0] == NUL {
    } else {
      UpToNulStops(s[1..], rest);
      assert (s + [NUL] + rest)[1..] == s[1..] + [NUL] + rest;
    }
  }

  /** The flag always survives the trip; the report survives exactly if it holds no NUL. */
  lemma {:induction false} RoundTrip(success: bool, report: string)
    ensures DecodeSuccess(Encode(success, report)) == success
    ensures DecodeReport(Encode(success, report)) == UpToNul(report)
    ensures DecodeReport(Encode(success, report)) == report <==> NUL !in report
  {
    assert Encode(success, report)[1..] == report + [NUL] + [];
    UpToNulStops(report, []);
    UpToNulMeans(report);
  }

  // ------------------------------------------------------------------ the class

  class Verifier {
    var success: bool
    var report: string

    constructor ()
      ensures success && report == []
    {
      success, report := true, [];
    }

    /** `analyzeSubtree`; `ok` and `text` are what the sequential verifier returns for the function. */
    method AnalyzeSubtree(ok: bool, text: string)
      modifies this
      ensures success == (old(success) && ok) && report == old(report) + text
    {
      if !ok {
        success := false;
      }
      report := report + text;
    }

    /** `serialize`. */
    method Serialize() returns (buffer: array<char>)
      ensures fresh(buffer) && buffer[..] == Encode(success, report)
    {
      var size := 1 + |report| + 1;
      buffer := new char[size];
      buffer[0] := if success then TRUE_BYTE else NUL;
      for i := 0 to |report|
        invariant buffer[..i + 1] == [if success then TRUE_BYTE else NUL] + report[..i]
      {
        buffer[1 + i] := report[i];
      }
      buffer[1 + |report|] := NUL;
      assert buffer[..] == buffer[..|report| + 1] + [NUL];
    }

    /** `addSerializedState`; appending a C string stops at its first NUL. */
    method AddSerializedState(buffer: array<char>)
      requires buffer.Length >= 2 && NUL in buffer[1..]
      modifies this
      ensures success == (old(success) && DecodeSuccess(buffer[..]))
      ensures report == old(report) + DecodeReport(buffer[..])
    {
      var otherSuccess := buffer[0] != NUL;
      if !otherSuccess {
        success := false;
      }
      var otherReport := ReadCString(buffer, 1);
      assert buffer[..][1..] == buffer[1..];
      report := report + otherReport;
    }
  }

  /** The bytes from `start` up to the first NUL. */
  method ReadCString(buffer: array<char>, start: nat) returns (s: string)
    requires start < buffer.Length && NUL in buffer[start..]
    ensures s == UpToNul(buffer[start..])
  {
    s := [];
    var i := start;
    ghost var t := buffer[..];
    ghost var end :| start <= end < |t| && t[end] == NUL;
    while buffer[i] != NUL
      invariant start <= i <= end
      invariant s + UpToNul(t[i..]) == UpToNul(t[start..])
      decreases end - i
    {
      UpToNulStep(t, i);
      assert s + ([t[i]] + UpToNul(t[i + 1..])) == (s + [t[i]]) + UpToNul(t[i + 1..]);
      s := s + [buffer[i]];
      i := i + 1;
    }
    assert buffer[start..] == t[start..] && UpToNul(t[i..]) == [];
  }

  lemma {:induction false} UpToNulStep(t: string, i: nat)
    requires i < |t| && t[i] != NUL
    ensures UpToNul(t[i..]) == [t[i]] + UpToNul(t[i + 1..])
  {
    assert t[i..][1..] == t[i + 1..];
  }

  // ------------------------------------------------------------------ the protocol

  type Func = nat

  /** What the sequential verifier says of each function. */
  datatype Oracle = Oracle(ok: Func -> bool, text: Func -> string)

  datatype Process = Process(done: nat, success: bool, report: string)

  /** Process 0 is the distinguished one; `inFlight` are the buffers on their way to it. */
  datatype State = State(procs: seq<Process>, sent: set<nat>, inFlight: map<nat, string>, received: seq<nat>)

  datatype Event = Analyze(p: nat) | Send(p: nat) | Receive(p: nat)

  function Initial(share: seq<seq<Func>>): State {
    State(seq(|share|, p => Process(0, true, [])), {}, map[], [])
  }

  predicate Finished(share: seq<seq<Func>>, st: State, p: nat)
    requires |st.procs| == |share| && p < |share|
  {
    st.procs[p].done >= |share[p]|
  }

  predicate Enabled(share: seq<seq<Func>>, st: State, e: Event) {
    && |st.procs| == |share| && e.p < |share|
    && match e
       case Analyze(p) => !Finished(share, st, p)
       case Send(p) => p != 0 && Finished(share, st, p) && p !in st.sent
       case Receive(p) => Finished(share, st, 0) && p in st.inFlight && |st.inFlight[p]| >= 2
  }

  function Step(share: seq<seq<Func>>, o: Oracle, st: State, e: Event): State
    requires Enabled(share, st, e)
  {
    match e
    case Analyze(p) =>
      var q, f := st.procs[p], share[p][st.procs[p].done];
      st.(procs := st.procs[p := Process(q.done + 1, q.success && o.ok(f), q.report + o.text(f))])
    case Send(p) =>
      st.(sent := st.sent + {p}, inFlight := st.inFlight[p := Encode(st.procs[p].success, st.procs[p].report)])
    case Receive(p) =>
      var q, b := st.procs[0], st.inFlight[p];
      st.(procs := st.procs[0 := q.(success := q.success && DecodeSuccess(b), report := q.report + DecodeReport(b))],
          inFlight := st.inFlight - {p}, received := st.received + [p])
  }

  ghost predicate Runs(share: seq<seq<Func>>, o: Oracle, st: State, run: seq<Event>, st': State)
    decreases |run|
  {
    if run == [] then st == st'
    else Enabled(share, st, run[0]) && Runs(share, o, Step(share, o, st, run[0]), run[1..], st')
  }

  /** The sequential result for a list of functions. */
  function AllOk(o: Oracle, fs: seq<Func>): bool {
    if fs == [] then true else AllOk(o, fs[..|fs| - 1]) && o.ok(fs[|fs| - 1])
  }

  function Texts(o: Oracle, fs: seq<Func>): string {
    if fs == [] then [] else Texts(o, fs[..|fs| - 1]) + o.text(fs[|fs| - 1])
  }

  /** The reports of the given processes, each cut at its first NUL. */
  function Merged(share: seq<seq<Func>>, o: Oracle, ps: seq<nat>): string
    requires forall i :: 0 <= i < |ps| ==> ps[i] < |share|
  {
    if ps == [] then []
    else Merged(share, o, ps[..|ps| - 1]) + UpToNul(Texts(o, share[ps[|ps| - 1]]))
  }

  function AllSharesOk(share: seq<seq<Func>>, o: Oracle, ps: seq<nat>): bool
    requires forall i :: 0 <= i < |ps| ==> ps[i] < |share|
  {
    if ps == [] then true else AllSharesOk(share, o, ps[..|ps| - 1]) && AllOk(o, share[ps[|ps| - 1]])
  }

  /** Every other process holds the results of the functions it has analysed. */
  ghost predicate Workers(share: seq<seq<Func>>, o: Oracle, st: State) {
    && |st.procs| == |share| > 0
    && (forall p :: 0 <= p < |share| ==> st.procs[p].done <= |share[p]|)
    && (forall p :: 0 < p < |share| ==>
          var fs := share[p][..st.procs[p].done];
          st.procs[p].success == AllOk(o, fs) && st.procs[p].report == Texts(o, fs))
  }

  /** A buffer is sent once, complete, and is either on its way or received, once. */
  ghost predicate Network(share: seq<seq<Func>>, o: Oracle, st: State)
    requires |st.procs| == |share| > 0
  {
    && (forall p :: p in st.sent ==> 0 < p < |share| && Finished(share, st, p))
    && (forall p :: p in st.inFlight ==>
          p in st.sent && p !in st.received && st.inFlight[p] == Encode(AllOk(o, share[p]), Texts(o, share[p])))
    && (forall i :: 0 <= i < |st.received| ==> st.received[i] in st.sent)
    && (forall i, j :: 0 <= i < j < |st.received| ==> st.received[i] != st.received[j])
    && (forall p :: p in st.sent ==> p in st.inFlight || p in st.received)
    && (!Finished(share, st, 0) ==> st.received == [])
  }

  ghost predicate Inv(share: seq<seq<Func>>, o: Oracle, st: State) {
    Workers(share, o, st) && Network(share, o, st) && RootIs(share, o, st)
  }

  /** The distinguished process holds its own results followed by what it has received, in arrival order. */
  ghost predicate RootIs(share: seq<seq<Func>>, o: Oracle, st: State)
    requires |st.procs| == |share| > 0 && st.procs[0].done <= |share[0]|
  {
    && (forall i :: 0 <= i < |st.received| ==> st.received[i] < |share|)
    && var fs := share[0][..st.procs[0].done];
    && st.procs[0].success == (AllOk(o, fs) && AllSharesOk(share, o, st.received))
    && st.procs[0].report == Texts(o, fs) + Merged(share, o, st.received)
  }

  /** One more function. */
  lemma {:induction false} OneMore(o: Oracle, fs: seq<Func>, d: nat)
    requires d < |fs|
    ensures AllOk(o, fs[..d + 1]) == (AllOk(o, fs[..d]) && o.ok(fs[d]))
    ensures Texts(o, fs[..d + 1]) == Texts(o, fs[..d]) + o.text(fs[d])
  {
    assert fs[..d + 1][..d] == fs[..d];
  }

  lemma {:induction false} AnalyzeRoot(share: seq<seq<Func>>, o: Oracle, st: State, p: nat)
    requires Workers(share, o, st) && Network(share, o, st) && RootIs(share, o, st) && Enabled(share, st, Analyze(p))
    ensures RootIs(share, o, Step(share, o, st, Analyze(p)))
  {
    if p == 0 {
      assert st.received == [];
      OneMore(o, share[0], st.procs[0].done);
    }
  }

  lemma {:induction false} AnalyzeWorkers(share: seq<seq<Func>>, o: Oracle, st: State, p: nat)
    requires Workers(share, o, st) && Enabled(share, st, Analyze(p))
    ensures Workers(share, o, Step(share, o, st, Analyze(p)))
  {
    OneMore(o, share[p], st.procs[p].done);
  }

  lemma {:induction false} AnalyzeNetwork(share: seq<seq<Func>>, o: Oracle, st: State, p: nat)
    requires Workers(share, o, st) && Network(share, o, st) && Enabled(share, st, Analyze(p))
    ensures Network(share, o, Step(share, o, st, Analyze(p)))
  {
    assert p !in st.sent;
  }

  lemma {:induction false} AnalyzeInv(share: seq<seq<Func>>, o: Oracle, st: State, p: nat)
    requires Inv(share, o, st) && Enabled(share, st, Analyze(p))
    ensures Inv(share, o, Step(share, o, st, Analyze(p)))
  {
    AnalyzeWorkers(share, o, st, p);
    AnalyzeNetwork(share, o, st, p);
    AnalyzeRoot(share, o, st, p);
  }

  lemma {:induction false} SendNetwork(share: seq<seq<Func>>, o: Oracle, st: State, p: nat)
    requires |st.procs| == |share| > 0 && Network(share, o, st) && Enabled(share, st, Send(p))
    requires st.procs[p].success == AllOk(o, share[p]) && st.procs[p].report == Texts(o, share[p])
    ensures Network(share, o, Step(share, o, st, Send(p)))
  {
    assert p !in st.received;
  }

  lemma {:induction false} SendInv(share: seq<seq<Func>>, o: Oracle, st: State, p: nat)
    requires Inv(share, o, st) && Enabled(share, st, Send(p))
    ensures Inv(share, o, Step(share, o, st, Send(p)))
  {
    assert share[p][..st.procs[p].done] == share[p];
    SendNetwork(share, o, st, p);
  }

  lemma {:induction false} MergeOne(share: seq<seq<Func>>, o: Oracle, ps: seq<nat>, p: nat)
    requires p < |share| && forall i :: 0 <= i < |ps| ==> ps[i] < |share|
    ensures Merged(share, o, ps + [p]) == Merged(share, o, ps) + UpToNul(Texts(o, share[p]))
    ensures AllSharesOk(share, o, ps + [p]) == (AllSharesOk(share, o, ps) && AllOk(o, share[p]))
  {
    var qs := ps + [p];
    assert qs[..|qs| - 1] == ps;
  }

  lemma {:induction false} ReceiveRoot(share: seq<seq<Func>>, o: Oracle, st: State, p: nat)
    requires |st.procs| == |share| > 0 && st.procs[0].done <= |share[0]| && RootIs(share, o, st)
    requires Enabled(share, st, Receive(p)) && st.inFlight[p] == Encode(AllOk(o, share[p]), Texts(o, share[p]))
    ensures RootIs(share, o, Step(share, o, st, Receive(p)))
  {
    var own, st' := Texts(o, share[0][..st.procs[0].done]), Step(share, o, st, Receive(p));
    RoundTrip(AllOk(o, share[p]), Texts(o, share[p]));
    MergeOne(share, o, st.received, p);
    var merged, more := Merged(share, o, st.received), UpToNul(Texts(o, share[p]));
    assert st'.procs[0].report == own + merged + more;
    assert own + merged + more == own + (merged + more);
  }

  lemma {:induction false} ReceiveNetwork(share: seq<seq<Func>>, o: Oracle, st: State, p: nat)
    requires |st.procs| == |share| > 0 && Network(share, o, st) && Enabled(share, st, Receive(p))
    ensures Network(share, o, Step(share, o, st, Receive(p)))
  {
    var st' := Step(share, o, st, Receive(p));
    forall q | q in st.sent ensures q in st'.inFlight || q in st'.received {
      assert q in st.inFlight || q in st.received;
      assert st'.received[|st.received|] == p;
    }
    forall q | q in st'.inFlight ensures q !in st'.received {
      assert q in st.inFlight && q != p;
    }
  }

  lemma ReceiveWorkers(share: seq<seq<Func>>, o: Oracle, st: State, p: nat)
    requires Workers(share, o, st) && Enabled(share, st, Receive(p))
    ensures Workers(share, o, Step(share, o, st, Receive(p)))
  {
  }

  lemma {:induction false} ReceiveInv(share: seq<seq<Func>>, o: Oracle, st: State, p: nat)
    requires Inv(share, o, st) && Enabled(share, st, Receive(p))
    ensures Inv(share, o, Step(share, o, st, Receive(p)))
  {
    ReceiveRoot(share, o, st, p);
    ReceiveNetwork(share, o, st, p);
    ReceiveWorkers(share, o, st, p);
  }

  lemma {:induction false} RunsInv(share: seq<seq<Func>>, o: Oracle, st: State, run: seq<Event>, st': State)
    requires Inv(share, o, st) && Runs(share, o, st, run, st')
    ensures Inv(share, o, st')
    decreases |run|
  {
    if run != [] {
      match run[0] {
        case Analyze(p) => AnalyzeInv(share, o, st, p);
        case Send(p) => SendInv(share, o, st, p);
        case Receive(p) => ReceiveInv(share, o, st, p);
      }
      RunsInv(share, o, Step(share, o, st, run[0]), run[1..], st');
    }
  }

  lemma {:induction false} AllOkMeans(o: Oracle, fs: seq<Func>)
    ensures AllOk(o, fs) <==> forall i :: 0 <= i < |fs| ==> o.ok(fs[i])
  {
    if fs != [] {
      AllOkMeans(o, fs[..|fs| - 1]);
    }
  }

  lemma {:induction false} AllSharesOkMeans(share: seq<seq<Func>>, o: Oracle, ps: seq<nat>)
    requires forall i :: 0 <= i < |ps| ==> ps[i] < |share|
    ensures AllSharesOk(share, o, ps) <==> forall i :: 0 <= i < |ps| ==> AllOk(o, share[ps[i]])
  {
    if ps != [] {
      AllSharesOkMeans(share, o, ps[..|ps| - 1]);
    }
  }

  /** Everything has been analysed, sent and received. */
  ghost predicate Complete(share: seq<seq<Func>>, st: State) {
    && |st.procs| == |share| && (forall p :: 0 <= p < |share| ==> Finished(share, st, p))
    && (forall p :: 0 < p < |share| ==> p in st.sent) && st.inFlight == map[]
  }

  /**
   For every distribution of the functions and every order of arrival: the final flag is the conjunction
   of all verdicts, every other process is merged exactly once, and the final report is the
   distinguished process's own followed by theirs in arrival order.
   */
  lemma {:induction false} FinalResult(share: seq<seq<Func>>, o: Oracle, run: seq<Event>, st: State)
    requires |share| > 0 && Runs(share, o, Initial(share), run, st) && Complete(share, st)
    ensures forall i :: 0 <= i < |st.received| ==> 0 < st.received[i] < |share|
    ensures forall i, j :: 0 <= i < j < |st.received| ==> st.received[i] != st.received[j]
    ensures forall p :: p in st.received <==> 0 < p < |share|
    ensures st.procs[0].success <==> forall p, i :: 0 <= p < |share| && 0 <= i < |share[p]| ==> o.ok(share[p][i])
    ensures st.procs[0].report == Texts(o, share[0]) + Merged(share, o, st.received)
  {
    InitialInv(share, o);
    RunsInv(share, o, Initial(share), run, st);
    assert share[0][..st.procs[0].done] == share[0];
    VerdictMeans(share, o, st.received);
  }

  lemma {:induction false} VerdictMeans(share: seq<seq<Func>>, o: Oracle, ps: seq<nat>)
    requires |share| > 0
    requires forall i :: 0 <= i < |ps| ==> 0 < ps[i] < |share|
    requires forall p :: 0 < p < |share| ==> p in ps
    ensures AllOk(o, share[0]) && AllSharesOk(share, o, ps)
       <==> forall p, i :: 0 <= p < |share| && 0 <= i < |share[p]| ==> o.ok(share[p][i])
  {
    AllSharesOkMeans(share, o, ps);
    forall p | 0 <= p < |share| ensures AllOk(o, share[p]) <==> forall i :: 0 <= i < |share[p]| ==> o.ok(share[p][i]) {
      AllOkMeans(o, share[p]);
    }
    if AllOk(o, share[0]) && AllSharesOk(share, o, ps) {
      forall p | 0 <= p < |share| ensures AllOk(o, share[p]) {
        assert p == 0 || p in ps;
      }
    }
    if forall p, i :: 0 <= p < |share| && 0 <= i < |share[p]| ==> o.ok(share[p][i]) {
      forall p | 0 <= p < |share| ensures AllOk(o, share[p]) {
      }
    }
  }

  lemma InitialInv(share: seq<seq<Func>>, o: Oracle)
    requires |share| > 0
    ensures Inv(share, o, Initial(share))
  {
  }

  /** Concatenation of the uncut reports. */
  function Concatenated(share: seq<seq<Func>>, o: Oracle, ps: seq<nat>): string
    requires forall i :: 0 <= i < |ps| ==> ps[i] < |share|
  {
    if ps == [] then [] else Concatenated(share, o, ps[..|ps| - 1]) + Texts(o, share[ps[|ps| - 1]])
  }

  /** Nothing is lost from the reports exactly if none of the merged ones holds a NUL. */
  lemma {:induction false} NothingLost(share: seq<seq<Func>>, o: Oracle, ps: seq<nat>)
    requires forall i :: 0 <= i < |ps| ==> ps[i] < |share|
    ensures |Merged(share, o, ps)| <= |Concatenated(share, o, ps)|
    ensures Merged(share, o, ps) == Concatenated(share, o, ps)
       <==> forall i :: 0 <= i < |ps| ==> NUL !in Texts(o, share[ps[i]])
  {
    if ps != [] {
      var qs, t := ps[..|ps| - 1], Texts(o, share[ps[|ps| - 1]]);
      NothingLost(share, o, qs);
      UpToNulMeans(t);
      var m, c := Merged(share, o, qs), Concatenated(share, o, qs);
      if m + UpToNul(t) == c + t {
        assert |m| == |c| && |UpToNul(t)| == |t|;
        assert m == (m + UpToNul(t))[..|m|] == (c + t)[..|c|] == c;
      }
    }
  }
}
