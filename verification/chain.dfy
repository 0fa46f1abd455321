/** The hand-written chain of `main`: a sequence of (lambda, tag) steps that
    ends in the three-argument sink, followed by the completion line. Besides
    the argument-pack interpretation of `Continuation`, the chain is given a
    reference meaning as a fold over its steps, and the two are proved equal. */
module Chain {
  import opened Variants
  import opened Resolver
  import opened Continuation

  /** The number of instances `print_processors` takes. */
  const Arity: nat := 3

  /** The line `main` writes once the chain has returned. */
  const CompletionLine: string := "Program completed successfully"

  /** One resolution request of the chain: which `get_x` lambda, asked for
      which tag. */
  datatype Step = Step(getter: Fn, tag: string)

  predicate ValidSteps(steps: seq<Step>)
  {
    forall k :: 0 <= k < |steps| ==> steps[k].getter != PrintProcessors
  }

  /** The search a step performs. */
  function Resolved(s: Step): Result<Alt>
    requires s.getter != PrintProcessors
  {
    Resolve(FamilyOf(s.getter), s.tag, 0)
  }

  /** `k` is the first step whose search fails. */
  predicate FirstFailure(steps: seq<Step>, k: nat)
    requires ValidSteps(steps)
  {
    && k < |steps|
    && Resolved(steps[k]).Err?
    && forall j :: 0 <= j < k ==> Resolved(steps[j]).Ok?
  }

  function Announcements(alts: seq<Alt>): seq<string>
  {
    seq(|alts|, k requires 0 <= k < |alts| => Announcement(alts[k]))
  }

  function Instances(alts: seq<Alt>): seq<Arg>
  {
    seq(|alts|, k requires 0 <= k < |alts| => Instance(alts[k]))
  }

  /** What the sink writes for the three instances it receives: the header,
      then one tag per instance, in the order received. */
  function SinkLines(acc: seq<Alt>): (lines: seq<string>)
    requires |acc| == Arity
    ensures |lines| == Arity + 1 && lines[0] == "Processing:"
    ensures forall k :: 0 <= k < Arity ==> lines[k + 1] == Tag(acc[k])
  {
    ["Processing:", Tag(acc[0]), Tag(acc[1]), Tag(acc[2])]
  }

  /** The sink's output names exactly the instances it received, in order:
      two runs of the sink write the same lines only for the same instances. */
  lemma {:induction false} SinkLinesIdentify(acc: seq<Alt>, acc': seq<Alt>)
    requires |acc| == Arity && |acc'| == Arity
    ensures SinkLines(acc) == SinkLines(acc') <==> acc == acc'
  {
    if SinkLines(acc) == SinkLines(acc') {
      forall k | 0 <= k < Arity
        ensures acc[k] == acc'[k]
      {
        assert SinkLines(acc)[k + 1] == SinkLines(acc')[k + 1];
        TagIdentifies(acc[k], acc'[k]);
      }
    }
  }

  /** How the resolution steps end: with every step resolved, the final
      accumulator and the announcements written on the way; or with the
      exception of the first step that failed, and the announcements
      written before it. */
  datatype Folded = Reached(acc: seq<Alt>, trace: seq<string>) | Failed(trace: seq<string>, what: string)

  /** The reference meaning of the steps: resolve them in order, appending
      each resolved alternative to the accumulator and its announcement to
      the trace, and stop at the first failure. */
  function Fold(steps: seq<Step>, acc: seq<Alt>): (r: Folded)
    requires ValidSteps(steps)
    ensures r.Reached? ==> |r.acc| == |acc| + |steps| && r.acc[..|acc|] == acc
    ensures r.Failed? ==> |r.trace| < |steps| && r.what == InvalidType
    decreases |steps|
  {
    if |steps| == 0 then
      Reached(acc, [])
    else
      match Resolved(steps[0])
      case Err(m) => Failed([], m)
      case Ok(a) =>
        match Fold(steps[1..], acc + [a])
        case Reached(acc', trace) => Reached(acc', [Announcement(a)] + trace)
        case Failed(trace, m) => Failed([Announcement(a)] + trace, m)
  }

  lemma StepsTail(steps: seq<Step>)
    requires |steps| > 0
    ensures forall k :: 0 <= k < |steps| - 1 ==> steps[1..][k] == steps[k + 1]
  {
  }

  /** Every step of the chain resolves. */
  predicate AllResolve(steps: seq<Step>)
    requires ValidSteps(steps)
  {
    forall k :: 0 <= k < |steps| ==> Resolved(steps[k]).Ok?
  }

  /** The steps run to the sink exactly when every one of them resolves. */
  lemma {:induction false} FoldReachedIff(steps: seq<Step>, acc: seq<Alt>)
    requires ValidSteps(steps)
    ensures Fold(steps, acc).Reached? <==> AllResolve(steps)
    decreases |steps|
  {
    if |steps| > 0 {
      StepsTail(steps);
      match Resolved(steps[0])
      case Err(_) =>
      case Ok(a) =>
        FoldReachedIff(steps[1..], acc + [a]);
        if !AllResolve(steps[1..]) {
          var j :| 0 <= j < |steps| - 1 && Resolved(steps[1..][j]).Err?;
          assert Resolved(steps[j + 1]).Err?;
        }
    }
  }

  /** When the steps run to the sink, the accumulator has gained, in step
      order, the alternative each step resolved to. */
  lemma {:induction false} FoldReachedAcc(steps: seq<Step>, acc: seq<Alt>)
    requires ValidSteps(steps)
    requires Fold(steps, acc).Reached?
    ensures forall k :: 0 <= k < |steps| ==> Resolved(steps[k]) == Ok(Fold(steps, acc).acc[|acc| + k])
  {
    forall k | 0 <= k < |steps|
      ensures Resolved(steps[k]) == Ok(Fold(steps, acc).acc[|acc| + k])
    {
      FoldReachedAt(steps, acc, k);
    }
  }

  /** `FoldReachedAcc` for one step `k`. */
  lemma {:induction false} FoldReachedAt(steps: seq<Step>, acc: seq<Alt>, k: nat)
    requires ValidSteps(steps)
    requires Fold(steps, acc).Reached? && k < |steps|
    ensures Resolved(steps[k]) == Ok(Fold(steps, acc).acc[|acc| + k])
    decreases k
  {
    var a := Resolved(steps[0]).value;
    FoldCons(steps, acc, a);
    var r' := Fold(steps[1..], acc + [a]);
    assert r'.Reached? && Fold(steps, acc).acc == r'.acc;
    if k == 0 {
      assert r'.acc[|acc|] == r'.acc[..|acc| + 1][|acc|] == (acc + [a])[|acc|];
      assert Resolved(steps[k]) == Ok(r'.acc[|acc| + k]);
    } else {
      FoldReachedAt(steps[1..], acc + [a], k - 1);
      assert steps[1..][k - 1] == steps[k];
      assert r'.acc[|acc + [a]| + (k - 1)] == r'.acc[|acc| + k];
    }
  }

  /** When the steps run to the sink, the trace holds the announcements of
      the alternatives they added to the accumulator, in the same order. */
  lemma {:induction false} FoldReachedTrace(steps: seq<Step>, acc: seq<Alt>)
    requires ValidSteps(steps)
    requires Fold(steps, acc).Reached?
    ensures Fold(steps, acc).trace == Announcements(Fold(steps, acc).acc[|acc|..])
    decreases |steps|
  {
    if |steps| > 0 {
      var a := Resolved(steps[0]).value;
      var r := Fold(steps, acc);
      var r' := Fold(steps[1..], acc + [a]);
      assert r == Reached(r'.acc, [Announcement(a)] + r'.trace);
      FoldReachedTrace(steps[1..], acc + [a]);
      TraceCons(acc, a, r'.acc, r'.trace);
    }
  }

  lemma {:induction false} TraceCons(acc: seq<Alt>, a: Alt, full: seq<Alt>, trace: seq<string>)
    requires |full| > |acc| && full[..|acc| + 1] == acc + [a]
    requires trace == Announcements(full[|acc| + 1..])
    ensures [Announcement(a)] + trace == Announcements(full[|acc|..])
  {
    assert full[|acc|] == (acc + [a])[|acc|];
    assert full[|acc|..] == [a] + full[|acc| + 1..];
    AnnouncementsCons(a, full[|acc| + 1..]);
  }

  lemma {:induction false} AnnouncementsCons(a: Alt, alts: seq<Alt>)
    ensures Announcements([a] + alts) == [Announcement(a)] + Announcements(alts)
  {
    var l := Announcements([a] + alts);
    var r := [Announcement(a)] + Announcements(alts);
    assert |l| == |r|;
    forall k | 0 <= k < |l|
      ensures l[k] == r[k]
    {
      if k > 0 {
        assert ([a] + alts)[k] == alts[k - 1];
      }
    }
  }

  /** When a step fails, the trace holds the announcements of the steps
      before it, one each, and nothing for the failing step or any later one. */
  lemma {:induction false} FoldFailed(steps: seq<Step>, acc: seq<Alt>)
    requires ValidSteps(steps)
    requires Fold(steps, acc).Failed?
    ensures FirstFailure(steps, |Fold(steps, acc).trace|)
    ensures forall j :: 0 <= j < |Fold(steps, acc).trace| ==>
      Fold(steps, acc).trace[j] == Announcement(Resolved(steps[j]).value)
    decreases |steps|
  {
    match Resolved(steps[0])
    case Err(_) =>
    case Ok(a) =>
      var r' := Fold(steps[1..], acc + [a]);
      assert Fold(steps, acc).trace == [Announcement(a)] + r'.trace;
      FoldFailed(steps[1..], acc + [a]);
      FailCons(steps, a, r'.trace);
  }

  lemma {:induction false} FailCons(steps: seq<Step>, a: Alt, trace: seq<string>)
    requires ValidSteps(steps) && |steps| > 0 && Resolved(steps[0]) == Ok(a)
    requires ValidSteps(steps[1..]) && FirstFailure(steps[1..], |trace|)
    requires forall j :: 0 <= j < |trace| ==> trace[j] == Announcement(Resolved(steps[1..][j]).value)
    ensures FirstFailure(steps, |trace| + 1)
    ensures forall j :: 0 <= j < |trace| + 1 ==>
      ([Announcement(a)] + trace)[j] == Announcement(Resolved(steps[j]).value)
  {
    var t := [Announcement(a)] + trace;
    forall j | 0 <= j < |trace| + 1
      ensures Resolved(steps[j]).Ok? && t[j] == Announcement(Resolved(steps[j]).value)
    {
      if j > 0 {
        assert steps[j] == steps[1..][j - 1];
        assert t[j] == trace[j - 1];
      }
    }
    assert steps[|trace| + 1] == steps[1..][|trace|];
  }

  /** The full program on the reference meaning: the steps, then the sink,
      then the completion line; an exception ends the output early and
      leaves the program uncaught. */
  datatype Ending = Normal | Uncaught(what: string)
  datatype Run = Run(output: seq<string>, ending: Ending)

  /** What `main` does after `start_chain` returns or throws. */
  function Finish(e: Exec): Run
  {
    match e
    case Returned(ls) => Run(ls + [CompletionLine], Normal)
    case Threw(ls, w) => Run(ls, Uncaught(w))
  }

  /** The console effect of the resolution steps followed by the sink. */
  function Seal(f: Folded): Exec
    requires f.Reached? ==> |f.acc| == Arity
  {
    match f
    case Reached(acc, trace) => Returned(trace + SinkLines(acc))
    case Failed(trace, m) => Threw(trace, m)
  }

  /** The argument pack at a point of the chain: the lambdas still to run,
      each followed by its tag, then the sink, then the instances
      accumulated so far. */
  function Pack(steps: seq<Step>, acc: seq<Alt>): (p: seq<Arg>)
    ensures |p| > 0
    decreases |steps|
  {
    if |steps| == 0 then [Callable(PrintProcessors)] + Instances(acc)
    else [Callable(steps[0].getter), Text(steps[0].tag)] + Pack(steps[1..], acc)
  }

  /** Appending an instance to a pack is accumulating it. */
  lemma {:induction false} PackAppend(steps: seq<Step>, acc: seq<Alt>, a: Alt)
    ensures Pack(steps, acc) + [Instance(a)] == Pack(steps, acc + [a])
    decreases |steps|
  {
    if |steps| == 0 {
      assert Instances(acc) + [Instance(a)] == Instances(acc + [a]);
    } else {
      PackAppend(steps[1..], acc, a);
    }
  }

  /** Every pack of a chain whose steps and instances add up to the sink's
      arity is one the compiler accepts: the head callable applied to the
      rest. */
  lemma {:induction false} PackAccepted(steps: seq<Step>, acc: seq<Alt>)
    requires ValidSteps(steps)
    requires |steps| + |acc| == Arity
    ensures Pack(steps, acc)[0].Callable?
    ensures Accepts(Pack(steps, acc)[0].fn, Kinds(Pack(steps, acc)[1..]))
    decreases |steps|
  {
    var p := Pack(steps, acc);
    if |steps| == 0 {
      assert p[1..] == Instances(acc);
    } else {
      var p' := Pack(steps[1..], acc);
      assert p[1..] == [Text(steps[0].tag)] + p';
      // The compiler sees only the kinds of the arguments, and every
      // instance has `InstanceKind`, so A1 stands in for whichever
      // alternative the step will resolve to.
      PackAccepted(steps[1..], acc + [A1]);
      PackAppend(steps[1..], acc, A1);
      var q := Pack(steps[1..], acc + [A1]);
      assert q == p' + [Instance(A1)];
      assert q[0] == p'[0];
      assert q[1..] == p'[1..] + [Instance(A1)];
      KindsAppend(p'[1..], [Instance(A1)]);
      var ks := Kinds(p[1..]);
      assert ks[0] == TextKind;
      assert ks[1] == CallableKind(q[0].fn);
      assert ks[2..] == Kinds(p'[1..]);
      assert ks[2..] + [InstanceKind] == Kinds(q[1..]);
    }
  }

  /** The rest of the chain from a given point, run by the interpreter. */
  function Continue(steps: seq<Step>, acc: seq<Alt>): Exec
    requires ValidSteps(steps)
    requires |steps| + |acc| == Arity
  {
    PackAccepted(steps, acc);
    var p := Pack(steps, acc);
    Invoke(p[0].fn, p[1..])
  }

  /** The continuation chain and the fold agree: at every point of a chain,
      running the rest of the pack writes the announcements of the steps it
      resolves and then either the sink's lines, or throws at the first
      unresolvable step. */
  lemma {:induction false} ChainMatchesFold(steps: seq<Step>, acc: seq<Alt>)
    requires ValidSteps(steps)
    requires |steps| + |acc| == Arity
    ensures Continue(steps, acc) == Seal(Fold(steps, acc))
    decreases |steps|
  {
    if |steps| == 0 {
      ChainEnd(acc);
    } else {
      StepsTail(steps);
      ContinueStep(steps, acc);
      match Resolved(steps[0])
      case Err(m) =>
      case Ok(a) =>
        ChainMatchesFold(steps[1..], acc + [a]);
        SealCons(steps, acc, a);
    }
  }

  /** With no step left, the pack is the sink and its three instances. */
  lemma {:induction false} ChainEnd(acc: seq<Alt>)
    requires |acc| == Arity
    ensures Continue([], acc) == Seal(Fold([], acc))
  {
    assert Pack([], acc)[1..] == Instances(acc);
  }

  /** The console effect of a resolved step followed by the rest of the
      steps: its announcement, then whatever the rest writes. */
  lemma {:induction false} SealCons(steps: seq<Step>, acc: seq<Alt>, a: Alt)
    requires ValidSteps(steps) && |steps| > 0
    requires |steps| + |acc| == Arity
    requires Resolved(steps[0]) == Ok(a)
    ensures ValidSteps(steps[1..])
    ensures Seal(Fold(steps, acc)) == Emit(Announcement(a), Seal(Fold(steps[1..], acc + [a])))
  {
    FoldCons(steps, acc, a);
    var f := Fold(steps[1..], acc + [a]);
    if f.Reached? {
      assert Seal(f) == Returned(f.trace + SinkLines(f.acc));
      assert Seal(Fold(steps, acc)) == Returned([Announcement(a)] + f.trace + SinkLines(f.acc));
      assert [Announcement(a)] + f.trace + SinkLines(f.acc) == [Announcement(a)] + (f.trace + SinkLines(f.acc));
    } else {
      assert Seal(f) == Threw(f.trace, InvalidType);
      assert Seal(Fold(steps, acc)) == Threw([Announcement(a)] + f.trace, InvalidType);
    }
  }

  /** One resolved step of the fold: its announcement is prepended to the
      trace of the remaining steps, which start from the grown accumulator. */
  lemma {:induction false} FoldCons(steps: seq<Step>, acc: seq<Alt>, a: Alt)
    requires ValidSteps(steps) && |steps| > 0
    requires Resolved(steps[0]) == Ok(a)
    ensures ValidSteps(steps[1..])
    ensures Fold(steps[1..], acc + [a]).Reached? ==>
      Fold(steps, acc) == Reached(Fold(steps[1..], acc + [a]).acc, [Announcement(a)] + Fold(steps[1..], acc + [a]).trace)
    ensures Fold(steps[1..], acc + [a]).Failed? ==>
      Fold(steps, acc) == Failed([Announcement(a)] + Fold(steps[1..], acc + [a]).trace, InvalidType)
  {
    StepsTail(steps);
  }

  /** One step of the interpreted chain: the head lambda's search decides
      between throwing with nothing written, and writing the announcement
      and continuing with the rest of the chain and one more instance. */
  lemma {:induction false} ContinueStep(steps: seq<Step>, acc: seq<Alt>)
    requires ValidSteps(steps) && |steps| > 0
    requires |steps| + |acc| == Arity
    ensures ValidSteps(steps[1..])
    ensures Resolved(steps[0]).Err? ==> Continue(steps, acc) == Threw([], InvalidType)
    ensures Resolved(steps[0]).Ok? ==>
      Continue(steps, acc) == Emit(Announcement(Resolved(steps[0]).value), Continue(steps[1..], acc + [Resolved(steps[0]).value]))
  {
    StepsTail(steps);
    PackAccepted(steps, acc);
    var rest := Pack(steps, acc)[1..];
    var p' := Pack(steps[1..], acc);
    assert rest == [Text(steps[0].tag)] + p';
    assert rest[2..] == p'[1..];
    GetterDispatch(steps[0].getter, rest);
    if Resolved(steps[0]).Ok? {
      var a := Resolved(steps[0]).value;
      PackAppend(steps[1..], acc, a);
      assert p'[1..] + [Instance(a)] == Pack(steps[1..], acc + [a])[1..];
      assert p'[0] == Pack(steps[1..], acc + [a])[0];
    }
  }

  /** A chain of `Arity` steps started as `main` starts it: `start_chain`
      with the first lambda, its tag and the rest of the pack, then the
      completion line if the chain returns. */
  function ChainProgram(steps: seq<Step>): Run
    requires ValidSteps(steps)
    requires |steps| == Arity
  {
    PackAccepted(steps, []);
    assert Pack(steps, [])[1..] == [Text(steps[0].tag)] + Pack(steps[1..], []);
    Finish(StartChain(steps[0].getter, steps[0].tag, Pack(steps[1..], [])))
  }

  lemma {:induction false} ProgramIsFold(steps: seq<Step>)
    requires ValidSteps(steps)
    requires |steps| == Arity
    ensures ChainProgram(steps) == Finish(Seal(Fold(steps, [])))
  {
    ChainMatchesFold(steps, []);
    assert Pack(steps, [])[1..] == [Text(steps[0].tag)] + Pack(steps[1..], []);
  }

  /** When every step resolves, the program writes the announcement of each
      resolved alternative in step order, then "Processing:" and their tags
      in the same order, then the completion line, and ends normally. */
  lemma {:induction false} ProgramSucceeds(steps: seq<Step>, acc: seq<Alt>)
    requires ValidSteps(steps)
    requires |steps| == Arity && |acc| == Arity
    requires forall k :: 0 <= k < |steps| ==> Resolved(steps[k]) == Ok(acc[k])
    ensures ChainProgram(steps) == Run(Announcements(acc) + SinkLines(acc) + [CompletionLine], Normal)
  {
    ProgramIsFold(steps);
    FoldReachedIff(steps, []);
    var r := Fold(steps, []);
    FoldReachedAcc(steps, []);
    FoldReachedTrace(steps, []);
    assert r.acc[0..] == r.acc;
    assert r.acc == acc;
  }

  /** When step `k` is the first that fails, the program writes the
      announcements of the `k` steps before it and nothing else: no handler
      of the failing step, no sink line and no completion line. The
      exception is left uncaught. */
  lemma {:induction false} ProgramFails(steps: seq<Step>, k: nat)
    requires ValidSteps(steps)
    requires |steps| == Arity
    requires FirstFailure(steps, k)
    ensures ChainProgram(steps).ending == Uncaught(InvalidType)
    ensures |ChainProgram(steps).output| == k
    ensures forall j :: 0 <= j < k ==> ChainProgram(steps).output[j] == Announcement(Resolved(steps[j]).value)
    ensures CompletionLine !in ChainProgram(steps).output
  {
    ProgramIsFold(steps);
    FoldReachedIff(steps, []);
    var r := Fold(steps, []);
    FoldFailed(steps, []);
    assert |r.trace| == k;
    assert ChainProgram(steps).output == r.trace;
    forall j | 0 <= j < k
      ensures r.trace[j] != CompletionLine
    {
      AnnouncementIsNotCompletion(Resolved(steps[j]).value);
    }
  }

  lemma AnnouncementIsNotCompletion(a: Alt)
    ensures Announcement(a) != CompletionLine
  {
    assert Announcement(a)[0] != CompletionLine[0];
  }

  /** The completion line is written exactly when the chain returned
      normally. */
  lemma {:induction false} ProgramCompletes(steps: seq<Step>)
    requires ValidSteps(steps)
    requires |steps| == Arity
    ensures CompletionLine in ChainProgram(steps).output <==> ChainProgram(steps).ending == Normal
  {
    ProgramIsFold(steps);
    FoldReachedIff(steps, []);
    if !AllResolve(steps) {
      var k :| 0 <= k < |steps| && Resolved(steps[k]).Err?;
      var first := FirstFailureExists(steps, k);
      ProgramFails(steps, first);
    }
  }

  /** Some step fails, so one of them is the first to. */
  lemma FirstFailureExists(steps: seq<Step>, k: nat) returns (first: nat)
    requires ValidSteps(steps)
    requires k < |steps| && Resolved(steps[k]).Err?
    ensures first <= k && FirstFailure(steps, first)
    decreases k
  {
    if forall j :: 0 <= j < k ==> Resolved(steps[j]).Ok? {
      first := k;
    } else {
      var j :| 0 <= j < k && Resolved(steps[j]).Err?;
      first := FirstFailureExists(steps, j);
    }
  }

  /** The chain hard-coded in `main`. */
  const MainSteps: seq<Step> := [Step(GetA, "A1"), Step(GetB, "B1"), Step(GetC, "C2")]

  /** `main`: `start_chain(get_a, "A1", get_b, "B1", get_c, "C2",
      print_processors)` followed by the completion line. */
  function Main(): (r: Run)
    ensures ValidSteps(MainSteps) && |MainSteps| == Arity
    ensures r == ChainProgram(MainSteps)
  {
    MainPackIsChain();
    Finish(StartChain(GetA, "A1", [Callable(GetB), Text("B1"), Callable(GetC), Text("C2"), Callable(PrintProcessors)]))
  }

  lemma MainPackIsChain()
    ensures ValidSteps(MainSteps) && |MainSteps| == Arity
    ensures Pack(MainSteps[1..], []) == [Callable(GetB), Text("B1"), Callable(GetC), Text("C2"), Callable(PrintProcessors)]
    ensures Accepts(GetA, Kinds([Text("A1")] + Pack(MainSteps[1..], [])))
  {
    assert MainSteps[1..][1..] == [Step(GetC, "C2")];
    assert MainSteps[1..][1..][1..] == [];
    assert Instances([]) == [];
    PackAccepted(MainSteps, []);
    assert Pack(MainSteps, [])[1..] == [Text("A1")] + Pack(MainSteps[1..], []);
  }

  /** The program as written: A1, B1 and C2 resolve; the announcements are
      written in that order, C2's naming B2; the sink receives the three
      instances in resolution order; and the program completes. */
  lemma MainOutput()
    ensures Main() == Run([
      "Initialising A1...", "Initialising B1...", "Initialising B2...",
      "Processing:", "A1", "B1", "C2",
      "Program completed successfully"], Normal)
  {
    var acc := [A1, B1, C2];
    ResolveOwnTag(FamilyA, A1);
    ResolveOwnTag(FamilyB, B1);
    ResolveOwnTag(FamilyC, C2);
    assert Resolved(MainSteps[0]) == Ok(acc[0]);
    assert Resolved(MainSteps[1]) == Ok(acc[1]);
    assert Resolved(MainSteps[2]) == Ok(acc[2]);
    ProgramSucceeds(MainSteps, acc);
    assert Announcements(acc) == ["Initialising A1...", "Initialising B1...", "Initialising B2..."];
    assert SinkLines(acc) == ["Processing:", "A1", "B1", "C2"];
  }

  /** The chain A1, B2, C1: it completes, and B2's handler writes
      "Initialising C2...". */
  lemma ChainB2Output()
    ensures ChainProgram([Step(GetA, "A1"), Step(GetB, "B2"), Step(GetC, "C1")]) == Run([
      "Initialising A1...", "Initialising C2...", "Initialising C1...",
      "Processing:", "A1", "B2", "C1",
      "Program completed successfully"], Normal)
  {
    var steps := [Step(GetA, "A1"), Step(GetB, "B2"), Step(GetC, "C1")];
    var acc := [A1, B2, C1];
    ResolveOwnTag(FamilyA, A1);
    ResolveOwnTag(FamilyB, B2);
    ResolveOwnTag(FamilyC, C1);
    assert Resolved(steps[0]) == Ok(acc[0]);
    assert Resolved(steps[1]) == Ok(acc[1]);
    assert Resolved(steps[2]) == Ok(acc[2]);
    ProgramSucceeds(steps, acc);
    assert Announcements(acc) == ["Initialising A1...", "Initialising C2...", "Initialising C1..."];
    assert SinkLines(acc) == ["Processing:", "A1", "B2", "C1"];
  }

  /** The chain A1, "B3", C1: "B3" is not in family B, so the program writes
      only A1's announcement and ends with the uncaught "Invalid type". */
  lemma ChainB3Output()
    ensures ChainProgram([Step(GetA, "A1"), Step(GetB, "B3"), Step(GetC, "C1")])
      == Run(["Initialising A1..."], Uncaught(InvalidType))
  {
    var steps := [Step(GetA, "A1"), Step(GetB, "B3"), Step(GetC, "C1")];
    ResolveFamilies(A1, "B3");
    ProgramFails(steps, 1);
  }
}
