/** The continuation-passing calls of `main.cpp`: the `get_a`/`get_b`/`get_c`
    lambdas, the `process` handlers, `start_chain` and the `print_processors`
    sink, interpreted over an explicit argument pack. An argument pack is the
    C++ parameter pack as a sequence: the callables still to run, the tags they
    will be asked for, and the instances accumulated so far. Console output is
    the list of lines a call writes; the thrown exception ends the list. */
module Continuation {
  import opened Variants
  import opened Resolver

  /** The callables that travel in the pack: the three lambdas that call
      `get` on one variant family, and the three-argument sink. */
  datatype Fn = GetA | GetB | GetC | PrintProcessors

  /** One argument of a pack: a callable, a tag string, or an instance of one
      of the six classes. */
  datatype Arg = Callable(fn: Fn) | Text(text: string) | Instance(alt: Alt)

  /** What the compiler knows of an argument. All six classes have a static
      `type()`, so any instance fits wherever one does. */
  datatype Kind = CallableKind(callee: Fn) | TextKind | InstanceKind

  function KindOf(x: Arg): Kind
  {
    match x
    case Callable(f) => CallableKind(f)
    case Text(_) => TextKind
    case Instance(_) => InstanceKind
  }

  function Kinds(args: seq<Arg>): seq<Kind>
  {
    seq(|args|, k requires 0 <= k < |args| => KindOf(args[k]))
  }

  /** The variant family the lambda `f` searches. */
  function FamilyOf(f: Fn): seq<Alt>
    requires f != PrintProcessors
  {
    match f
    case GetA => FamilyA
    case GetB => FamilyB
    case GetC => FamilyC
  }

  /** The compiler accepts a call of `f` with arguments of kinds `ks`.
      The sink reads `type()` from exactly three arguments. A `get_x` lambda
      takes a tag and a continuation; every candidate's `process` then calls
      that continuation with the rest of the pack plus one new instance, so
      that call has to be accepted too. */
  predicate Accepts(f: Fn, ks: seq<Kind>)
    decreases |ks|
  {
    match f
    case PrintProcessors =>
      |ks| == 3 && ks[0] == InstanceKind && ks[1] == InstanceKind && ks[2] == InstanceKind
    case _ =>
      && 2 <= |ks|
      && ks[0] == TextKind
      && ks[1].CallableKind?
      && Accepts(ks[1].callee, ks[2..] + [InstanceKind])
  }

  /** How a call ends: it returns normally, or it throws, and in both cases
      the lines it wrote to the console before that. */
  datatype Exec = Returned(lines: seq<string>) | Threw(lines: seq<string>, what: string)

  /** `line` is written, then `e` happens. */
  function Emit(line: string, e: Exec): (r: Exec)
    ensures r.Returned? <==> e.Returned?
    ensures r.lines == [line] + e.lines
    ensures r.Threw? ==> r.what == e.what
  {
    match e
    case Returned(ls) => Returned([line] + ls)
    case Threw(ls, w) => Threw([line] + ls, w)
  }

  /** The number of callables in a pack; each call consumes one. */
  function CallableCount(args: seq<Arg>): nat
  {
    if |args| == 0 then 0
    else (if args[0].Callable? then 1 else 0) + CallableCount(args[1..])
  }

  lemma {:induction false} CountAppendInstance(args: seq<Arg>, a: Alt)
    ensures CallableCount(args + [Instance(a)]) == CallableCount(args)
    decreases |args|
  {
    if |args| > 0 {
      assert (args + [Instance(a)])[1..] == args[1..] + [Instance(a)];
      CountAppendInstance(args[1..], a);
    }
  }

  lemma CountDropCall(args: seq<Arg>)
    requires 2 <= |args| && args[0].Text? && args[1].Callable?
    ensures CallableCount(args[2..]) + 1 == CallableCount(args)
  {
    assert args[1..][1..] == args[2..];
  }

  lemma KindsSuffix(args: seq<Arg>, i: nat)
    requires i <= |args|
    ensures Kinds(args[i..]) == Kinds(args)[i..]
  {
  }

  lemma KindsAppend(args: seq<Arg>, more: seq<Arg>)
    ensures Kinds(args + more) == Kinds(args) + Kinds(more)
  {
  }

  /** The arguments `process` hands to its continuation: the forwarded pack
      followed by one new instance of its own class. To the compiler it is
      the same pack with one more instance, and it holds no more callables. */
  function Forward(args: seq<Arg>, a: Alt): (fwd: seq<Arg>)
    ensures Kinds(fwd) == Kinds(args) + [InstanceKind]
    ensures CallableCount(fwd) == CallableCount(args)
  {
    KindsAppend(args, [Instance(a)]);
    CountAppendInstance(args, a);
    args + [Instance(a)]
  }

  /** A pack with no callable in it. */
  lemma {:induction false} NoCallables(args: seq<Arg>)
    requires forall k :: 0 <= k < |args| ==> !args[k].Callable?
    ensures CallableCount(args) == 0
    decreases |args|
  {
    if |args| > 0 {
      NoCallables(args[1..]);
    }
  }

  /** A call of the callable `f` with the pack `args`: the sink
      `print_processors`, or one of the lambdas `get_a`, `get_b`, `get_c`,
      each of which calls `get` on its own family. Every callable still in the
      pack runs at most once: a call that returns has written one
      announcement per lambda, followed by the sink's "Processing:" header
      and three tags; a call that throws has written fewer lines than there
      are callables left, so the sink never ran. */
  function Invoke(f: Fn, args: seq<Arg>): (e: Exec)
    requires Accepts(f, Kinds(args))
    ensures e.Threw? ==> e.what == InvalidType && |e.lines| < CallableCount(args)
    ensures e.Returned? ==> |e.lines| == CallableCount(args) + 4 && e.lines[CallableCount(args)] == "Processing:"
    decreases CallableCount(args) + 1, 0
  {
    match f
    case PrintProcessors =>
      assert forall k :: 0 <= k < |args| ==> KindOf(args[k]) == Kinds(args)[k];
      NoCallables(args);
      Returned(["Processing:", Tag(args[0].alt), Tag(args[1].alt), Tag(args[2].alt)])
    case _ =>
      KindsSuffix(args, 2);
      CountDropCall(args);
      Get(FamilyOf(f), args[0].text, args[1].fn, args[2..])
  }

  /** `get<V>(type, next, args...)`: the alternative the search selects has
      its `process` run; when none matches, the exception leaves before any
      handler or continuation has run. */
  function Get(fam: seq<Alt>, tag: string, next: Fn, args: seq<Arg>): (e: Exec)
    requires Accepts(next, Kinds(args) + [InstanceKind])
    ensures !Offers(fam, tag, 0) ==> e == Threw([], InvalidType)
    ensures Offers(fam, tag, 0) ==>
      Resolve(fam, tag, 0).Ok? && 1 <= |e.lines| && e.lines[0] == Announcement(Resolve(fam, tag, 0).value)
    ensures e.Threw? ==> e.what == InvalidType && |e.lines| <= CallableCount(args)
    ensures e.Returned? ==> |e.lines| == CallableCount(args) + 5 && e.lines[CallableCount(args) + 1] == "Processing:"
    decreases CallableCount(args) + 1, 2
  {
    ResolveFirstMatch(fam, tag, 0);
    match Resolve(fam, tag, 0)
    case Err(m) => Threw([], m)
    case Ok(a) => Process(a, next, args)
  }

  /** `Xn::process(next, args...)` for the class `a`: write its trace line,
      then call `next` once with the forwarded pack. */
  function Process(a: Alt, next: Fn, args: seq<Arg>): (e: Exec)
    requires Accepts(next, Kinds(args) + [InstanceKind])
    ensures 1 <= |e.lines| && e.lines[0] == Announcement(a)
    ensures e.Threw? ==> e.what == InvalidType && |e.lines| <= CallableCount(args)
    ensures e.Returned? ==> |e.lines| == CallableCount(args) + 5 && e.lines[CallableCount(args) + 1] == "Processing:"
    decreases CallableCount(args) + 1, 1
  {
    Emit(Announcement(a), Invoke(next, Forward(args, a)))
  }

  /** `start_chain(func, type, args...)`: call `func` with the tag in front
      of the remaining arguments. The tag given to `start_chain` is the first
      one searched for: if `func`'s family does not offer it, nothing is
      written; otherwise the first line is its match's announcement. */
  function StartChain(func: Fn, tag: string, args: seq<Arg>): (e: Exec)
    requires Accepts(func, Kinds([Text(tag)] + args))
    ensures func != PrintProcessors
    ensures !Offers(FamilyOf(func), tag, 0) ==> e == Threw([], InvalidType)
    ensures Offers(FamilyOf(func), tag, 0) ==>
      && Resolve(FamilyOf(func), tag, 0).Ok?
      && 1 <= |e.lines|
      && e.lines[0] == Announcement(Resolve(FamilyOf(func), tag, 0).value)
  {
    StartChainForwards(func, tag, args);
    Invoke(func, [Text(tag)] + args)
  }

  /** What a `get_x` lambda does with a pack: if its family offers the tag,
      the first matching alternative writes its announcement and the
      continuation is called exactly once, with the rest of the pack plus that
      alternative; otherwise the call throws "Invalid type" having written
      nothing and called nothing. */
  lemma GetterDispatch(f: Fn, args: seq<Arg>)
    requires f != PrintProcessors
    requires Accepts(f, Kinds(args))
    ensures args[0].Text? && args[1].Callable?
    ensures !Offers(FamilyOf(f), args[0].text, 0) ==> Invoke(f, args) == Threw([], InvalidType)
    ensures Offers(FamilyOf(f), args[0].text, 0) ==>
      var a := Resolve(FamilyOf(f), args[0].text, 0).value;
      && Tag(a) == args[0].text
      && a in FamilyOf(f)
      && Accepts(args[1].fn, Kinds(args[2..] + [Instance(a)]))
      && Invoke(f, args) == Emit(Announcement(a), Invoke(args[1].fn, args[2..] + [Instance(a)]))
  {
    var ks := Kinds(args);
    assert KindOf(args[0]) == ks[0] == TextKind;
    assert KindOf(args[1]) == ks[1];
    KindsSuffix(args, 2);
    ResolveFirstMatch(FamilyOf(f), args[0].text, 0);
    var r := Resolve(FamilyOf(f), args[0].text, 0);
    assert Invoke(f, args) == Get(FamilyOf(f), args[0].text, args[1].fn, args[2..]);
    if r.Ok? {
      var a := r.value;
      var j: nat :| FirstMatchAt(FamilyOf(f), args[0].text, 0, j) && FamilyOf(f)[j] == a;
      assert Forward(args[2..], a) == args[2..] + [Instance(a)];
    }
  }

  /** `start_chain` only forwards: the callable it is given sees the tag as
      its first argument, the first remaining argument as its continuation,
      and every other argument in its original order. */
  lemma StartChainForwards(func: Fn, tag: string, args: seq<Arg>)
    requires Accepts(func, Kinds([Text(tag)] + args))
    ensures func != PrintProcessors && 1 <= |args| && args[0].Callable?
    ensures Accepts(args[0].fn, Kinds(args[1..]) + [InstanceKind])
    ensures Invoke(func, [Text(tag)] + args) == Get(FamilyOf(func), tag, args[0].fn, args[1..])
  {
    var full := [Text(tag)] + args;
    var ks := Kinds(full);
    assert ks[0] == TextKind;
    assert full[1] == args[0] && KindOf(args[0]) == ks[1];
    assert full[2..] == args[1..];
    KindsSuffix(full, 2);
  }
}
