# variadic_visitors: the tag-dispatch continuation chain, in Dafny

The program in `main.cpp` picks classes by tag. There are six marker classes,
`A1 A2 B1 B2 C1 C2`. Each has a static `type()` tag and a static `process`
handler. They form three two-member `std::variant` families: `v_A`, `v_B` and
`v_C`.

`get<V, I>(type, func, args...)` searches the alternatives of `V` in
declaration order, from index `I`. It runs the `process` of the first
alternative whose tag equals `type`. If it runs off the end, it throws
`std::invalid_argument`.

Each `process` writes one trace line. It then calls its continuation once,
passing the forwarded arguments followed by a new instance of its own class.

`main` starts one hard-coded chain through `start_chain`: `get_a "A1"`, then
`get_b "B1"`, then `get_c "C2"`, then the three-argument sink
`print_processors`. If the chain returns, `main` writes
"Program completed successfully".

The model has four modules:

- `Variants` (`variants.dfy`): the classes as `datatype Alt`. It defines their
  tags, their trace lines ("announcements") and the three families.
- `Resolver` (`resolver.dfy`): `Resolve(fam, tag, i)` is `get<V, I>`'s search.
  It returns `Ok(alternative)` or `Err("Error [get]: Invalid type")`.
- `Continuation` (`continuation.dfy`): an interpreter for the continuation
  calls. The C++ parameter pack is a `seq<Arg>` holding callables, tag texts
  and instances. `Invoke`, `Get`, `Process` and `StartChain` follow the C++
  functions one for one. Console output is the list of lines a call writes.
  A thrown exception is `Threw(lines, what)`.
- `Chain` (`chain.dfy`): a second, independent meaning of the chain. `Fold` is
  a fold over (lambda, tag) steps that builds the accumulator and the trace.
  `ChainMatchesFold` proves that the interpreter and the fold give the same
  result for every chain whose length fits the sink. On top of that sit the
  whole-program lemmas and the concrete chain of `main`.

The trace text follows the code, not the usual reading of the class names:
`B2::process` writes "Initialising C2..." and `C2::process` writes
"Initialising B2...". The other four write "Initialising <own tag>...". So the
program as written prints "Initialising B2..." as its third line, while it is
resolving `C2` (`MainOutput`).

## Model

| member | source | states |
|---|---|---|
| Variants.TagSpelling | main.cpp:34-117 | each class's `type()` tag is two characters: the letter of the variant family it belongs to, then its 1-based position in that family's declaration order |
| Variants.Announcement | main.cpp:40-111 | every `process` handler's trace line is "Initialising " followed by some class's tag and "..." |
| Variants.TagIdentifies | main.cpp:34-112 | two classes have the same `type()` tag exactly when they are the same class |
| Variants.FamiliesHaveDistinctTags | main.cpp:115-117 | within each of `v_A`, `v_B`, `v_C` the two alternatives have different tags |
| Variants.AnnouncementNames | main.cpp:34-112 | A1, A2, B1 and C1 announce "Initialising <own tag>..."; B2 announces C2's tag and C2 announces B2's; no other class misnames itself |
| Resolver.Resolve | main.cpp:9-21 | a search from index i that succeeds yields an alternative at i or later whose tag is the requested one; a search that fails gives the "Invalid type" message |
| Resolver.ResolveFirstMatch | main.cpp:9-21 | searching from index i succeeds exactly when some alternative at i or later carries the tag, and then yields the first such alternative in declaration order |
| Resolver.ResolveOwnTag | main.cpp:11-17 | asking a family for the tag of one of its members yields that member |
| Resolver.ResolveUnique | main.cpp:11-17 | two successful searches of a family give the same alternative exactly when they asked for the same tag, and the result carries the requested tag |
| Resolver.ResolveFamilies | main.cpp:115-117 | each member of `v_A`/`v_B`/`v_C` is found by its own tag; each family accepts exactly its two tags and rejects every other string |
| Continuation.Invoke | main.cpp:119-128 | calling a lambda or the sink with a pack the compiler accepts either throws "Invalid type" having written fewer lines than there are callables in the pack, so the sink never ran, or returns having written one line per callable in the pack, then "Processing:", then three more lines |
| Continuation.Get | main.cpp:9-21 | when the family offers no alternative with the tag, `get` throws "Invalid type" having written nothing; otherwise its first line is the announcement of the first matching alternative; a throw has written at most one line per callable in the pack; a return has written one line more than that, then "Processing:", then three more lines |
| Continuation.Process | main.cpp:40-111 | a handler's first line is its own trace line; a throw carries "Invalid type" and has written at most one line per callable in the pack; a return has written one line more than that, then "Processing:", then three more lines |
| Continuation.StartChain | main.cpp:23-26 | the tag given to `start_chain` is the first one searched: when the callable's family does not offer it, nothing is written and "Invalid type" is thrown; otherwise the first line is the announcement of its first match |
| Continuation.GetterDispatch | main.cpp:9-21 | a `get_x` call either throws "Invalid type" having written nothing and called nothing, or writes the first matching alternative's announcement and then calls the continuation once with the rest of the pack plus that alternative |
| Continuation.StartChainForwards | main.cpp:23-26 | `start_chain` gives its callable the tag first, then the remaining arguments unchanged; the first of them is the continuation |
| Chain.SinkLines | main.cpp:123-128 | the sink writes "Processing:" and then the tag of each of its three instances, in the order received |
| Chain.SinkLinesIdentify | main.cpp:123-128 | two runs of the sink write the same lines exactly when they received the same instances in the same order |
| Chain.Fold | main.cpp:119-130 | a run that reaches the sink has added exactly one alternative per step to the accumulator and left the earlier elements untouched; a failure writes fewer announcements than there are steps |
| Chain.FoldReachedIff | main.cpp:119-130 | the steps reach the sink exactly when every step's search succeeds |
| Chain.FoldReachedAcc | main.cpp:119-130 | on reaching the sink, the accumulator's new element k is what step k resolved to |
| Chain.FoldReachedTrace | main.cpp:119-130 | on reaching the sink, the trace is the announcements of the resolved alternatives, in resolution order |
| Chain.FoldFailed | main.cpp:18-20 | on failure, the trace is exactly the announcements of the steps before the first failing step; the failing step and later steps write nothing |
| Chain.PackAccepted | main.cpp:119-130 | every chain whose steps plus accumulated instances number three forms an argument pack the compiler accepts |
| Chain.ContinueStep | main.cpp:119-121 | one interpreted step: the head lambda's search either throws with nothing written, or writes the announcement and continues with the rest of the chain and one more instance |
| Chain.ChainMatchesFold | main.cpp:119-130 | the interpreted continuation chain and the step fold give the same lines and the same ending, at every point of every three-step chain |
| Chain.ProgramIsFold | main.cpp:130-132 | the program started through `start_chain` behaves as the fold, then the sink, then the completion line |
| Chain.ProgramSucceeds | main.cpp:123-132 | if every step resolves, the output is the announcements in step order, then "Processing:" and the three tags in step order, then the completion line, and the program ends normally |
| Chain.ProgramFails | main.cpp:18-20 | if step k is the first to fail, the output is the k earlier announcements only, the completion line is absent, and the program ends with the uncaught "Invalid type" |
| Chain.ProgramCompletes | main.cpp:130-132 | the completion line appears in the output exactly when the program ends normally |
| Chain.AnnouncementIsNotCompletion | main.cpp:34-132 | no handler's trace line can be mistaken for the completion line |
| Chain.Main | main.cpp:114-133 | `main` is the three-step chain `get_a "A1"`, `get_b "B1"`, `get_c "C2"` started through `start_chain`, followed by the completion line |
| Chain.MainPackIsChain | main.cpp:130 | the literal argument list of `main`'s `start_chain` call is the pack of the steps A1, B1, C2, and the compiler accepts it |
| Chain.MainOutput | main.cpp:114-133 | the program writes "Initialising A1...", "Initialising B1...", "Initialising B2...", "Processing:", "A1", "B1", "C2", "Program completed successfully" and ends normally |
| Chain.ChainB2Output | main.cpp:66-70 | the chain A1, B2, C1 completes, and its B step writes "Initialising C2..." |
| Chain.ChainB3Output | main.cpp:18-20 | the chain A1, "B3", C1 writes only "Initialising A1..." and ends with the uncaught "Invalid type" |

## Left out

- Console streams (`std::cout`, `'\n'`, `std::endl`): output is a list of lines. Flushing and buffering are not modelled.
- `print_arg` and `print<T>` (main.cpp:5-7, 28-31): nothing calls them.
- Template machinery (`if constexpr`, `std::variant_size_v`, `std::variant_alternative_t`, parameter packs, `std::forward`): families are sequences, the template index is a `nat`, and a pack is a `seq<Arg>`.
- Compile-time type checking of the pack is the precondition `Accepts(f, Kinds(args))`, not a run-time outcome. The compiler checks every candidate's `process` call, but all six classes forward the same shape, so checking the taken path is enough.
- Exceptions: `throw` becomes the `Threw`/`Err` outcome carrying the message. Stack unwinding and the runtime's report for an uncaught exception are not modelled; the uncaught ending is `Uncaught(message)`.
- Variants.Announcement: its own contract gives only the form of the line ("Initialising " + some tag + "..."); which tag each handler names is stated by `AnnouncementNames`.
- Running the chain twice gives identical output because every member is a pure function; no separate lemma states this.
