# Sirona's bytecode weaver, modelled in Dafny

Apache Sirona's Java agent puts monitoring into classes as they load.
`SironaClassVisitor` is an ASM class visitor. For each method it decides
whether the method is a candidate: it must not be a static initializer or a
constructor, and it must not be abstract or native. It then builds the
method's label, `pkg.Class.method(type1,type2)`. If the agent has listeners
for that label, the visitor counts the method and wraps it in a
`SironaAdviceAdapter`.

The adapter rewrites the method body in three places:

- **Entry.** It prepends a call to `AgentContext.startOn(receiver, label, Object[] args)`, stores the returned context in a fresh local, and opens a protected region.
- **Before every return.** It saves the return value in a fresh local, calls `context.stop(boxed value)` (or `stop(null)` for a void method), and reloads the value.
- **At the end.** It closes the region and appends one `Throwable` handler over it. The handler calls `stopWithException` and rethrows.
- `wasAdviced()` tells the caller whether any method of the class was woven.

The project has seven modules:

| file | module | what it holds |
|---|---|---|
| `text.dfy` | `Text` | One-character `replace`, join with a separator, and split (the inverse of join). |
| `jvm.dfy` | `Jvm` | Access flags, ASM's `Type` (`JType`), opcodes, load/store opcode tables, and the instruction stream a method visitor sees (`Instr`, `Code`). It also defines occurrence counting. |
| `advice.dfy` | `Advice` | The sequences the adapter emits, as functions: entry prefix, return exit, throwable exit, handler, and the whole woven body. The class `SironaAdviceAdapter` emits them step by step as the source does (`onMethodEnter`, `onMethodExit`, `visitMaxs`, `newLocal` as a counter). Each of its methods is proved to produce exactly those sequences. |
| `weaving.dfy` | `Weaving` | Structural facts about a woven body. Every original instruction survives, in order. Exactly the exit is inserted before each return and nothing before anything else. `startOn` and `stopWithException` occur once more than in the original, `stop` once more per return, and each adapter label once. Every original instruction lies inside the protected region and the handler lies after it. The locals the exits take are disjoint. |
| `machine.dfy` | `Machine` | A small straight-line JVM semantics for the emitted instructions: operand stack, locals, heap of arrays, and a log of context calls. |
| `behaviour.dfy` | `Behaviour` | What the woven code does on that semantics. The entry prefix reports the receiver, the label and the boxed arguments. Each exit reports the result and leaves the stack as it was. The handler reports the throwable and rethrows it. It also shows how the entry prefix fails for unusual parameter lists. |
| `classvisitor.dfy` | `ClassRewriter` | `isSironable`, the label and `typesToString`, and the class `SironaClassVisitor` with its `count`, `visitMethod` and `wasAdviced`. |

## Modelled as written

Two behaviours of the adapter are kept exactly as the code has them. Lemmas
state what they lead to.

- **Argument slot index.** The adapter loads parameter `i` from slot `i + (static ? 0 : 1)` (`SironaClassVisitor.java:166-238`). It ignores the fact that a `long` or `double` before `i` takes two slots.
  - `Behaviour.EntryRunsOnNarrowFrame` proves the entry prefix correct when every parameter but the last takes one slot, so a trailing `long` or `double` (as in an instance `f(String, long)`) is loaded from its real slot.
  - `Behaviour.WideParameterStuck` shows the failure for a static `(long, int)` method, the smallest list with a two-slot parameter before another one. There the `int` load reads the second half of the `long`, and the JVM's verifier rejects the woven method.
- **Lengths pushed with `BIPUSH`.** The array length and the indices are pushed with `BIPUSH` (`:150`, `:161`). The class file keeps only the low byte of the operand, sign-extended (`Machine.SignedByte`).
  - With at most 127 parameters the entry prefix works (`Behaviour.EntryRuns`).
  - With 128 to 255 parameters the length becomes negative, and `ANEWARRAY` throws `NegativeArraySizeException` before `startOn` is reached (`Behaviour.TooManyParametersFault`).

The weaving methods themselves have no precondition on the parameter count,
just as the source has none.

## Model

| member | source | states |
|---|---|---|
| ClassRewriter.SironableExactly | agent/javaagent/src/main/java/org/apache/sirona/javaagent/SironaClassVisitor.java:101-104 | A method is a candidate if and only if its name is neither `<clinit>` nor `<init>` and neither the `abstract` bit (0x0400) nor the `native` bit (0x0100) is set in its access flags. |
| ClassRewriter.SironableFlags | agent/javaagent/src/main/java/org/apache/sirona/javaagent/SironaClassVisitor.java:101-104 | Whether a method is a candidate depends only on its name and on the `abstract` and `native` access bits: two flag sets that agree on those bits give the same answer. |
| ClassRewriter.WovenOrPassedThrough | agent/javaagent/src/main/java/org/apache/sirona/javaagent/SironaClassVisitor.java:78-86 | A `<clinit>` or `<init>` method, or an abstract or native one, is never woven and reaches the writer unchanged, whatever listeners exist. A woven method keeps its own exception table, followed by exactly one protected region. |
| ClassRewriter.TypesToString | agent/javaagent/src/main/java/org/apache/sirona/javaagent/SironaClassVisitor.java:90-99 | The builder loop appends every type name followed by a comma and then drops the last character. The result is the names joined by commas: no trailing comma, and empty for no parameters. |
| ClassRewriter.MakeLabel | agent/javaagent/src/main/java/org/apache/sirona/javaagent/SironaClassVisitor.java:82 | The label the visitor builds is the class name with `/` replaced by `.`, then `.`, the method name, and the joined parameter names in parentheses. |
| ClassRewriter.LabelFrame | agent/javaagent/src/main/java/org/apache/sirona/javaagent/SironaClassVisitor.java:82 | A label starts with the dotted class name, which holds no `/` any more. Then come `.`, the method name and `(`, and the label ends with `)`. |
| ClassRewriter.LabelArgsIsJoin | agent/javaagent/src/main/java/org/apache/sirona/javaagent/SironaClassVisitor.java:82 | The text between a label's parentheses is exactly the comma-join of the parameters' Java class names. |
| ClassRewriter.LabelArgsRoundTrip | agent/javaagent/src/main/java/org/apache/sirona/javaagent/SironaClassVisitor.java:90-99 | Splitting that text at commas gives back the parameter names, provided none is empty or holds a comma. A method without parameters has `()`. |
| ClassRewriter.AdvicedCountPositive | agent/javaagent/src/main/java/org/apache/sirona/javaagent/SironaClassVisitor.java:106-108 | The number of woven methods among the first `n` is positive if and only if one of them is woven (both directions). |
| ClassRewriter.AdvicedCountBound | agent/javaagent/src/main/java/org/apache/sirona/javaagent/SironaClassVisitor.java:84 | The count never exceeds the number of methods visited. |
| ClassRewriter.SironaClassVisitor.constructor | agent/javaagent/src/main/java/org/apache/sirona/javaagent/SironaClassVisitor.java:55-67 | A new visitor keeps the class name and starts with `count == 0`. |
| ClassRewriter.SironaClassVisitor.VisitMethod | agent/javaagent/src/main/java/org/apache/sirona/javaagent/SironaClassVisitor.java:75-88 | A non-candidate passes through unchanged. A candidate whose label has listeners raises `count` by exactly one and gets the woven code. Any other method leaves `count` alone and passes through unchanged. |
| ClassRewriter.SironaClassVisitor.WasAdviced | agent/javaagent/src/main/java/org/apache/sirona/javaagent/SironaClassVisitor.java:106-108 | The result is true exactly when `count > 0`. |
| ClassRewriter.SironaClassVisitor.VisitMethods | agent/javaagent/src/main/java/org/apache/sirona/javaagent/SironaClassVisitor.java:75-88 | Visiting a class's methods in order gives each method its own result. `count` rises by the number of woven methods. |
| ClassRewriter.TransformClass | agent/javaagent/src/main/java/org/apache/sirona/javaagent/SironaClassVisitor.java:55-108 | For a fresh visitor after all methods, `wasAdviced()` is true if and only if at least one method of the class was woven. |
| Text.Replace | agent/javaagent/src/main/java/org/apache/sirona/javaagent/SironaClassVisitor.java:82 | Replacing a character keeps the length. Each position holds the replacement where the original held the replaced character, and the original character elsewhere. |
| Text.ReplaceRemoves | agent/javaagent/src/main/java/org/apache/sirona/javaagent/SironaClassVisitor.java:82 | After `replace('/', '.')` no `/` is left. |
| Text.TerminatedAppend | agent/javaagent/src/main/java/org/apache/sirona/javaagent/SironaClassVisitor.java:92-94 | Appending a name and then a comma to the builder extends the "each name followed by a comma" string by that name. |
| Text.TerminatedIsJoinPlusSep | agent/javaagent/src/main/java/org/apache/sirona/javaagent/SironaClassVisitor.java:95-97 | For a non-empty list, "each name followed by a comma" is the join plus one final comma, so `setLength(length - 1)` leaves the join. |
| Text.SplitJoin | agent/javaagent/src/main/java/org/apache/sirona/javaagent/SironaClassVisitor.java:90-99 | Splitting a join at the separator gives back the list, when no element is empty or holds the separator (the inverse used by `LabelArgsRoundTrip`). |
| Jvm.LoadOpcode | agent/javaagent/src/main/java/org/apache/sirona/javaagent/SironaClassVisitor.java:164-239 | The load opcode of a type lies between `ILOAD` and `ALOAD`. It is `ALOAD` exactly for non-primitive types, and `LLOAD`/`DLOAD` exactly for the two-slot types. |
| Advice.BoxDescLetter | agent/javaagent/src/main/java/org/apache/sirona/javaagent/SironaClassVisitor.java:164-235 | The descriptor of each primitive's `valueOf` takes that primitive's descriptor letter (`Z B C S I J F D`). |
| Advice.SignatureIdentifies | agent/javaagent/src/main/java/org/apache/sirona/javaagent/SironaClassVisitor.java:164-235 | Two emitted calls have the same owner, name and descriptor if and only if they are the same symbolic call, so `startOn`, `stop`, `stopWithException` and the eight `valueOf`s are told apart. |
| Advice.SironaAdviceAdapter.constructor | agent/javaagent/src/main/java/org/apache/sirona/javaagent/SironaClassVisitor.java:116-122 | The adapter takes `isStatic` from the access flags, keeps the label and the descriptor's types, and starts allocating locals after the receiver and the parameters. |
| Advice.SironaAdviceAdapter.NewLocal | agent/javaagent/src/main/java/org/apache/sirona/javaagent/SironaClassVisitor.java:245 | `newLocal` hands out the next free slot and advances by the size of the type (two for `long`/`double`). |
| Advice.SironaAdviceAdapter.EmitArgStore | agent/javaagent/src/main/java/org/apache/sirona/javaagent/SironaClassVisitor.java:160-242 | One element store is `DUP`, `BIPUSH i`, the type's load from the given slot, and for a primitive its `valueOf`, then `AASTORE`. There is no conversion for references. |
| Advice.SironaAdviceAdapter.EmitEntryHead | agent/javaagent/src/main/java/org/apache/sirona/javaagent/SironaClassVisitor.java:136-152 | The head is `ACONST_NULL` for a static method or `ALOAD 0` otherwise, then the label, then `BIPUSH length` and `ANEWARRAY java/lang/Object`. |
| Advice.SironaAdviceAdapter.EmitArgStores | agent/javaagent/src/main/java/org/apache/sirona/javaagent/SironaClassVisitor.java:155-243 | The loop emits the element stores for parameters `0 … n-1`, in increasing order, reading parameter `i` from slot `i + (static ? 0 : 1)`. |
| Advice.SironaAdviceAdapter.OnMethodEnter | agent/javaagent/src/main/java/org/apache/sirona/javaagent/SironaClassVisitor.java:131-252 | It emits the head, the element stores, `startOn`, a store into the fresh context local and the `tryStart` label, in that order. The context local is the first free slot. |
| Advice.SironaAdviceAdapter.OnMethodExit | agent/javaagent/src/main/java/org/apache/sirona/javaagent/SironaClassVisitor.java:256-292 | `ATHROW` emits nothing. A void return emits `ALOAD ctx; ACONST_NULL; stop`. A value return emits a store into a fresh local, then `ALOAD ctx`, the reload, the box, `stop` and a second reload. `MIN_VALUE` emits the throwable variant with `stopWithException`. Exactly those locals are allocated. |
| Advice.SironaAdviceAdapter.Visit | agent/javaagent/src/main/java/org/apache/sirona/javaagent/SironaClassVisitor.java:255-259 | Before a return, the adapter runs `onMethodExit` and then passes the return on. Any other instruction, `ATHROW` included, is passed on alone. |
| Advice.SironaAdviceAdapter.VisitTryCatchBlock | agent/javaagent/src/main/java/org/apache/sirona/javaagent/SironaClassVisitor.java:110 | An exception-table entry of the original body is passed through unchanged. This is inherited, as the adapter does not override it. |
| Advice.SironaAdviceAdapter.VisitTryCatchBlocks | agent/javaagent/src/main/java/org/apache/sirona/javaagent/SironaClassVisitor.java:110 | The whole original exception table is passed through, in order. |
| Advice.SironaAdviceAdapter.VisitInstrs | agent/javaagent/src/main/java/org/apache/sirona/javaagent/SironaClassVisitor.java:255-292 | Forwarding the body gives the rewritten body: each return preceded by its exit, whose save slot follows the slots earlier exits took. |
| Advice.SironaAdviceAdapter.VisitMaxs | agent/javaagent/src/main/java/org/apache/sirona/javaagent/SironaClassVisitor.java:295-301 | It emits `endLabel`, adds one `Throwable` table entry over `[tryStart, endLabel)` with its handler label, emits the throwable exit and `ATHROW`, and takes one more local. |
| Advice.SironaAdviceAdapter.Accept | agent/javaagent/src/main/java/org/apache/sirona/javaagent/SironaClassVisitor.java:110-302 | A whole visit of a method body gives the entry prefix, the rewritten body and the handler code, and the original table plus the protected region. |
| Weaving.OriginalAt | agent/javaagent/src/main/java/org/apache/sirona/javaagent/SironaClassVisitor.java:255-292 | Every original instruction is present in the rewritten body, at its computed position. |
| Weaving.OriginalsInOrder | agent/javaagent/src/main/java/org/apache/sirona/javaagent/SironaClassVisitor.java:255-292 | Original instructions keep their relative order. |
| Weaving.NothingBeforePlain | agent/javaagent/src/main/java/org/apache/sirona/javaagent/SironaClassVisitor.java:257-259 | Nothing is inserted between a non-return instruction (including `ATHROW`) and the instruction before it. |
| Weaving.ExitBeforeReturn | agent/javaagent/src/main/java/org/apache/sirona/javaagent/SironaClassVisitor.java:261-291 | Before a return, exactly the exit's length is inserted. |
| Weaving.FirstOriginal | agent/javaagent/src/main/java/org/apache/sirona/javaagent/SironaClassVisitor.java:261-291 | The first original instruction opens the rewritten body, after its exit if it is a return. |
| Weaving.ExitAt | agent/javaagent/src/main/java/org/apache/sirona/javaagent/SironaClassVisitor.java:261-291 | The code right before each return is its exit, saving into the first local after those the earlier exits took. |
| Weaving.ExitLocalsDisjoint | agent/javaagent/src/main/java/org/apache/sirona/javaagent/SironaClassVisitor.java:266 | A later exit's local starts after the whole of an earlier exit's local (long and double take two slots). No exit's local starts after the handler's throwable local, and when the later instruction is a return, its whole local lies below the throwable local. |
| Weaving.HandlerLocalAfterExit | agent/javaagent/src/main/java/org/apache/sirona/javaagent/SironaClassVisitor.java:266-270 | The handler's throwable local lies after the whole of the value saved before any return, the last return included, so the two never overlap. |
| Weaving.ExitSlotsPerReturn | agent/javaagent/src/main/java/org/apache/sirona/javaagent/SironaClassVisitor.java:263-267 | The exits take `Size(returnType)` slots per return: none for void, two for long and double, one otherwise. |
| Weaving.WovenCountOf | agent/javaagent/src/main/java/org/apache/sirona/javaagent/SironaClassVisitor.java:131-301 | For `startOn`, `stopWithException` or a label, the woven body holds the original's occurrences plus the adapter's own occurrence, if it has one. |
| Weaving.WovenStops | agent/javaagent/src/main/java/org/apache/sirona/javaagent/SironaClassVisitor.java:283-284 | The woven body calls `stop` once more per return than the original. |
| Weaving.WovenCounts | agent/javaagent/src/main/java/org/apache/sirona/javaagent/SironaClassVisitor.java:131-301 | The woven body has one more `startOn`, one more `stopWithException`, and one more `stop` per return. With fresh labels, `tryStart`, `endLabel` and the handler label each occur exactly once. |
| Weaving.RegionBounds | agent/javaagent/src/main/java/org/apache/sirona/javaagent/SironaClassVisitor.java:251-301 | `tryStart` ends the entry prefix. `endLabel` immediately follows the last rewritten instruction and the handler label follows it. The woven code ends with `ATHROW`, so the handler lies outside its own region. |
| Weaving.OriginalInRegion | agent/javaagent/src/main/java/org/apache/sirona/javaagent/SironaClassVisitor.java:251-297 | Every original instruction lies strictly between `tryStart` and `endLabel`. |
| Behaviour.BoxRuns | agent/javaagent/src/main/java/org/apache/sirona/javaagent/SironaClassVisitor.java:164-239 | The boxing call replaces the value on top of the stack by its box. A reference is left as it is. |
| Behaviour.ValueExitRuns | agent/javaagent/src/main/java/org/apache/sirona/javaagent/SironaClassVisitor.java:261-291 | Before a value return the exit records `stop(ctx, box(v))`. It leaves the operand stack exactly as it found it, with `v` on top, and changes only the fresh local. |
| Behaviour.VoidExitRuns | agent/javaagent/src/main/java/org/apache/sirona/javaagent/SironaClassVisitor.java:274-287 | Before a void return the exit records `stop(ctx, null)` and changes nothing else. |
| Behaviour.ReturnStepRuns | agent/javaagent/src/main/java/org/apache/sirona/javaagent/SironaClassVisitor.java:261-291 | Exit plus return leaves the method with the original return value (or void), after exactly one `stop` event. |
| Behaviour.ThrowStepRuns | agent/javaagent/src/main/java/org/apache/sirona/javaagent/SironaClassVisitor.java:257-259 | An original `ATHROW` throws with no report of its own. |
| Behaviour.HandlerRuns | agent/javaagent/src/main/java/org/apache/sirona/javaagent/SironaClassVisitor.java:294-301 | When entered with a throwable, the handler records `stopWithException(ctx, throwable)` and rethrows that same throwable. |
| Behaviour.HeadRuns | agent/javaagent/src/main/java/org/apache/sirona/javaagent/SironaClassVisitor.java:136-152 | With at most 127 parameters the head pushes the receiver (or null), the label and a fresh array of that many nulls. |
| Behaviour.HeadFaults | agent/javaagent/src/main/java/org/apache/sirona/javaagent/SironaClassVisitor.java:150-152 | With 128 to 255 parameters `BIPUSH` pushes a negative length and `ANEWARRAY` throws `NegativeArraySizeException`. |
| Behaviour.ArgStoreRuns | agent/javaagent/src/main/java/org/apache/sirona/javaagent/SironaClassVisitor.java:160-242 | One element store puts the boxed slot value into element `i` and leaves the array reference on the stack. |
| Behaviour.ArgStoresRuns | agent/javaagent/src/main/java/org/apache/sirona/javaagent/SironaClassVisitor.java:155-243 | The first `k` stores fill elements `0 … k-1` with the boxed slot values, in order. The rest stay null. |
| Behaviour.StartRuns | agent/javaagent/src/main/java/org/apache/sirona/javaagent/SironaClassVisitor.java:245-251 | `startOn` records one `Start` event with the receiver, the label and the array contents. Its context goes into `ctx`, and the stack returns to what it was. |
| Behaviour.EntryRuns | agent/javaagent/src/main/java/org/apache/sirona/javaagent/SironaClassVisitor.java:131-252 | On a frame whose loaded slots are well typed, the entry prefix records exactly one `Start(receiver, label, boxed slot values)`. The context is left in `ctx` and the stack is unchanged. |
| Behaviour.TooManyParametersFault | agent/javaagent/src/main/java/org/apache/sirona/javaagent/SironaClassVisitor.java:147-152 | With 128 to 255 parameters the entry prefix throws `NegativeArraySizeException` before `startOn`. |
| Behaviour.EntryRunsOnNarrowFrame | agent/javaagent/src/main/java/org/apache/sirona/javaagent/SironaClassVisitor.java:155-243 | On a real JVM frame where every parameter but the last takes one slot, `startOn` receives the receiver (or null) and the boxed actual arguments, in order. |
| Behaviour.SlotOneStuck | agent/javaagent/src/main/java/org/apache/sirona/javaagent/SironaClassVisitor.java:200-202 | An `int` element store that reads slot 1 while slot 1 holds the second half of a `long` is refused. |
| Behaviour.WideParameterStuck | agent/javaagent/src/main/java/org/apache/sirona/javaagent/SironaClassVisitor.java:200-217 | For a static `(long, int)` method the entry prefix loads the `int` from slot `1`, which is the second half of the `long`, and the woven code is refused. That list is outside the frames `EntryRunsOnNarrowFrame` covers. |

## Left out

- ASM itself is left out: the class writer, stack-map frames, and the `visitMaxs(0, 0)` recomputation. So is `AdviceAdapter`'s own detection of the constructor's super call. Its callback protocol is taken as given: `onMethodEnter` at `visitCode`, `onMethodExit` before each return and `ATHROW`, `visitMaxs` last.
- `LocalVariablesSorter`'s remapping of the original body's own locals is not modelled. `newLocal` is a counter starting after the parameters, and original local instructions pass through unchanged.
- Descriptor parsing (`Type.getArgumentTypes`, `Type.getReturnType`) is not modelled. A method arrives with its parameter and return types already decoded. The `itf` flag of the emitted calls is dropped.
- `AgentContext.listeners(label, classfileBuffer)` is modelled by the `monitored` set: a label is in it exactly when the call would return non-null. The call's side effects and the class bytes it receives are not modelled.
- The monitoring context's runtime (timing, path tracking, thread safety) is left out. Calls into it are recorded as events.
- Calls are symbolic (`MethodRef`). Any call of the original body, and any instruction the semantics does not cover, is an `Other` instruction and passes through.
- Floating-point values are kept as opaque bit patterns. Only their kind matters to the proofs.
- Jumps are not executed by `Machine`, so there is no whole-method run theorem. What a woven body does is stated piece by piece: the entry, each exit with its return, and the handler. Where the pieces go is established by the structural lemmas in `Weaving`.
- The JVM's rule that a handler catches exceptions raised between `tryStart` and `endLabel` is not executed. `Weaving.OriginalInRegion` and `Weaving.RegionBounds` state the positions it depends on.
- `visitSource` is a pure pass-through and is not modelled.
- `Counter.java`, the Spring advice factory and the agent test are not part of this model.
- `Behaviour.TooManyParametersFault` covers 128 to 255 parameters only. The JVM limits a method to 255 parameter slots.
- `ClassRewriter.LabelArgsRoundTrip` requires class names that are non-empty and free of commas. Java class names satisfy this, but the model does not prove it.
- `Behaviour.EntryRuns` requires at most 127 parameters and well-typed slots for every load. The weaving methods do not require this, as the section "Modelled as written" explains.
