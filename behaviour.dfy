/**
 * What the woven code does when it runs, on the semantics of `Machine`:
 * the entry prefix reports the receiver, the label and the boxed arguments
 * and keeps the context; each exit reports the result (or the throwable)
 * to that context and leaves the operand stack as it found it.
 *
 * States are written out as `State(stack, locals, heap, events)`.
 */
module Behaviour {
  import opened Jvm
  import opened Advice
  import opened Machine

  // ----- Exits -----

  /** Store the top of the stack in `slot`, load the context, reload. */
  lemma SaveRuns(k: int, ctx: nat, slot: nat, h: nat, S: seq<Value>, v: Value,
                 L: map<nat, Value>, H: seq<seq<Value>>, E: seq<Event>)
    requires 0 <= k <= 4 && KindFits(k, v) && ctx in L && L[ctx] == CtxV(h) && ctx < slot
    ensures Run([VarInsn(ISTORE + k, slot), VarInsn(ALOAD, ctx), VarInsn(ILOAD + k, slot)], State(S + [v], L, H, E))
            == Running(State(S + [CtxV(h), v], StoreLocal(k, slot, v, L), H, E))
  {
    var L1 := StoreLocal(k, slot, v, L);
    StoreLocalFacts(k, slot, v, L, ctx);
    var x0, x1, x2 := VarInsn(ISTORE + k, slot), VarInsn(ALOAD, ctx), VarInsn(ILOAD + k, slot);
    var st := State(S + [v], L, H, E);
    var s1 := State(S, L1, H, E);
    var s2 := State(S + [CtxV(h)], L1, H, E);
    var s3 := State(S + [CtxV(h), v], L1, H, E);
    assert (S + [v])[..|S|] == S;
    assert Exec(x0, st) == Running(s1);
    assert Exec(x1, s1) == Running(s2);
    assert Exec(x2, s2) == Running(s3);
    Run1(x2, s2);
    RunStep(x1, [x2], s1, s2);
    RunStep(x0, [x1] + [x2], st, s1);
    assert [x0, x1, x2] == [x0] + ([x1] + [x2]);
  }

  /** The boxing call replaces a value of type `t` on top of the stack by
      its box (a reference is left as it is). */
  lemma BoxRuns(t: JType, S: seq<Value>, v: Value, L: map<nat, Value>, H: seq<seq<Value>>, E: seq<Event>)
    requires KindFits(Kind(t), v)
    ensures Run(BoxCall(t), State(S + [v], L, H, E)) == Running(State(S + [Box(t, v)], L, H, E))
  {
    if IsPrimitive(t) {
      var st := State(S + [v], L, H, E);
      assert Pop(st, 1).stack == S;
      assert Exec(BoxCall(t)[0], st) == Running(State(S + [Box(t, v)], L, H, E));
      Run1(BoxCall(t)[0], st);
    }
  }

  /** The event a context call records. */
  function Report(withException: bool, c: Value, x: Value): Event
  {
    if withException then StopWithException(c, x) else Stop(c, x)
  }

  function ReportCall(withException: bool): Instr
  {
    if withException then StopWithExceptionCall else StopCall
  }

  /** `stop` (or `stopWithException`) on the context, then reload `slot`. */
  lemma ReportRuns(withException: bool, k: int, slot: nat, S: seq<Value>, c: Value, x: Value,
                   L: map<nat, Value>, H: seq<seq<Value>>, E: seq<Event>)
    requires 0 <= k <= 4 && c.CtxV? && IsRef(x) && Loadable(k, slot, L)
    ensures Run([ReportCall(withException), VarInsn(ILOAD + k, slot)], State(S + [c, x], L, H, E))
            == Running(State(S + [L[slot]], L, H, E + [Report(withException, c, x)]))
  {
    var call, load := ReportCall(withException), VarInsn(ILOAD + k, slot);
    var st := State(S + [c, x], L, H, E);
    var s1 := State(S, L, H, E + [Report(withException, c, x)]);
    assert (S + [c, x])[..|S|] == S;
    assert Exec(call, st) == Running(s1);
    assert Exec(load, s1) == Running(State(S + [L[slot]], L, H, E + [Report(withException, c, x)]));
    Run1(load, s1);
    RunStep(call, [load], st, s1);
    assert [call, load] == [call] + [load];
  }

  /** Before a value return: the value is saved in the fresh `slot`, reported
      boxed to the context, and put back, so the operand stack is as before. */
  lemma ValueExitRuns(ret: JType, ctx: nat, slot: nat, h: nat, S: seq<Value>, v: Value,
                      L: map<nat, Value>, H: seq<seq<Value>>, E: seq<Event>)
    requires Fits(ret, v) && ctx in L && L[ctx] == CtxV(h) && ctx < slot
    ensures Run(ReturnExit(ret, ctx, slot), State(S + [v], L, H, E))
            == Running(State(S + [v], StoreLocal(Kind(ret), slot, v, L), H, E + [Stop(CtxV(h), Box(ret, v))]))
  {
    var k := Kind(ret);
    var L1 := StoreLocal(k, slot, v, L);
    var a := [VarInsn(ISTORE + k, slot), VarInsn(ALOAD, ctx), VarInsn(ILOAD + k, slot)];
    var b := [ReportCall(false), VarInsn(ILOAD + k, slot)];
    assert StoreOpcode(ret) == ISTORE + k && LoadOpcode(ret) == ILOAD + k;
    assert ReturnExit(ret, ctx, slot) == a + BoxCall(ret) + b;
    SaveRuns(k, ctx, slot, h, S, v, L, H, E);
    BoxRuns(ret, S + [CtxV(h)], v, L1, H, E);
    assert S + [CtxV(h), v] == (S + [CtxV(h)]) + [v];
    assert (S + [CtxV(h)]) + [Box(ret, v)] == S + [CtxV(h), Box(ret, v)];
    StoreLocalFacts(k, slot, v, L, ctx);
    ReportRuns(false, k, slot, S, CtxV(h), Box(ret, v), L1, H, E);
    RunAppend(a, BoxCall(ret), State(S + [v], L, H, E));
    RunAppend(a + BoxCall(ret), b, State(S + [v], L, H, E));
  }

  /** Before a void return: `stop(null)` on the context, nothing else changes. */
  lemma VoidExitRuns(ctx: nat, slot: nat, h: nat, S: seq<Value>, L: map<nat, Value>, H: seq<seq<Value>>, E: seq<Event>)
    requires ctx in L && L[ctx] == CtxV(h)
    ensures Run(ReturnExit(VoidT, ctx, slot), State(S, L, H, E))
            == Running(State(S, L, H, E + [Stop(CtxV(h), NullV)]))
  {
    var x0, x1, x2 := VarInsn(ALOAD, ctx), Insn(ACONST_NULL), StopCall;
    var st := State(S, L, H, E);
    var s1 := State(S + [CtxV(h)], L, H, E);
    var s2 := State(S + [CtxV(h), NullV], L, H, E);
    var s3 := State(S, L, H, E + [Stop(CtxV(h), NullV)]);
    assert (S + [CtxV(h), NullV])[..|S|] == S;
    assert Exec(x2, s2) == Running(s3);
    Run1(x2, s2);
    RunStep(x1, [x2], s1, s2);
    RunStep(x0, [x1] + [x2], st, s1);
    assert ReturnExit(VoidT, ctx, slot) == [x0] + ([x1] + [x2]);
  }

  /** The return that follows the exit leaves the method with the value the
      original code was returning; the context has seen exactly one `stop`,
      with the boxed value (or null for a void method). */
  lemma ReturnStepRuns(ret: JType, ctx: nat, slot: nat, h: nat, S: seq<Value>, v: Value,
                       L: map<nat, Value>, H: seq<seq<Value>>, E: seq<Event>)
    requires ctx in L && L[ctx] == CtxV(h) && ctx < slot
    requires ret != VoidT ==> Fits(ret, v)
    ensures ret != VoidT ==>
      Run(Step(Insn(ReturnOpcode(ret)), ret, ctx, slot), State(S + [v], L, H, E))
      == Returned(v, State(S, StoreLocal(Kind(ret), slot, v, L), H, E + [Stop(CtxV(h), Box(ret, v))]))
    ensures ret == VoidT ==>
      Run(Step(Insn(RETURN), ret, ctx, slot), State(S, L, H, E))
      == ReturnedVoid(State(S, L, H, E + [Stop(CtxV(h), NullV)]))
  {
    var op := ReturnOpcode(ret);
    assert Step(Insn(op), ret, ctx, slot) == ReturnExit(ret, ctx, slot) + [Insn(op)];
    if ret != VoidT {
      var L1 := StoreLocal(Kind(ret), slot, v, L);
      var s1 := State(S + [v], L1, H, E + [Stop(CtxV(h), Box(ret, v))]);
      ValueExitRuns(ret, ctx, slot, h, S, v, L, H, E);
      RunAppend(ReturnExit(ret, ctx, slot), [Insn(op)], State(S + [v], L, H, E));
      assert (S + [v])[..|S|] == S;
      Run1(Insn(op), s1);
    } else {
      VoidExitRuns(ctx, slot, h, S, L, H, E);
      RunAppend(ReturnExit(ret, ctx, slot), [Insn(op)], State(S, L, H, E));
      Run1(Insn(op), State(S, L, H, E + [Stop(CtxV(h), NullV)]));
    }
  }

  /** An `ATHROW` of the original body is left alone: it throws with no
      report to the context (the appended handler reports it, when it is
      inside the protected region). */
  lemma ThrowStepRuns(ret: JType, ctx: nat, slot: nat, S: seq<Value>, ex: Value,
                      L: map<nat, Value>, H: seq<seq<Value>>, E: seq<Event>)
    requires IsRef(ex) && !ex.NullV?
    ensures Run(Step(Insn(ATHROW), ret, ctx, slot), State(S + [ex], L, H, E)) == Threw(ex, State(S, L, H, E))
  {
    assert Step(Insn(ATHROW), ret, ctx, slot) == [Insn(ATHROW)];
    assert (S + [ex])[..|S|] == S;
    Run1(Insn(ATHROW), State(S + [ex], L, H, E));
  }

  /** The appended handler, entered with the throwable alone on the stack as
      the JVM does: it reports the throwable to the context and rethrows it. */
  lemma HandlerRuns(ctx: nat, slot: nat, h: nat, ex: Value, L: map<nat, Value>, H: seq<seq<Value>>, E: seq<Event>)
    requires IsRef(ex) && !ex.NullV? && ctx in L && L[ctx] == CtxV(h) && ctx < slot
    ensures Run(HandlerCode(ctx, slot), State([ex], L, H, E))
            == Threw(ex, State([], L[slot := ex], H, E + [StopWithException(CtxV(h), ex)]))
  {
    var marks := [Mark(EndLabel), Mark(CatchLabel)];
    var a := [VarInsn(ISTORE + 4, slot), VarInsn(ALOAD, ctx), VarInsn(ILOAD + 4, slot)];
    var b := [ReportCall(true), VarInsn(ILOAD + 4, slot)];
    var L1 := StoreLocal(4, slot, ex, L);
    var st := State([ex], L, H, E);
    var s3 := State([] + [CtxV(h), ex], L1, H, E);
    var s5 := State([] + [L1[slot]], L1, H, E + [Report(true, CtxV(h), ex)]);
    assert HandlerCode(ctx, slot) == marks + (a + b) + [Insn(ATHROW)];
    RunStep(Mark(CatchLabel), [], st, st);
    RunStep(Mark(EndLabel), [Mark(CatchLabel)], st, st);
    assert Run(marks, st) == Running(st);
    assert [ex] == [] + [ex];
    SaveRuns(4, ctx, slot, h, [], ex, L, H, E);
    StoreLocalFacts(4, slot, ex, L, ctx);
    assert [] + [CtxV(h), ex] == [] + [CtxV(h), ex];
    ReportRuns(true, 4, slot, [], CtxV(h), ex, L1, H, E);
    RunAppend(a, b, st);
    assert Run(a + b, st) == Running(s5);
    RunAppend(marks, a + b, st);
    RunAppend(marks + (a + b), [Insn(ATHROW)], st);
    Run1(Insn(ATHROW), s5);
  }

  // ----- Entry -----

  /** The receiver `startOn` is given: null for a static method, slot 0
      otherwise. */
  function Receiver(isStatic: bool, L: map<nat, Value>): Value
  {
    if isStatic || 0 !in L then NullV else L[0]
  }

  function Get(L: map<nat, Value>, s: nat): Value
  {
    if s in L then L[s] else NullV
  }

  /** The elements the entry prefix stores into the argument array for the
      first `k` parameters: element `i` is slot `ArgSlot(isStatic, i)`, boxed
      as parameter `i`'s type. */
  function ArgValues(isStatic: bool, args: seq<JType>, L: map<nat, Value>, k: nat): (r: seq<Value>)
    requires k <= |args|
    ensures |r| == k
    ensures forall i :: 0 <= i < k ==> r[i] == Box(args[i], Get(L, ArgSlot(isStatic, i)))
  {
    if k == 0 then [] else ArgValues(isStatic, args, L, k - 1) + [Box(args[k - 1], Get(L, ArgSlot(isStatic, k - 1)))]
  }

  predicate ReceiverLoadable(isStatic: bool, L: map<nat, Value>)
  {
    isStatic || Loadable(4, 0, L)
  }

  /** Every slot the entry prefix loads for the first `k` parameters holds
      a value of the kind it loads. */
  predicate ArgsLoadable(isStatic: bool, args: seq<JType>, L: map<nat, Value>, k: nat)
    requires k <= |args|
  {
    forall i :: 0 <= i < k ==> Loadable(Kind(args[i]), ArgSlot(isStatic, i), L)
  }

  /** The receiver, the label and the array length: what `BIPUSH` pushes is
      the sign-extended low byte of the length. */
  lemma HeadPushRuns(isStatic: bool, methodLabel: string, n: nat, S: seq<Value>,
                     L: map<nat, Value>, H: seq<seq<Value>>, E: seq<Event>)
    requires ReceiverLoadable(isStatic, L)
    ensures Run(EntryHead(isStatic, methodLabel, n)[..3], State(S, L, H, E))
            == Running(State(S + [Receiver(isStatic, L), StrV(methodLabel), IntV(SignedByte(n))], L, H, E))
  {
    var r := Receiver(isStatic, L);
    var x0 := if isStatic then Insn(ACONST_NULL) else VarInsn(ALOAD, 0);
    var x1, x2 := Ldc(methodLabel), IntInsn(BIPUSH, n);
    var st := State(S, L, H, E);
    var s1 := State(S + [r], L, H, E);
    var s2 := State(S + [r, StrV(methodLabel)], L, H, E);
    var s3 := State(S + [r, StrV(methodLabel), IntV(SignedByte(n))], L, H, E);
    assert Exec(x0, st) == Running(s1);
    Run1(x2, s2);
    RunStep(x1, [x2], s1, s2);
    RunStep(x0, [x1] + [x2], st, s1);
    assert EntryHead(isStatic, methodLabel, n)[..3] == [x0] + ([x1] + [x2]);
  }

  /** With at most 127 parameters the head pushes the receiver, the label and
      a fresh array of `n` nulls. */
  lemma HeadRuns(isStatic: bool, methodLabel: string, n: nat, S: seq<Value>,
                 L: map<nat, Value>, H: seq<seq<Value>>, E: seq<Event>)
    requires n <= 127 && ReceiverLoadable(isStatic, L)
    ensures Run(EntryHead(isStatic, methodLabel, n), State(S, L, H, E))
            == Running(State(S + [Receiver(isStatic, L), StrV(methodLabel)] + [ArrV(|H|)], L, H + [Nulls(n)], E))
  {
    var r := Receiver(isStatic, L);
    var head := EntryHead(isStatic, methodLabel, n);
    var T := S + [r, StrV(methodLabel)];
    assert SignedByte(n) == n;
    HeadPushRuns(isStatic, methodLabel, n, S, L, H, E);
    var s3 := State(T + [IntV(n)], L, H, E);
    assert S + [r, StrV(methodLabel), IntV(n)] == T + [IntV(n)];
    assert (T + [IntV(n)])[..|T|] == T;
    Run1(head[3], s3);
    assert head == head[..3] + [head[3]];
    RunAppend(head[..3], [head[3]], State(S, L, H, E));
  }

  /** A length of 128 to 255 reaches `ANEWARRAY` as a negative number. */
  lemma HeadFaults(isStatic: bool, methodLabel: string, n: nat, S: seq<Value>,
                   L: map<nat, Value>, H: seq<seq<Value>>, E: seq<Event>)
    requires 128 <= n <= 255 && ReceiverLoadable(isStatic, L)
    ensures Run(EntryHead(isStatic, methodLabel, n), State(S, L, H, E)) == Fault("NegativeArraySizeException")
  {
    var r := Receiver(isStatic, L);
    var head := EntryHead(isStatic, methodLabel, n);
    assert SignedByte(n) == n - 256;
    HeadPushRuns(isStatic, methodLabel, n, S, L, H, E);
    var s3 := State(S + [r, StrV(methodLabel), IntV(n - 256)], L, H, E);
    Run1(head[3], s3);
    assert head == head[..3] + [head[3]];
    RunAppend(head[..3], [head[3]], State(S, L, H, E));
  }

  /** The array (again), the index and the parameter's value. */
  lemma ElementPushRuns(k: int, i: nat, slot: nat, T: seq<Value>, A: Value,
                        L: map<nat, Value>, H: seq<seq<Value>>, E: seq<Event>)
    requires 0 <= k <= 4 && i <= 127 && Loadable(k, slot, L)
    ensures Run([Insn(DUP), IntInsn(BIPUSH, i), VarInsn(ILOAD + k, slot)], State(T + [A], L, H, E))
            == Running(State(T + [A, A, IntV(i), L[slot]], L, H, E))
  {
    var x0, x1, x2 := Insn(DUP), IntInsn(BIPUSH, i), VarInsn(ILOAD + k, slot);
    var st := State(T + [A], L, H, E);
    var s1 := State(T + [A, A], L, H, E);
    var s2 := State(T + [A, A, IntV(i)], L, H, E);
    assert SignedByte(i) == i;
    assert (T + [A]) + [A] == T + [A, A];
    assert Exec(x0, st) == Running(s1);
    assert (T + [A, A]) + [IntV(i)] == T + [A, A, IntV(i)];
    assert Exec(x1, s1) == Running(s2);
    assert (T + [A, A, IntV(i)]) + [L[slot]] == T + [A, A, IntV(i), L[slot]];
    Run1(x2, s2);
    RunStep(x1, [x2], s1, s2);
    RunStep(x0, [x1] + [x2], st, s1);
    assert [x0, x1, x2] == [x0] + ([x1] + [x2]);
  }

  /** Box the value and store it into element `i` of array `a`. */
  lemma ElementStoreRuns(t: JType, i: nat, T: seq<Value>, a: nat, w: Value,
                         L: map<nat, Value>, H: seq<seq<Value>>, E: seq<Event>)
    requires a < |H| && i < |H[a]| && KindFits(Kind(t), w)
    ensures Run(BoxCall(t) + [Insn(AASTORE)], State(T + [ArrV(a), ArrV(a), IntV(i), w], L, H, E))
            == Running(State(T + [ArrV(a)], L, H[a := H[a][i := Box(t, w)]], E))
  {
    var A, bw := ArrV(a), Box(t, w);
    assert IsRef(bw);
    var s4 := State(T + [A, A, IntV(i), bw], L, H, E);
    BoxRuns(t, T + [A, A, IntV(i)], w, L, H, E);
    assert (T + [A, A, IntV(i)]) + [w] == T + [A, A, IntV(i), w];
    assert (T + [A, A, IntV(i)]) + [bw] == T + [A, A, IntV(i), bw];
    assert (T + [A, A, IntV(i), bw])[..|T| + 1] == T + [A];
    assert Exec(Insn(AASTORE), s4) == Running(State(T + [A], L, H[a := H[a][i := bw]], E));
    Run1(Insn(AASTORE), s4);
    RunAppend(BoxCall(t), [Insn(AASTORE)], State(T + [A, A, IntV(i), w], L, H, E));
  }

  /** One element store: element `i` of the array on top of the stack
      becomes slot `slot`, boxed as type `t`; the stack is as before. */
  lemma ArgStoreRuns(t: JType, i: nat, slot: nat, T: seq<Value>, a: nat,
                     L: map<nat, Value>, H: seq<seq<Value>>, E: seq<Event>)
    requires i <= 127 && a < |H| && i < |H[a]| && Loadable(Kind(t), slot, L)
    ensures Run(ArgStore(t, i, slot), State(T + [ArrV(a)], L, H, E))
            == Running(State(T + [ArrV(a)], L, H[a := H[a][i := Box(t, L[slot])]], E))
  {
    var k := Kind(t);
    var p := [Insn(DUP), IntInsn(BIPUSH, i), VarInsn(ILOAD + k, slot)];
    assert LoadOpcode(t) == ILOAD + k;
    assert ArgStore(t, i, slot) == p + (BoxCall(t) + [Insn(AASTORE)]);
    ElementPushRuns(k, i, slot, T, ArrV(a), L, H, E);
    ElementStoreRuns(t, i, T, a, L[slot], L, H, E);
    RunAppend(p, BoxCall(t) + [Insn(AASTORE)], State(T + [ArrV(a)], L, H, E));
  }

  /** Filling the next element of a partly filled array. */
  lemma FillNext(done: seq<Value>, b: Value, m: nat, H: seq<seq<Value>>)
    requires m >= 1
    ensures (H + [done + Nulls(m)])[|H| := (H + [done + Nulls(m)])[|H|][|done| := b]]
            == H + [(done + [b]) + Nulls(m - 1)]
  {
    var arr := done + Nulls(m);
    assert arr[|done| := b] == (done + [b]) + Nulls(m - 1);
  }

  /** The element stores for the first `k` parameters, from a fresh array
      of `|args|` nulls: the first `k` elements are filled, in order. */
  lemma {:induction false} ArgStoresRuns(isStatic: bool, args: seq<JType>, k: nat, T: seq<Value>,
                                         L: map<nat, Value>, H: seq<seq<Value>>, E: seq<Event>)
    requires k <= |args| <= 127 && ArgsLoadable(isStatic, args, L, k)
    ensures Run(ArgStores(isStatic, args, k), State(T + [ArrV(|H|)], L, H + [Nulls(|args|)], E))
            == Running(State(T + [ArrV(|H|)], L, H + [ArgValues(isStatic, args, L, k) + Nulls(|args| - k)], E))
    decreases k
  {
    if k == 0 {
      ArgStoresNone(isStatic, args, T, L, H, E);
    } else {
      ArgStoresRuns(isStatic, args, k - 1, T, L, H, E);
      ArgStoresExtend(isStatic, args, k, T, L, H, E);
    }
  }

  /** No element stores leave the fresh array as it is. */
  lemma ArgStoresNone(isStatic: bool, args: seq<JType>, T: seq<Value>,
                      L: map<nat, Value>, H: seq<seq<Value>>, E: seq<Event>)
    ensures Run(ArgStores(isStatic, args, 0), State(T + [ArrV(|H|)], L, H + [Nulls(|args|)], E))
            == Running(State(T + [ArrV(|H|)], L, H + [ArgValues(isStatic, args, L, 0) + Nulls(|args| - 0)], E))
  {
    assert ArgValues(isStatic, args, L, 0) + Nulls(|args|) == Nulls(|args|);
  }

  /** The stores for the first `k` parameters, from those for the first `k - 1`. */
  lemma ArgStoresExtend(isStatic: bool, args: seq<JType>, k: nat, T: seq<Value>,
                        L: map<nat, Value>, H: seq<seq<Value>>, E: seq<Event>)
    requires 1 <= k <= |args| <= 127 && ArgsLoadable(isStatic, args, L, k)
    requires Run(ArgStores(isStatic, args, k - 1), State(T + [ArrV(|H|)], L, H + [Nulls(|args|)], E))
             == Running(State(T + [ArrV(|H|)], L, H + [ArgValues(isStatic, args, L, k - 1) + Nulls(|args| - (k - 1))], E))
    ensures Run(ArgStores(isStatic, args, k), State(T + [ArrV(|H|)], L, H + [Nulls(|args|)], E))
            == Running(State(T + [ArrV(|H|)], L, H + [ArgValues(isStatic, args, L, k) + Nulls(|args| - k)], E))
  {
    ArgStoresStep(isStatic, args, k, T, L, H, E);
    RunAppend(ArgStores(isStatic, args, k - 1), ArgStore(args[k - 1], k - 1, ArgSlot(isStatic, k - 1)),
              State(T + [ArrV(|H|)], L, H + [Nulls(|args|)], E));
  }

  /** The element store of parameter `k - 1`, after those of the parameters
      before it. */
  lemma ArgStoresStep(isStatic: bool, args: seq<JType>, k: nat, T: seq<Value>,
                      L: map<nat, Value>, H: seq<seq<Value>>, E: seq<Event>)
    requires 1 <= k <= |args| <= 127 && Loadable(Kind(args[k - 1]), ArgSlot(isStatic, k - 1), L)
    ensures Run(ArgStore(args[k - 1], k - 1, ArgSlot(isStatic, k - 1)),
                State(T + [ArrV(|H|)], L, H + [ArgValues(isStatic, args, L, k - 1) + Nulls(|args| - (k - 1))], E))
            == Running(State(T + [ArrV(|H|)], L, H + [ArgValues(isStatic, args, L, k) + Nulls(|args| - k)], E))
  {
    var done := ArgValues(isStatic, args, L, k - 1);
    var H1 := H + [done + Nulls(|args| - (k - 1))];
    var slot := ArgSlot(isStatic, k - 1);
    ArgStoreRuns(args[k - 1], k - 1, slot, T, |H|, L, H1, E);
    FillNext(done, Box(args[k - 1], L[slot]), |args| - (k - 1), H);
  }

  lemma NoNulls(vs: seq<Value>)
    ensures vs + Nulls(0) == vs
  {
    assert Nulls(0) == [];
  }

  /** The head and the element stores: the receiver, the label and the
      filled array are on the stack. */
  lemma HeadStoresRuns(isStatic: bool, methodLabel: string, args: seq<JType>, S: seq<Value>,
                       L: map<nat, Value>, H: seq<seq<Value>>, E: seq<Event>)
    requires |args| <= 127 && ReceiverLoadable(isStatic, L) && ArgsLoadable(isStatic, args, L, |args|)
    ensures Run(EntryHead(isStatic, methodLabel, |args|) + ArgStores(isStatic, args, |args|), State(S, L, H, E))
            == Running(State(S + [Receiver(isStatic, L), StrV(methodLabel)] + [ArrV(|H|)], L,
                             H + [ArgValues(isStatic, args, L, |args|)], E))
  {
    var T := S + [Receiver(isStatic, L), StrV(methodLabel)];
    HeadRuns(isStatic, methodLabel, |args|, S, L, H, E);
    ArgStoresRuns(isStatic, args, |args|, T, L, H, E);
    NoNulls(ArgValues(isStatic, args, L, |args|));
    RunAppend(EntryHead(isStatic, methodLabel, |args|), ArgStores(isStatic, args, |args|), State(S, L, H, E));
  }

  /** The entry prefix, run on a frame where every slot it loads is well
      typed: one `Start` event with the receiver, the label and the array of
      boxed slot values; the context is in `ctx`; the stack is as before. */
  lemma EntryRuns(isStatic: bool, methodLabel: string, args: seq<JType>, ctx: nat, S: seq<Value>,
                  L: map<nat, Value>, H: seq<seq<Value>>, E: seq<Event>)
    requires |args| <= 127 && ReceiverLoadable(isStatic, L) && ArgsLoadable(isStatic, args, L, |args|)
    ensures Run(EntryPrefix(isStatic, methodLabel, args, ctx), State(S, L, H, E))
            == Running(State(S, L[ctx := CtxV(|E|)], H + [ArgValues(isStatic, args, L, |args|)],
                             E + [Start(Receiver(isStatic, L), methodLabel, ArgValues(isStatic, args, L, |args|))]))
  {
    var vs := ArgValues(isStatic, args, L, |args|);
    var front := EntryHead(isStatic, methodLabel, |args|) + ArgStores(isStatic, args, |args|);
    HeadStoresRuns(isStatic, methodLabel, args, S, L, H, E);
    StartRuns(methodLabel, ctx, S, Receiver(isStatic, L), vs, L, H, E);
    RunAppend(front, [StartCall, VarInsn(ASTORE, ctx), Mark(TryStart)], State(S, L, H, E));
  }

  /** `startOn` with the receiver, the label and the filled array; the
      context it returns goes to `ctx`; the protected region opens. */
  lemma StartRuns(methodLabel: string, ctx: nat, S: seq<Value>, r: Value, vs: seq<Value>,
                  L: map<nat, Value>, H: seq<seq<Value>>, E: seq<Event>)
    requires IsRef(r)
    ensures Run([StartCall, VarInsn(ASTORE, ctx), Mark(TryStart)],
                State(S + [r, StrV(methodLabel)] + [ArrV(|H|)], L, H + [vs], E))
            == Running(State(S, L[ctx := CtxV(|E|)], H + [vs], E + [Start(r, methodLabel, vs)]))
  {
    var x0, x1, x2 := StartCall, VarInsn(ASTORE, ctx), Mark(TryStart);
    var s2 := State(S + [r, StrV(methodLabel)] + [ArrV(|H|)], L, H + [vs], E);
    var s3 := State(S + [CtxV(|E|)], L, H + [vs], E + [Start(r, methodLabel, vs)]);
    var s4 := State(S, L[ctx := CtxV(|E|)], H + [vs], E + [Start(r, methodLabel, vs)]);
    assert (S + [r, StrV(methodLabel)] + [ArrV(|H|)])[..|S|] == S;
    assert Exec(x0, s2) == Running(s3);
    assert (S + [CtxV(|E|)])[..|S|] == S;
    assert Exec(x1, s3) == Running(s4);
    Run1(x2, s4);
    RunStep(x1, [x2], s3, s4);
    RunStep(x0, [x1] + [x2], s2, s3);
    assert [x0, x1, x2] == [x0] + ([x1] + [x2]);
  }

  /** More than 127 parameters (up to 255): the length wraps to a negative
      number and the method fails before `startOn` is reached. */
  lemma TooManyParametersFault(isStatic: bool, methodLabel: string, args: seq<JType>, ctx: nat, S: seq<Value>,
                               L: map<nat, Value>, H: seq<seq<Value>>, E: seq<Event>)
    requires 128 <= |args| <= 255 && ReceiverLoadable(isStatic, L)
    ensures Run(EntryPrefix(isStatic, methodLabel, args, ctx), State(S, L, H, E)) == Fault("NegativeArraySizeException")
  {
    var head := EntryHead(isStatic, methodLabel, |args|);
    var rest := ArgStores(isStatic, args, |args|) + [StartCall, VarInsn(ASTORE, ctx), Mark(TryStart)];
    HeadFaults(isStatic, methodLabel, |args|, S, L, H, E);
    assert EntryPrefix(isStatic, methodLabel, args, ctx) == head + rest;
    RunAppend(head, rest, State(S, L, H, E));
  }

  // ----- Parameters in a JVM frame -----

  /** The parameter slots of a fresh JVM frame from slot `base` on: each
      parameter in turn, a long or double taking two slots. */
  function ParamSlots(args: seq<JType>, vals: seq<Value>, base: nat): map<nat, Value>
    requires |vals| == |args|
  {
    if |args| == 0 then map[]
    else
      var rest := ParamSlots(args[1..], vals[1..], base + Size(args[0]));
      if Size(args[0]) == 2 then rest[base := vals[0]][base + 1 := Top] else rest[base := vals[0]]
  }

  /** The locals of a fresh frame: the receiver in slot 0 of an instance
      method, then the parameters. */
  function Frame(isStatic: bool, receiver: Value, args: seq<JType>, vals: seq<Value>): map<nat, Value>
    requires |vals| == |args|
  {
    var m := ParamSlots(args, vals, if isStatic then 0 else 1);
    if isStatic then m else m[0 := receiver]
  }

  /** The arguments as `startOn` should receive them: each value boxed. */
  function Boxed(args: seq<JType>, vals: seq<Value>): (r: seq<Value>)
    requires |vals| == |args|
    ensures |r| == |args| && forall i :: 0 <= i < |args| ==> r[i] == Box(args[i], vals[i])
  {
    if |args| == 0 then [] else [Box(args[0], vals[0])] + Boxed(args[1..], vals[1..])
  }

  /** Every parameter but the last takes one slot: only then do the slots
      `base + i` the entry prefix loads line up with the parameters. */
  predicate Narrow(args: seq<JType>)
  {
    forall i :: 0 <= i < |args| - 1 ==> Size(args[i]) == 1
  }

  /** When every parameter before parameter `i` takes one slot, parameter
      `i` is in slot `base + i`, followed by `Top` when it is wide. */
  lemma {:induction false} NarrowParamSlots(args: seq<JType>, vals: seq<Value>, base: nat, i: nat)
    requires |vals| == |args| && Narrow(args) && i < |args|
    ensures base + i in ParamSlots(args, vals, base) && ParamSlots(args, vals, base)[base + i] == vals[i]
    ensures Size(args[i]) == 2 ==> base + i + 1 in ParamSlots(args, vals, base)
                                   && ParamSlots(args, vals, base)[base + i + 1] == Top
    decreases |args|
  {
    if i > 0 {
      assert Narrow(args[1..]) by {
        forall j | 0 <= j < |args[1..]| - 1 ensures Size(args[1..][j]) == 1 {
          assert args[1..][j] == args[j + 1];
        }
      }
      NarrowParamSlots(args[1..], vals[1..], base + 1, i - 1);
      assert Size(args[0]) == 1;
      assert args[1..][i - 1] == args[i];
    }
  }

  /** A kind loaded from two slots belongs to a two-slot type. */
  lemma WideKindSize(t: JType)
    ensures Wide(Kind(t)) ==> Size(t) == 2
  {
  }

  /** On a frame where every parameter but the last takes one slot, the
      slots the entry prefix loads are exactly the parameters, so `startOn`
      receives the receiver and the boxed arguments. */
  lemma EntryRunsOnNarrowFrame(isStatic: bool, receiver: Value, methodLabel: string, args: seq<JType>,
                               vals: seq<Value>, ctx: nat, H: seq<seq<Value>>, E: seq<Event>)
    requires |vals| == |args| <= 127 && Narrow(args)
    requires forall i :: 0 <= i < |args| ==> KindFits(Kind(args[i]), vals[i])
    requires !isStatic ==> IsRef(receiver)
    ensures var L := Frame(isStatic, receiver, args, vals);
            Run(EntryPrefix(isStatic, methodLabel, args, ctx), State([], L, H, E))
            == Running(State([], L[ctx := CtxV(|E|)], H + [Boxed(args, vals)],
                             E + [Start(if isStatic then NullV else receiver, methodLabel, Boxed(args, vals))]))
  {
    var L := Frame(isStatic, receiver, args, vals);
    var base := if isStatic then 0 else 1;
    forall i | 0 <= i < |args|
      ensures ArgSlot(isStatic, i) in L && L[ArgSlot(isStatic, i)] == vals[i]
      ensures Loadable(Kind(args[i]), ArgSlot(isStatic, i), L)
    {
      NarrowParamSlots(args, vals, base, i);
      WideKindSize(args[i]);
    }
    assert ReceiverLoadable(isStatic, L);
    assert ArgValues(isStatic, args, L, |args|) == Boxed(args, vals);
    EntryRuns(isStatic, methodLabel, args, ctx, [], L, H, E);
  }

  /** The element store of an int parameter read from slot 1 is refused
      when slot 1 holds the second half of a long. */
  lemma SlotOneStuck(T: seq<Value>, A: Value, L: map<nat, Value>, H: seq<seq<Value>>, E: seq<Event>)
    requires 1 in L && L[1] == Top
    ensures Run(ArgStore(IntT, 1, 1), State(T + [A], L, H, E)) == Stuck
  {
    var s2 := State(T + [A], L, H, E);
    var x0, x1, x2 := Insn(DUP), IntInsn(BIPUSH, 1), VarInsn(ILOAD, 1);
    var s3 := s2.(stack := T + [A, A]);
    var s4 := s2.(stack := T + [A, A, IntV(1)]);
    assert Exec(x0, s2) == Running(s3);
    assert Exec(x1, s3) == Running(s4);
    assert Exec(x2, s4) == Stuck;
    var store := ArgStore(IntT, 1, 1);
    assert store == [x0] + ([x1] + ([x2] + store[3..]));
    RunStep(x0, [x1] + ([x2] + store[3..]), s2, s3);
    RunStep(x1, [x2] + store[3..], s3, s4);
    RunCons(x2, store[3..], s4);
  }

  /** A static method taking `(long, int)`: the entry prefix loads the int
      parameter from slot 1, which holds the second half of the long, and
      the JVM's verifier rejects the woven method. */
  lemma WideParameterStuck(x: int, y: int, methodLabel: string, ctx: nat, H: seq<seq<Value>>, E: seq<Event>)
    ensures !Narrow([LongT, IntT])
    ensures Run(EntryPrefix(true, methodLabel, [LongT, IntT], ctx),
                State([], Frame(true, NullV, [LongT, IntT], [LongV(x), IntV(y)]), H, E)) == Stuck
  {
    var args, vals := [LongT, IntT], [LongV(x), IntV(y)];
    var L := Frame(true, NullV, args, vals);
    assert ParamSlots(args[1..], vals[1..], 2) == map[2 := IntV(y)];
    assert L == map[2 := IntV(y)][0 := LongV(x)][1 := Top];
    var T := [NullV, StrV(methodLabel)];
    var A := ArrV(|H|);
    var st := State([], L, H, E);
    HeadRuns(true, methodLabel, 2, [], L, H, E);
    assert [] + T == T;
    assert Loadable(Kind(LongT), ArgSlot(true, 0), L);
    ArgStoresRuns(true, args, 1, T, L, H, E);
    var H2 := H + [ArgValues(true, args, L, 1) + Nulls(1)];
    var store1 := ArgStore(IntT, 1, 1);
    SlotOneStuck(T, A, L, H2, E);
    var head := EntryHead(true, methodLabel, 2);
    var tail := [StartCall, VarInsn(ASTORE, ctx), Mark(TryStart)];
    assert ArgStores(true, args, 2) == ArgStores(true, args, 1) + store1;
    assert EntryPrefix(true, methodLabel, args, ctx) == head + (ArgStores(true, args, 1) + (store1 + tail));
    RunAppend(store1, tail, State(T + [A], L, H2, E));
    RunAppend(ArgStores(true, args, 1), store1 + tail, State(T + [A], L, H + [Nulls(2)], E));
    RunAppend(head, ArgStores(true, args, 1) + (store1 + tail), st);
  }
}
