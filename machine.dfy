/**
 * A small straight-line semantics for the instructions the weaver emits, just
 * enough to state what the woven code does when it runs: which events reach
 * the monitoring context, what is left on the operand stack, and which JVM
 * error stops it instead.
 *
 * Values carry only their kind (int-like, long, float, double or a
 * reference); floating-point payloads are opaque integers. Calls into the
 * monitoring context are recorded as events instead of being executed: the
 * context returned by `startOn` is a handle naming its `Start` event.
 */
module Machine {
  import opened Jvm
  import opened Advice

  datatype Value =
    | NullV
    | IntV(i: int)              // boolean, byte, char, short and int
    | LongV(l: int)
    | FloatV(f: int)            // bit pattern
    | DoubleV(d: int)           // bit pattern
    | Top                       // second slot of a long or double local
    | ObjV(id: nat)             // any other object
    | StrV(s: string)
    | ArrV(addr: nat)           // an array on the heap
    | BoxedV(kind: JType, payload: Value)
    | CtxV(start: nat)          // the context of the `start`-th event

  predicate IsRef(v: Value)
  {
    v.NullV? || v.ObjV? || v.StrV? || v.ArrV? || v.BoxedV? || v.CtxV?
  }

  /** Value kinds, numbered as the opcode families order them
      (`ILOAD + k`, `ISTORE + k`, `IRETURN + k`). */
  predicate KindFits(k: int, v: Value)
  {
    (k == 0 && v.IntV?) || (k == 1 && v.LongV?) || (k == 2 && v.FloatV?)
    || (k == 3 && v.DoubleV?) || (k == 4 && IsRef(v))
  }

  /** Kinds whose values take two local slots. */
  predicate Wide(k: int) { k == 1 || k == 3 }

  function Kind(t: JType): int { LoadOpcode(t) - ILOAD }

  /** `v` is a value of the (non-void) type `t`. */
  predicate Fits(t: JType, v: Value) { t != VoidT && KindFits(Kind(t), v) }

  /** What `valueOf` makes of a value of type `t`; references are kept. */
  function Box(t: JType, v: Value): Value
  {
    if IsPrimitive(t) then BoxedV(t, v) else v
  }

  /** What `BIPUSH n` pushes: the class file keeps only the low byte of
      the operand, and the JVM sign-extends it. */
  function SignedByte(n: int): int
  {
    var b := n % 256;
    if b < 128 then b else b - 256
  }

  /** A call the woven code makes into the monitoring context. */
  datatype Event =
    | Start(receiver: Value, methodLabel: string, args: seq<Value>)
    | Stop(ctx: Value, result: Value)
    | StopWithException(ctx: Value, error: Value)

  datatype State = State(stack: seq<Value>, locals: map<nat, Value>, heap: seq<seq<Value>>, events: seq<Event>)

  /** How a run ends: still running (fell off the end), left the method,
      raised a JVM runtime exception, or was refused by the verifier or
      reached something this semantics does not cover. */
  datatype Outcome =
    | Running(st: State)
    | Returned(value: Value, st: State)
    | ReturnedVoid(st: State)
    | Threw(error: Value, st: State)
    | Fault(exception: string)
    | Stuck

  function Push(st: State, v: Value): State { st.(stack := st.stack + [v]) }

  function Top1(st: State): Value requires |st.stack| >= 1 { st.stack[|st.stack| - 1] }

  function Pop(st: State, n: nat): State requires |st.stack| >= n
  {
    st.(stack := st.stack[..|st.stack| - n])
  }

  /** A load of kind `k` from slot `s` is well typed in `locals`. */
  predicate Loadable(k: int, s: nat, locals: map<nat, Value>)
  {
    s in locals && KindFits(k, locals[s]) && (Wide(k) ==> s + 1 in locals && locals[s + 1] == Top)
  }

  function ExecLoad(k: int, s: nat, st: State): Outcome
  {
    if Loadable(k, s, st.locals) then Running(Push(st, st.locals[s])) else Stuck
  }

  /** The locals after storing `v`, of kind `k`, into slot `s`. */
  function StoreLocal(k: int, s: nat, v: Value, locals: map<nat, Value>): map<nat, Value>
  {
    if Wide(k) then locals[s := v][s + 1 := Top] else locals[s := v]
  }

  function ExecStore(k: int, s: nat, st: State): Outcome
  {
    if |st.stack| >= 1 && KindFits(k, Top1(st)) then
      Running(Pop(st, 1).(locals := StoreLocal(k, s, Top1(st), st.locals)))
    else Stuck
  }

  function ExecArrayStore(st: State): Outcome
  {
    if |st.stack| < 3 then Stuck
    else
      var n := |st.stack|;
      var arr, idx, v := st.stack[n - 3], st.stack[n - 2], st.stack[n - 1];
      if !idx.IntV? || !IsRef(v) then Stuck
      else if arr.NullV? then Fault("NullPointerException")
      else if !arr.ArrV? || arr.addr >= |st.heap| then Stuck
      else if idx.i < 0 || idx.i >= |st.heap[arr.addr]| then Fault("ArrayIndexOutOfBoundsException")
      else Running(Pop(st, 3).(heap := st.heap[arr.addr := st.heap[arr.addr][idx.i := v]]))
  }

  /** A fresh reference array of `n` elements. */
  function Nulls(n: nat): seq<Value> { seq(n, _ => NullV) }

  function ExecNewArray(st: State): Outcome
  {
    if |st.stack| < 1 || !Top1(st).IntV? then Stuck
    else if Top1(st).i < 0 then Fault("NegativeArraySizeException")
    else
      var n := Top1(st).i;
      Running(Push(Pop(st, 1).(heap := st.heap + [Nulls(n)]), ArrV(|st.heap|)))
  }

  /** A call: the context calls are recorded, `valueOf` boxes. A call with
      the wrong invoke opcode is refused by the verifier. */
  function ExecCall(i: Instr, st: State): Outcome
    requires i.MethodInsn?
  {
    var n := |st.stack|;
    match i.callee
    case CtxStartOn =>
      if i.opcode == INVOKESTATIC && n >= 3 && IsRef(st.stack[n - 3]) && st.stack[n - 2].StrV?
         && st.stack[n - 1].ArrV? && st.stack[n - 1].addr < |st.heap| then
        var e := Start(st.stack[n - 3], st.stack[n - 2].s, st.heap[st.stack[n - 1].addr]);
        Running(Push(Pop(st, 3).(events := st.events + [e]), CtxV(|st.events|)))
      else Stuck
    case CtxStop =>
      if i.opcode == INVOKEVIRTUAL && n >= 2 && st.stack[n - 2].CtxV? && IsRef(st.stack[n - 1]) then
        Running(Pop(st, 2).(events := st.events + [Stop(st.stack[n - 2], st.stack[n - 1])]))
      else Stuck
    case CtxStopWithException =>
      if i.opcode == INVOKEVIRTUAL && n >= 2 && st.stack[n - 2].CtxV? && IsRef(st.stack[n - 1]) then
        Running(Pop(st, 2).(events := st.events + [StopWithException(st.stack[n - 2], st.stack[n - 1])]))
      else Stuck
    case ValueOf(t) =>
      if i.opcode == INVOKESTATIC && IsPrimitive(t) && n >= 1 && Fits(t, Top1(st)) then
        Running(Push(Pop(st, 1), BoxedV(t, Top1(st))))
      else Stuck
  }

  /** One instruction. Jumps and unknown instructions are not covered. */
  function Exec(i: Instr, st: State): Outcome
  {
    match i
    case Insn(op) =>
      if op == ACONST_NULL then Running(Push(st, NullV))
      else if op == DUP then (if |st.stack| >= 1 then Running(Push(st, Top1(st))) else Stuck)
      else if op == AASTORE then ExecArrayStore(st)
      else if IRETURN <= op <= ARETURN then
        (if |st.stack| >= 1 && KindFits(op - IRETURN, Top1(st)) then Returned(Top1(st), Pop(st, 1)) else Stuck)
      else if op == RETURN then ReturnedVoid(st)
      else if op == ATHROW then
        (if |st.stack| < 1 || !IsRef(Top1(st)) then Stuck
         else if Top1(st).NullV? then Fault("NullPointerException")
         else Threw(Top1(st), Pop(st, 1)))
      else Stuck
    case IntInsn(op, n) => if op == BIPUSH then Running(Push(st, IntV(SignedByte(n)))) else Stuck
    case VarInsn(op, s) =>
      if ILOAD <= op <= ALOAD then ExecLoad(op - ILOAD, s, st)
      else if ISTORE <= op <= ASTORE then ExecStore(op - ISTORE, s, st)
      else Stuck
    case TypeInsn(op, _) => if op == ANEWARRAY then ExecNewArray(st) else Stuck
    case MethodInsn(_, _) => ExecCall(i, st)
    case Ldc(c) => Running(Push(st, StrV(c)))
    case JumpInsn(_, _) => Stuck
    case Mark(_) => Running(st)
    case Other(_) => Stuck
  }

  /** Continue with `code` if the run so far is still going. */
  function Then(o: Outcome, code: seq<Instr>): Outcome
    decreases |code|, 1
  {
    if o.Running? then Run(code, o.st) else o
  }

  /** Run a straight-line instruction sequence. */
  function Run(code: seq<Instr>, st: State): Outcome
    decreases |code|, 0
  {
    if |code| == 0 then Running(st) else Then(Exec(code[0], st), code[1..])
  }

  lemma RunCons(i: Instr, rest: seq<Instr>, st: State)
    ensures Run([i] + rest, st) == Then(Exec(i, st), rest)
  {
    assert ([i] + rest)[1..] == rest;
  }

  /** A one-instruction run is that instruction's step. */
  lemma Run1(i: Instr, st: State)
    ensures Run([i], st) == Exec(i, st)
  {
    assert [i][1..] == [];
    var o := Exec(i, st);
    if o.Running? {
      assert Run([], o.st) == Running(o.st);
    }
  }

  /** An instruction that keeps the run going hands the rest its state. */
  lemma RunStep(i: Instr, rest: seq<Instr>, st: State, st': State)
    requires Exec(i, st) == Running(st')
    ensures Run([i] + rest, st) == Run(rest, st')
  {
    RunCons(i, rest, st);
  }

  /** Running `a + b` runs `a`, then `b` from where `a` left off. */
  lemma {:induction false} RunAppend(a: seq<Instr>, b: seq<Instr>, st: State)
    ensures Run(a + b, st) == Then(Run(a, st), b)
    decreases |a|
  {
    if |a| == 0 {
      assert a + b == b;
    } else {
      assert (a + b)[0] == a[0];
      assert (a + b)[1..] == a[1..] + b;
      var o := Exec(a[0], st);
      if o.Running? {
        RunAppend(a[1..], b, o.st);
      }
    }
  }

  /** Storing into `s` makes it loadable with the stored value and keeps
      every slot below it. */
  lemma StoreLocalFacts(k: int, s: nat, v: Value, locals: map<nat, Value>, j: nat)
    requires KindFits(k, v) && j < s && j in locals
    ensures Loadable(k, s, StoreLocal(k, s, v, locals)) && StoreLocal(k, s, v, locals)[s] == v
    ensures j in StoreLocal(k, s, v, locals) && StoreLocal(k, s, v, locals)[j] == locals[j]
  {
  }
}
