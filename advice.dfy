/**
 * The method-body rewriter: `SironaAdviceAdapter`, an ASM `AdviceAdapter`
 * that wraps one method with calls into the monitoring context.
 *
 * The first half of the module gives, as functions, the instruction
 * sequences the adapter emits (entry prefix, exit before each return,
 * the appended exception handler) and the whole woven body; the class that
 * follows emits them step by step as the source does, and its methods are
 * proved against those functions.
 *
 * The adapter protocol of ASM is taken as given: `onMethodEnter` runs when
 * the body starts, `onMethodExit(op)` runs just before every `*RETURN` and
 * `ATHROW`, `visitMaxs` runs after the last instruction, and `newLocal`
 * hands out the next free local slot.
 */
module Advice {
  import opened Jvm

  /** `Integer.MIN_VALUE`: the exit "opcode" the adapter passes for the
      exceptional exit. */
  const MIN_VALUE: int := -0x8000_0000

  const AGENT_CONTEXT: string := "org/apache/sirona/javaagent/AgentContext"
  const THROWABLE: string := "java/lang/Throwable"
  const OBJECT: string := "java/lang/Object"

  /** The class a called method belongs to. */
  function Owner(m: MethodRef): string
  {
    match m
    case ValueOf(t) => BoxOwner(t)
    case _ => AGENT_CONTEXT
  }

  function MethodName(m: MethodRef): string
  {
    match m
    case CtxStartOn => "startOn"
    case CtxStop => "stop"
    case CtxStopWithException => "stopWithException"
    case ValueOf(_) => "valueOf"
  }

  function Descriptor(m: MethodRef): string
  {
    match m
    case CtxStartOn => "(Ljava/lang/Object;Ljava/lang/String;[Ljava/lang/Object;)Lorg/apache/sirona/javaagent/AgentContext;"
    case CtxStop => "(Ljava/lang/Object;)V"
    case CtxStopWithException => "(Ljava/lang/Throwable;)V"
    case ValueOf(t) => BoxDesc(t)
  }

  /** The method references the weaver emits: the three context calls and
      the boxing call of a primitive type. */
  predicate Emitted(m: MethodRef)
  {
    m.ValueOf? ==> IsPrimitive(m.boxed)
  }

  /** The descriptor letter of a primitive type. */
  function TypeLetter(t: JType): char
  {
    match t
    case BooleanT => 'Z'
    case ByteT => 'B'
    case CharT => 'C'
    case ShortT => 'S'
    case IntT => 'I'
    case LongT => 'J'
    case FloatT => 'F'
    case DoubleT => 'D'
    case _ => 'V'
  }

  /** The descriptor of `valueOf` takes the primitive's letter. */
  lemma BoxDescLetter(t: JType)
    requires IsPrimitive(t)
    ensures |BoxDesc(t)| > 1 && BoxDesc(t)[1] == TypeLetter(t)
  {
  }

  /** Two emitted references name the same method exactly when they are the
      same reference, so naming them symbolically loses nothing. */
  lemma SignatureIdentifies(m1: MethodRef, m2: MethodRef)
    requires Emitted(m1) && Emitted(m2)
    ensures (Owner(m1), MethodName(m1), Descriptor(m1)) == (Owner(m2), MethodName(m2), Descriptor(m2)) <==> m1 == m2
  {
    if m1 != m2 {
      if m1.ValueOf? && m2.ValueOf? {
        BoxDescLetter(m1.boxed);
        BoxDescLetter(m2.boxed);
        assert TypeLetter(m1.boxed) != TypeLetter(m2.boxed);
      } else if m1.ValueOf? || m2.ValueOf? {
        assert MethodName(m1)[0] != MethodName(m2)[0];
      } else {
        assert |MethodName(m1)| != |MethodName(m2)|;
      }
    }
  }

  /** `AgentContext.startOn(Object, String, Object[])`. */
  const StartCall: Instr := MethodInsn(INVOKESTATIC, CtxStartOn)
  /** `context.stop(Object)`. */
  const StopCall: Instr := MethodInsn(INVOKEVIRTUAL, CtxStop)
  /** `context.stopWithException(Throwable)`. */
  const StopWithExceptionCall: Instr := MethodInsn(INVOKEVIRTUAL, CtxStopWithException)

  /** The single exception-table entry a woven method gains: any `Throwable`
      raised in `[tryStart, endLabel)` goes to the appended handler. */
  const ProtectedRegion: TryCatch := TryCatch(TryStart, EndLabel, CatchLabel, THROWABLE)

  /** The boxing call for a primitive type (`Integer.valueOf(int)` and so on);
      nothing for a reference type, which is stored as it is. */
  function BoxCall(t: JType): seq<Instr>
  {
    if IsPrimitive(t) then [MethodInsn(INVOKESTATIC, ValueOf(t))] else []
  }

  /** The wrapper class of a primitive type. */
  function BoxOwner(t: JType): string
  {
    match t
    case BooleanT => "java/lang/Boolean"
    case ByteT => "java/lang/Byte"
    case CharT => "java/lang/Character"
    case ShortT => "java/lang/Short"
    case IntT => "java/lang/Integer"
    case LongT => "java/lang/Long"
    case FloatT => "java/lang/Float"
    case DoubleT => "java/lang/Double"
    case _ => OBJECT
  }

  /** The descriptor of the wrapper's `valueOf` for a primitive type. */
  function BoxDesc(t: JType): string
  {
    match t
    case BooleanT => "(Z)Ljava/lang/Boolean;"
    case ByteT => "(B)Ljava/lang/Byte;"
    case CharT => "(C)Ljava/lang/Character;"
    case ShortT => "(S)Ljava/lang/Short;"
    case IntT => "(I)Ljava/lang/Integer;"
    case LongT => "(J)Ljava/lang/Long;"
    case FloatT => "(F)Ljava/lang/Float;"
    case DoubleT => "(D)Ljava/lang/Double;"
    case _ => ""
  }

  /** Total number of slots the parameters occupy. */
  function ArgsSize(args: seq<JType>): nat
  {
    if |args| == 0 then 0 else Size(args[0]) + ArgsSize(args[1..])
  }

  /** The first slot after the receiver and the parameters: where `newLocal`
      starts handing out slots. */
  function FirstLocal(isStatic: bool, args: seq<JType>): nat
  {
    (if isStatic then 0 else 1) + ArgsSize(args)
  }

  /** The slot the adapter loads parameter `i` from: `i`, shifted by one for
      the receiver of an instance method. The width of the parameters before
      `i` is not taken into account. */
  function ArgSlot(isStatic: bool, i: nat): nat
  {
    i + (if isStatic then 0 else 1)
  }

  /** Store parameter `i` (of type `t`) into element `i` of the array on top
      of the stack. */
  function ArgStore(t: JType, i: nat, slot: nat): seq<Instr>
  {
    [Insn(DUP), IntInsn(BIPUSH, i), VarInsn(LoadOpcode(t), slot)] + BoxCall(t) + [Insn(AASTORE)]
  }

  /** The element stores for the first `n` parameters, in increasing
      parameter order. */
  function ArgStores(isStatic: bool, args: seq<JType>, n: nat): seq<Instr>
    requires n <= |args|
  {
    if n == 0 then [] else ArgStores(isStatic, args, n - 1) + ArgStore(args[n - 1], n - 1, ArgSlot(isStatic, n - 1))
  }

  /** Receiver (or null), label, and a new `Object[]` of `n` elements. */
  function EntryHead(isStatic: bool, methodLabel: string, n: nat): seq<Instr>
  {
    [if isStatic then Insn(ACONST_NULL) else VarInsn(ALOAD, 0),
     Ldc(methodLabel), IntInsn(BIPUSH, n), TypeInsn(ANEWARRAY, OBJECT)]
  }

  /** The code placed before the original body: build the arguments of
      `startOn`, call it, keep the context in `ctx`, open the protected region. */
  function EntryPrefix(isStatic: bool, methodLabel: string, args: seq<JType>, ctx: nat): seq<Instr>
  {
    EntryHead(isStatic, methodLabel, |args|) + ArgStores(isStatic, args, |args|)
    + [StartCall, VarInsn(ASTORE, ctx), Mark(TryStart)]
  }

  /** The code placed before a return of a method returning `ret`; `slot` is
      the fresh local holding the return value. */
  function ReturnExit(ret: JType, ctx: nat, slot: nat): seq<Instr>
  {
    if ret == VoidT then
      [VarInsn(ALOAD, ctx), Insn(ACONST_NULL), StopCall]
    else if IsPrimitive(ret) then
      [VarInsn(StoreOpcode(ret), slot), VarInsn(ALOAD, ctx), VarInsn(LoadOpcode(ret), slot),
       MethodInsn(INVOKESTATIC, ValueOf(ret)), StopCall, VarInsn(LoadOpcode(ret), slot)]
    else
      [VarInsn(ASTORE, slot), VarInsn(ALOAD, ctx), VarInsn(ALOAD, slot), StopCall, VarInsn(ALOAD, slot)]
  }

  /** The exceptional exit: save the throwable, report it, reload it. */
  function ThrowableExit(ctx: nat, slot: nat): seq<Instr>
  {
    [VarInsn(ASTORE, slot), VarInsn(ALOAD, ctx), VarInsn(ALOAD, slot), StopWithExceptionCall, VarInsn(ALOAD, slot)]
  }

  /** What `onMethodExit(opcode)` emits, `slot` being the next free local. */
  function ExitCode(opcode: int, ret: JType, ctx: nat, slot: nat): seq<Instr>
  {
    if opcode == ATHROW then []
    else if opcode != MIN_VALUE then ReturnExit(ret, ctx, slot)
    else ThrowableExit(ctx, slot)
  }

  /** How many slots `onMethodExit(opcode)` allocates. */
  function ExitLocals(opcode: int, ret: JType): nat
  {
    if opcode == ATHROW then 0
    else if opcode != MIN_VALUE then Size(ret)
    else 1
  }

  /** The instructions a visited original instruction turns into: a return
      gets the exit code in front of it; every other instruction, `ATHROW`
      included, is passed on alone. */
  function Step(i: Instr, ret: JType, ctx: nat, slot: nat): seq<Instr>
  {
    if IsReturn(i) then ReturnExit(ret, ctx, slot) + [i] else [i]
  }

  /** Local slots taken by the exits woven into the first `n` instructions
      of `body`: one return value (of `Size(ret)` slots) per return. */
  function ExitSlots(ret: JType, body: seq<Instr>, n: nat): nat
    requires n <= |body|
  {
    if n == 0 then 0 else ExitSlots(ret, body, n - 1) + (if IsReturn(body[n - 1]) then Size(ret) else 0)
  }

  /** The first `n` original instructions with the exit code woven in;
      `next` is the first local slot free after the context slot. */
  function Rewrite(ret: JType, ctx: nat, next: nat, body: seq<Instr>, n: nat): seq<Instr>
    requires n <= |body|
  {
    if n == 0 then []
    else Rewrite(ret, ctx, next, body, n - 1) + Step(body[n - 1], ret, ctx, next + ExitSlots(ret, body, n - 1))
  }

  /** Rewriting one more instruction appends its step, at the slot that
      follows the locals taken by the exits before it. */
  lemma RewriteNext(ret: JType, ctx: nat, next: nat, body: seq<Instr>, n: nat, pre: seq<Instr>, r: seq<Instr>)
    requires n < |body|
    requires r == (pre + Rewrite(ret, ctx, next, body, n)) + Step(body[n], ret, ctx, next + ExitSlots(ret, body, n))
    ensures r == pre + Rewrite(ret, ctx, next, body, n + 1)
  {
    AppendAssoc(pre, Rewrite(ret, ctx, next, body, n), Step(body[n], ret, ctx, next + ExitSlots(ret, body, n)));
  }

  /** The code appended after the last original instruction: the end of the
      protected region, then its handler. */
  function HandlerCode(ctx: nat, slot: nat): seq<Instr>
  {
    [Mark(EndLabel), Mark(CatchLabel)] + ThrowableExit(ctx, slot) + [Insn(ATHROW)]
  }

  /** The instruction stream of a woven method whose context local is `ctx`
      (the first slot after the parameters). */
  function WovenInstrs(isStatic: bool, methodLabel: string, args: seq<JType>, ret: JType, body: seq<Instr>, ctx: nat)
    : seq<Instr>
  {
    EntryPrefix(isStatic, methodLabel, args, ctx)
    + Rewrite(ret, ctx, ctx + 1, body, |body|)
    + HandlerCode(ctx, ctx + 1 + ExitSlots(ret, body, |body|))
  }

  /** A woven method body: the woven stream, and the original exception
      table followed by the protected region. */
  function WovenCode(isStatic: bool, methodLabel: string, args: seq<JType>, ret: JType, body: Code): Code
  {
    Code(WovenInstrs(isStatic, methodLabel, args, ret, body.instrs, FirstLocal(isStatic, args)),
         body.handlers + [ProtectedRegion])
  }

  class SironaAdviceAdapter {
    const isStatic: bool
    const methodLabel: string
    const args: seq<JType>
    const ret: JType
    /** The first slot after the receiver and the parameters. */
    const firstLocal: nat
    /** Slot of the monitoring context, set by `OnMethodEnter`. */
    var ctxLocal: nat
    /** The next slot `NewLocal` hands out. */
    var nextLocal: nat
    /** What has been emitted to the downstream visitor. */
    var code: seq<Instr>
    var handlers: seq<TryCatch>

    constructor (access: bv32, methodLabel: string, args: seq<JType>, ret: JType)
      ensures isStatic == IsStatic(access) && this.methodLabel == methodLabel && this.args == args && this.ret == ret
      ensures firstLocal == FirstLocal(isStatic, args)
      ensures ctxLocal == 0 && nextLocal == firstLocal
      ensures code == [] && handlers == []
    {
      this.isStatic := IsStatic(access);
      this.methodLabel := methodLabel;
      this.args := args;
      this.ret := ret;
      firstLocal := FirstLocal(IsStatic(access), args);
      ctxLocal := 0;
      nextLocal := FirstLocal(IsStatic(access), args);
      code := [];
      handlers := [];
    }

    /** A fresh local for a value of type `t`. */
    method NewLocal(t: JType) returns (slot: nat)
      modifies this`nextLocal
      ensures slot == old(nextLocal) && nextLocal == old(nextLocal) + Size(t)
    {
      slot := nextLocal;
      nextLocal := nextLocal + Size(t);
    }

    /** One element store of `onMethodEnter`'s loop: box parameter `i` of
        type `tp`, read from `slot`, into element `i` of the array. */
    method EmitArgStore(tp: JType, i: nat, slot: nat)
      modifies this`code
      ensures code == old(code) + ArgStore(tp, i, slot)
    {
      code := code + [Insn(DUP), IntInsn(BIPUSH, i)];
      match tp {
        case BooleanT =>
          code := code + [VarInsn(ILOAD, slot), MethodInsn(INVOKESTATIC, ValueOf(BooleanT))];
        case ByteT =>
          code := code + [VarInsn(ILOAD, slot), MethodInsn(INVOKESTATIC, ValueOf(ByteT))];
        case CharT =>
          code := code + [VarInsn(ILOAD, slot), MethodInsn(INVOKESTATIC, ValueOf(CharT))];
        case ShortT =>
          code := code + [VarInsn(ILOAD, slot), MethodInsn(INVOKESTATIC, ValueOf(ShortT))];
        case IntT =>
          code := code + [VarInsn(ILOAD, slot), MethodInsn(INVOKESTATIC, ValueOf(IntT))];
        case LongT =>
          code := code + [VarInsn(LLOAD, slot), MethodInsn(INVOKESTATIC, ValueOf(LongT))];
        case FloatT =>
          code := code + [VarInsn(FLOAD, slot), MethodInsn(INVOKESTATIC, ValueOf(FloatT))];
        case DoubleT =>
          code := code + [VarInsn(DLOAD, slot), MethodInsn(INVOKESTATIC, ValueOf(DoubleT))];
        case _ =>
          code := code + [VarInsn(ALOAD, slot)];
      }
      code := code + [Insn(AASTORE)];
    }

    /** The receiver (or null), the label and the new argument array. */
    method EmitEntryHead()
      modifies this`code
      ensures code == old(code) + EntryHead(isStatic, methodLabel, |args|)
    {
      if isStatic {
        code := code + [Insn(ACONST_NULL)];
      } else {
        code := code + [VarInsn(ALOAD, 0)];
      }
      code := code + [Ldc(methodLabel)];
      var length := |args|;
      code := code + [IntInsn(BIPUSH, length)];
      code := code + [TypeInsn(ANEWARRAY, OBJECT)];
    }

    /** The element stores, parameter by parameter. */
    method EmitArgStores()
      modifies this`code
      ensures code == old(code) + ArgStores(isStatic, args, |args|)
    {
      var start := code;
      var length := |args|;
      var i := 0;
      while i < length
        invariant 0 <= i <= length
        invariant code == start + ArgStores(isStatic, args, i)
      {
        var slot := i + (if isStatic then 0 else 1);
        AppendAssoc(start, ArgStores(isStatic, args, i), ArgStore(args[i], i, slot));
        EmitArgStore(args[i], i, slot);
        i := i + 1;
      }
    }

    method OnMethodEnter()
      modifies this`code, this`ctxLocal, this`nextLocal
      ensures ctxLocal == old(nextLocal) && nextLocal == old(nextLocal) + 1
      ensures code == old(code) + EntryPrefix(isStatic, methodLabel, args, ctxLocal)
    {
      var start := code;
      EmitEntryHead();
      ghost var head := EntryHead(isStatic, methodLabel, |args|);
      EmitArgStores();
      AppendAssoc(start, head, ArgStores(isStatic, args, |args|));
      ghost var body := head + ArgStores(isStatic, args, |args|);
      ctxLocal := NewLocal(Ref(AGENT_CONTEXT));
      code := code + [StartCall];
      code := code + [VarInsn(ASTORE, ctxLocal)];
      code := code + [Mark(TryStart)];
      AppendAssoc(start, body, [StartCall, VarInsn(ASTORE, ctxLocal), Mark(TryStart)]);
    }

    method OnMethodExit(opcode: int)
      modifies this`code, this`nextLocal
      ensures code == old(code) + ExitCode(opcode, ret, ctxLocal, old(nextLocal))
      ensures nextLocal == old(nextLocal) + ExitLocals(opcode, ret)
    {
      if opcode == ATHROW {
        return;
      }
      var stateLocal: int := -1;
      var stateType := ret;
      if opcode != MIN_VALUE {
        var isVoid := ret == VoidT;
        if !isVoid {
          var s := NewLocal(ret);
          stateLocal := s;
          code := code + [VarInsn(StoreOpcode(ret), s)];
        }
      } else {
        stateType := Ref(THROWABLE);
        var s := NewLocal(stateType);
        stateLocal := s;
        code := code + [VarInsn(ASTORE, s)];
      }
      assert stateLocal == -1 <==> opcode != MIN_VALUE && ret == VoidT;
      assert stateLocal != -1 ==> stateLocal == old(nextLocal) && LoadOpcode(stateType) == (if opcode != MIN_VALUE then LoadOpcode(ret) else ALOAD);
      code := code + [VarInsn(ALOAD, ctxLocal)];
      if stateLocal != -1 {
        code := code + [VarInsn(LoadOpcode(stateType), stateLocal)];
        if opcode != MIN_VALUE {
          code := code + BoxCall(ret);
        }
      } else {
        code := code + [Insn(ACONST_NULL)];
      }
      if opcode != MIN_VALUE {
        code := code + [StopCall];
      } else {
        code := code + [StopWithExceptionCall];
      }
      if stateLocal != -1 {
        code := code + [VarInsn(LoadOpcode(stateType), stateLocal)];
      }
      ghost var c0, ctx, slot := old(code), ctxLocal, old(nextLocal);
      if opcode == MIN_VALUE {
        assert code == c0 + ThrowableExit(ctx, slot);
      } else if ret == VoidT {
        assert code == c0 + [VarInsn(ALOAD, ctx), Insn(ACONST_NULL), StopCall];
      } else if IsPrimitive(ret) {
        assert code == c0 + [VarInsn(StoreOpcode(ret), slot), VarInsn(ALOAD, ctx), VarInsn(LoadOpcode(ret), slot),
                             MethodInsn(INVOKESTATIC, ValueOf(ret)), StopCall, VarInsn(LoadOpcode(ret), slot)];
      } else {
        assert code == c0 + [VarInsn(ASTORE, slot), VarInsn(ALOAD, ctx), VarInsn(ALOAD, slot), StopCall, VarInsn(ALOAD, slot)];
      }
    }

    /** One instruction of the original body, as `AdviceAdapter` forwards it. */
    method Visit(i: Instr)
      modifies this`code, this`nextLocal
      ensures code == old(code) + Step(i, ret, ctxLocal, old(nextLocal))
      ensures nextLocal == old(nextLocal) + (if IsReturn(i) then Size(ret) else 0)
    {
      if i.Insn? && (IsReturnOpcode(i.opcode) || i.opcode == ATHROW) {
        OnMethodExit(i.opcode);
      }
      code := code + [i];
    }

    /** An exception-table entry of the original body, passed through. */
    method VisitTryCatchBlock(tc: TryCatch)
      modifies this`handlers
      ensures handlers == old(handlers) + [tc]
    {
      handlers := handlers + [tc];
    }

    /** End of the body: close the protected region and append its handler. */
    method VisitMaxs()
      modifies this`code, this`handlers, this`nextLocal
      ensures code == old(code) + HandlerCode(ctxLocal, old(nextLocal))
      ensures handlers == old(handlers) + [ProtectedRegion]
      ensures nextLocal == old(nextLocal) + 1
    {
      code := code + [Mark(EndLabel)];
      // catchException(tryStart, endLabel, Throwable): the table entry, then the handler's label
      handlers := handlers + [TryCatch(TryStart, EndLabel, CatchLabel, THROWABLE)];
      code := code + [Mark(CatchLabel)];
      OnMethodExit(MIN_VALUE);
      // throwException()
      code := code + [Insn(ATHROW)];
    }

    /** The exception table of the original body, entry by entry. */
    method VisitTryCatchBlocks(hs: seq<TryCatch>)
      modifies this`handlers
      ensures handlers == old(handlers) + hs
    {
      var j := 0;
      while j < |hs|
        invariant 0 <= j <= |hs|
        invariant handlers == old(handlers) + hs[..j]
      {
        VisitTryCatchBlock(hs[j]);
        assert hs[..j + 1] == hs[..j] + [hs[j]];
        j := j + 1;
      }
      assert hs[..j] == hs;
    }

    /** The instructions of the original body, in order. */
    method VisitInstrs(instrs: seq<Instr>)
      modifies this`code, this`nextLocal
      ensures code == old(code) + Rewrite(ret, ctxLocal, old(nextLocal), instrs, |instrs|)
      ensures nextLocal == old(nextLocal) + ExitSlots(ret, instrs, |instrs|)
    {
      ghost var base, start, ctx := nextLocal, code, ctxLocal;
      var i := 0;
      while i < |instrs|
        invariant 0 <= i <= |instrs|
        invariant nextLocal == base + ExitSlots(ret, instrs, i)
        invariant code == start + Rewrite(ret, ctx, base, instrs, i)
      {
        Visit(instrs[i]);
        RewriteNext(ret, ctx, base, instrs, i, start, code);
        i := i + 1;
      }
    }

    /** The class reader's walk over one method body: `visitCode` (which runs
        `onMethodEnter`), the exception table, the instructions, `visitMaxs`. */
    method Accept(body: Code)
      requires code == [] && handlers == [] && nextLocal == firstLocal
      modifies this`code, this`handlers, this`nextLocal, this`ctxLocal
      ensures code == WovenInstrs(isStatic, methodLabel, args, ret, body.instrs, firstLocal)
      ensures handlers == body.handlers + [ProtectedRegion]
      ensures nextLocal == firstLocal + 1 + ExitSlots(ret, body.instrs, |body.instrs|) + 1
    {
      OnMethodEnter();
      EmptyAppend(EntryPrefix(isStatic, methodLabel, args, ctxLocal));
      VisitTryCatchBlocks(body.handlers);
      EmptyAppend(body.handlers);
      VisitInstrs(body.instrs);
      VisitMaxs();
    }
  }
}
