/**
 * The part of the JVM class-file vocabulary the weaver reads and emits:
 * opcodes, access flags, value types (as ASM's `Type` presents them) and an
 * abstract instruction stream with labels and exception-table entries.
 */
module Jvm {
  import Text

  // Opcodes, with their values from the class-file format.
  const ACONST_NULL: int := 1
  const BIPUSH: int := 16
  const ILOAD: int := 21
  const LLOAD: int := 22
  const FLOAD: int := 23
  const DLOAD: int := 24
  const ALOAD: int := 25
  const ISTORE: int := 54
  const LSTORE: int := 55
  const FSTORE: int := 56
  const DSTORE: int := 57
  const ASTORE: int := 58
  const AASTORE: int := 83
  const DUP: int := 89
  const IRETURN: int := 172
  const LRETURN: int := 173
  const FRETURN: int := 174
  const DRETURN: int := 175
  const ARETURN: int := 176
  const RETURN: int := 177
  const INVOKEVIRTUAL: int := 182
  const INVOKESTATIC: int := 184
  const ANEWARRAY: int := 189
  const ATHROW: int := 191

  // Access flags (java.lang.reflect.Modifier).
  const ACC_STATIC: bv32 := 0x0008
  const ACC_NATIVE: bv32 := 0x0100
  const ACC_ABSTRACT: bv32 := 0x0400

  predicate IsStatic(access: bv32) { access & ACC_STATIC != 0 }
  predicate IsNative(access: bv32) { access & ACC_NATIVE != 0 }
  predicate IsAbstract(access: bv32) { access & ACC_ABSTRACT != 0 }

  /** A value type as ASM's `Type` describes it; `Ref` carries the internal
      (slash-separated) class name. */
  datatype JType =
    | VoidT | BooleanT | ByteT | CharT | ShortT | IntT | LongT | FloatT | DoubleT
    | Ref(internalName: string)
    | ArrayOf(elem: JType)

  predicate IsPrimitive(t: JType)
  {
    t.BooleanT? || t.ByteT? || t.CharT? || t.ShortT? || t.IntT? || t.LongT? || t.FloatT? || t.DoubleT?
  }

  /** `Type.getClassName()`: the Java source name of the type. */
  function ClassName(t: JType): string
  {
    match t
    case VoidT => "void"
    case BooleanT => "boolean"
    case ByteT => "byte"
    case CharT => "char"
    case ShortT => "short"
    case IntT => "int"
    case LongT => "long"
    case FloatT => "float"
    case DoubleT => "double"
    case Ref(n) => Text.Replace(n, '/', '.')
    case ArrayOf(e) => ClassName(e) + "[]"
  }

  function ClassNames(ts: seq<JType>): (r: seq<string>)
    ensures |r| == |ts|
    ensures forall i :: 0 <= i < |ts| ==> r[i] == ClassName(ts[i])
  {
    if |ts| == 0 then [] else [ClassName(ts[0])] + ClassNames(ts[1..])
  }

  /** Number of local-variable slots a value of the type occupies. */
  function Size(t: JType): nat
  {
    match t
    case VoidT => 0
    case LongT => 2
    case DoubleT => 2
    case _ => 1
  }

  /** The load opcode for a value of type `t`: ILOAD for the int-like kinds,
      LLOAD, FLOAD, DLOAD for the wide and floating kinds, ALOAD for every
      reference type. No parameter or saved return value has type void. */
  function LoadOpcode(t: JType): (op: int)
    ensures ILOAD <= op <= ALOAD
    ensures op == ALOAD <==> !IsPrimitive(t)
    ensures op == LLOAD || op == DLOAD <==> Size(t) == 2
  {
    match t
    case BooleanT => ILOAD
    case ByteT => ILOAD
    case CharT => ILOAD
    case ShortT => ILOAD
    case IntT => ILOAD
    case LongT => LLOAD
    case FloatT => FLOAD
    case DoubleT => DLOAD
    case _ => ALOAD
  }

  /** The store opcode matching `LoadOpcode`. */
  function StoreOpcode(t: JType): (op: int)
    ensures op == LoadOpcode(t) + (ISTORE - ILOAD)
  {
    match t
    case BooleanT => ISTORE
    case ByteT => ISTORE
    case CharT => ISTORE
    case ShortT => ISTORE
    case IntT => ISTORE
    case LongT => LSTORE
    case FloatT => FSTORE
    case DoubleT => DSTORE
    case _ => ASTORE
  }

  /** The return opcode a method returning `t` ends with. */
  function ReturnOpcode(t: JType): (op: int)
    ensures IRETURN <= op <= RETURN
    ensures op == RETURN <==> t == VoidT
    ensures t != VoidT ==> op - IRETURN == LoadOpcode(t) - ILOAD
  {
    match t
    case VoidT => RETURN
    case LongT => LRETURN
    case FloatT => FRETURN
    case DoubleT => DRETURN
    case Ref(_) => ARETURN
    case ArrayOf(_) => ARETURN
    case _ => IRETURN
  }

  predicate IsReturnOpcode(op: int) { IRETURN <= op <= RETURN }

  /** Labels: those of the original body, and the three fresh labels one
      weaving adapter creates (each `new Label()` is distinct from every other). */
  datatype LabelId = Orig(n: nat) | TryStart | EndLabel | CatchLabel

  /** The methods the woven code calls, named symbolically: `startOn`,
      `stop` and `stopWithException` of the agent context, and the boxing
      `valueOf` of a primitive type's wrapper class. Their owners, names and
      descriptors are given in `Advice`. Any other call of the original body
      is an `Other` instruction. */
  datatype MethodRef = CtxStartOn | CtxStop | CtxStopWithException | ValueOf(boxed: JType)

  /** One event of a method visitor's instruction stream. */
  datatype Instr =
    | Insn(opcode: int)                                    // no operand
    | IntInsn(opcode: int, operand: int)                   // BIPUSH and friends
    | VarInsn(opcode: int, slot: nat)                      // loads and stores of locals
    | TypeInsn(opcode: int, typeName: string)              // ANEWARRAY and friends
    | MethodInsn(opcode: int, callee: MethodRef)
    | Ldc(cst: string)                                     // a string constant
    | JumpInsn(opcode: int, target: LabelId)
    | Mark(at: LabelId)                                    // visitLabel
    | Other(id: int)                                       // anything else, passed through

  /** A return instruction ends the method normally; `ATHROW` is not one. */
  predicate IsReturn(i: Instr) { i.Insn? && IsReturnOpcode(i.opcode) }

  /** An exception-table entry: handler for `exType` over `[start, end)`. */
  datatype TryCatch = TryCatch(start: LabelId, end: LabelId, handler: LabelId, exType: string)

  /** A method body as a visitor receives it. */
  datatype Code = Code(instrs: seq<Instr>, handlers: seq<TryCatch>)

  /** A method as the class reader presents it: access flags, name, the
      argument and return types of its descriptor, and its body. */
  datatype MethodInfo = MethodInfo(access: bv32, name: string, args: seq<JType>, ret: JType, code: Code)

  lemma AppendAssoc<T>(a: seq<T>, b: seq<T>, c: seq<T>)
    ensures (a + b) + c == a + (b + c)
  {
  }

  lemma EmptyAppend<T>(a: seq<T>)
    ensures [] + a == a
  {
  }

  /** Number of occurrences of `x` among the first `n` elements of `s`. */
  function CountTo(s: seq<Instr>, n: nat, x: Instr): nat
    requires n <= |s|
  {
    if n == 0 then 0 else CountTo(s, n - 1, x) + (if s[n - 1] == x then 1 else 0)
  }

  /** Number of occurrences of `x` in `s`. */
  function Count(s: seq<Instr>, x: Instr): nat
  {
    CountTo(s, |s|, x)
  }

  /** Sequences that agree on their first `n` elements count the same there. */
  lemma {:induction false} CountToAgree(s: seq<Instr>, t: seq<Instr>, n: nat, x: Instr)
    requires n <= |s| && n <= |t| && s[..n] == t[..n]
    ensures CountTo(s, n, x) == CountTo(t, n, x)
    decreases n
  {
    if n > 0 {
      assert s[n - 1] == s[..n][n - 1] && t[n - 1] == t[..n][n - 1];
      assert s[..n - 1] == s[..n][..n - 1] && t[..n - 1] == t[..n][..n - 1];
      CountToAgree(s, t, n - 1, x);
    }
  }

  lemma {:induction false} CountToAppend(a: seq<Instr>, b: seq<Instr>, k: nat, x: Instr)
    requires k <= |b|
    ensures CountTo(a + b, |a| + k, x) == Count(a, x) + CountTo(b, k, x)
    decreases k
  {
    if k == 0 {
      assert (a + b)[..|a|] == a[..|a|];
      CountToAgree(a + b, a, |a|, x);
    } else {
      CountToAppend(a, b, k - 1, x);
      assert (a + b)[|a| + k - 1] == b[k - 1];
    }
  }

  lemma CountAppend(a: seq<Instr>, b: seq<Instr>, x: Instr)
    ensures Count(a + b, x) == Count(a, x) + Count(b, x)
  {
    CountToAppend(a, b, |b|, x);
  }

  lemma {:induction false} CountToAbsent(s: seq<Instr>, n: nat, x: Instr)
    requires n <= |s| && x !in s
    ensures CountTo(s, n, x) == 0
    decreases n
  {
    if n > 0 {
      CountToAbsent(s, n - 1, x);
    }
  }

  lemma CountAbsent(s: seq<Instr>, x: Instr)
    requires x !in s
    ensures Count(s, x) == 0
  {
    CountToAbsent(s, |s|, x);
  }

  lemma CountSingle(i: Instr, x: Instr)
    ensures Count([i], x) == if i == x then 1 else 0
  {
    assert CountTo([i], 0, x) == 0;
  }

  lemma CountCons(i: Instr, s: seq<Instr>, x: Instr)
    ensures Count([i] + s, x) == (if i == x then 1 else 0) + Count(s, x)
  {
    CountAppend([i], s, x);
    CountSingle(i, x);
  }

  /** The last instruction and the rest. */
  lemma CountSnoc(s: seq<Instr>, i: Instr, x: Instr)
    ensures Count(s + [i], x) == Count(s, x) + (if i == x then 1 else 0)
  {
    CountAppend(s, [i], x);
    CountSingle(i, x);
  }

  /** Number of return instructions among the first `n` elements of `s`. */
  function ReturnsTo(s: seq<Instr>, n: nat): nat
    requires n <= |s|
  {
    if n == 0 then 0 else ReturnsTo(s, n - 1) + (if IsReturn(s[n - 1]) then 1 else 0)
  }

  /** Number of return instructions in `s`. */
  function ReturnCount(s: seq<Instr>): nat
  {
    ReturnsTo(s, |s|)
  }
}
