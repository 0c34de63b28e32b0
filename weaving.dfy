/**
 * Structural facts about a woven method body: the original instructions
 * survive in order, an exit sits right before each return and nowhere
 * else, `startOn` and `stopWithException` occur once more than in the
 * original, `stop` once more per return and each adapter label once,
 * every original instruction lies inside the protected region and the
 * handler lies outside it, and the locals the exits take never overlap.
 */
module Weaving {
  import opened Jvm
  import opened Advice

  // ----- Sequence helpers -----

  lemma LastOf<T>(a: seq<T>, b: seq<T>, y: T)
    requires |b| > 0 && b[|b| - 1] == y
    ensures (a + b)[|a + b| - 1] == y
  {
  }

  lemma PrefixOfAppend<T>(a: seq<T>, b: seq<T>, q: seq<T>)
    requires |q| <= |a| && a[..|q|] == q
    ensures |q| <= |a + b| && (a + b)[..|q|] == q
  {
    assert (a + b)[..|q|] == a[..|q|];
  }

  lemma IndexInPrefix<T>(r: seq<T>, q: seq<T>, j: int)
    requires |q| <= |r| && r[..|q|] == q && 0 <= j < |q|
    ensures r[j] == q[j]
  {
    assert r[j] == r[..|q|][j];
  }

  lemma SliceInPrefix<T>(r: seq<T>, q: seq<T>, e: seq<T>, i: int, j: int)
    requires |q| <= |r| && r[..|q|] == q && 0 <= i <= j < |q| && q[i..j] == e
    ensures j < |r| && r[i..j] == e
  {
    assert r[i..j] == r[..|q|][i..j];
  }

  lemma MiddleIndex<T>(w: seq<T>, a: seq<T>, r: seq<T>, c: seq<T>, i: int, y: T)
    requires w == a + r + c && 0 <= i < |r| && r[i] == y
    ensures |a| <= |a| + i < |a| + |r| && w[|a| + i] == y
  {
    assert w[|a| + i] == (a + r)[|a| + i];
  }

  // ----- Where the original instructions end up -----

  lemma StepLast(i: Instr, ret: JType, ctx: nat, slot: nat)
    ensures |Step(i, ret, ctx, slot)| > 0 && Step(i, ret, ctx, slot)[|Step(i, ret, ctx, slot)| - 1] == i
  {
  }

  /** Where original instruction `k` sits in the rewritten body: at the end
      of its step, after the rewriting of the instructions before it. */
  function Pos(ret: JType, ctx: nat, next: nat, body: seq<Instr>, k: nat): int
    requires k < |body|
  {
    |Rewrite(ret, ctx, next, body, k)| + |Step(body[k], ret, ctx, next + ExitSlots(ret, body, k))| - 1
  }

  /** The rewriting `q` of the first `k + 1` instructions ends with
      instruction `k`, at `p`. */
  lemma EndsWithOriginal(ret: JType, ctx: nat, next: nat, body: seq<Instr>, k: nat, q: seq<Instr>, p: int)
    requires k < |body| && q == Rewrite(ret, ctx, next, body, k + 1) && p == Pos(ret, ctx, next, body, k)
    ensures 0 <= p == |q| - 1 && q[p] == body[k]
  {
    StepLast(body[k], ret, ctx, next + ExitSlots(ret, body, k));
    LastOf(Rewrite(ret, ctx, next, body, k), Step(body[k], ret, ctx, next + ExitSlots(ret, body, k)), body[k]);
  }

  /** The rewriting of a prefix is a prefix of the rewriting. */
  lemma {:induction false} RewritePrefix(ret: JType, ctx: nat, next: nat, body: seq<Instr>, j: nat, n: nat)
    requires j <= n <= |body|
    ensures |Rewrite(ret, ctx, next, body, j)| <= |Rewrite(ret, ctx, next, body, n)|
    ensures Rewrite(ret, ctx, next, body, n)[..|Rewrite(ret, ctx, next, body, j)|] == Rewrite(ret, ctx, next, body, j)
    decreases n
  {
    if j < n {
      RewritePrefix(ret, ctx, next, body, j, n - 1);
      PrefixOfAppend(Rewrite(ret, ctx, next, body, n - 1), Step(body[n - 1], ret, ctx, next + ExitSlots(ret, body, n - 1)),
                     Rewrite(ret, ctx, next, body, j));
    }
  }

  /** `RewritePrefix`, for the rewritings `q` of the first `j` and `r` of
      the first `n` instructions. */
  lemma PrefixOf(ret: JType, ctx: nat, next: nat, body: seq<Instr>, j: nat, n: nat, q: seq<Instr>, r: seq<Instr>)
    requires j <= n <= |body| && q == Rewrite(ret, ctx, next, body, j) && r == Rewrite(ret, ctx, next, body, n)
    ensures |q| <= |r| && r[..|q|] == q
  {
    RewritePrefix(ret, ctx, next, body, j, n);
  }

  /** Every original instruction survives: instruction `k` is at its
      position `p` in the rewritten body `r`. */
  lemma OriginalAt(ret: JType, ctx: nat, next: nat, body: seq<Instr>, k: nat, r: seq<Instr>, p: int)
    requires k < |body| && r == Rewrite(ret, ctx, next, body, |body|) && p == Pos(ret, ctx, next, body, k)
    ensures 0 <= p < |r| && r[p] == body[k]
  {
    var q := Rewrite(ret, ctx, next, body, k + 1);
    EndsWithOriginal(ret, ctx, next, body, k, q, p);
    PrefixOf(ret, ctx, next, body, k + 1, |body|, q, r);
    IndexInPrefix(r, q, p);
  }

  /** No code is put before an instruction that is not a return. */
  lemma NothingBeforePlain(ret: JType, ctx: nat, next: nat, body: seq<Instr>, k: nat)
    requires 0 < k < |body| && !IsReturn(body[k])
    ensures Pos(ret, ctx, next, body, k) == Pos(ret, ctx, next, body, k - 1) + 1
  {
  }

  /** Exactly the exit is put before a return. */
  lemma ExitBeforeReturn(ret: JType, ctx: nat, next: nat, body: seq<Instr>, k: nat)
    requires 0 < k < |body| && IsReturn(body[k])
    ensures Pos(ret, ctx, next, body, k)
            == Pos(ret, ctx, next, body, k - 1) + 1 + |ReturnExit(ret, ctx, next + ExitSlots(ret, body, k))|
  {
  }

  /** The first instruction opens the rewritten body, after its exit if it
      is a return. */
  lemma FirstOriginal(ret: JType, ctx: nat, next: nat, body: seq<Instr>)
    requires |body| > 0
    ensures !IsReturn(body[0]) ==> Pos(ret, ctx, next, body, 0) == 0
    ensures IsReturn(body[0]) ==> Pos(ret, ctx, next, body, 0) == |ReturnExit(ret, ctx, next)|
  {
  }

  /** The original instructions keep their order. */
  lemma OriginalsInOrder(ret: JType, ctx: nat, next: nat, body: seq<Instr>, j: nat, k: nat, pj: int, pk: int)
    requires j < k < |body| && pj == Pos(ret, ctx, next, body, j) && pk == Pos(ret, ctx, next, body, k)
    ensures pj < pk
  {
    var q, r := Rewrite(ret, ctx, next, body, j + 1), Rewrite(ret, ctx, next, body, k);
    EndsWithOriginal(ret, ctx, next, body, j, q, pj);
    PrefixOf(ret, ctx, next, body, j + 1, k, q, r);
    StepLast(body[k], ret, ctx, next + ExitSlots(ret, body, k));
  }

  lemma StepOfReturn(i: Instr, ret: JType, ctx: nat, slot: nat)
    requires IsReturn(i)
    ensures Step(i, ret, ctx, slot) == ReturnExit(ret, ctx, slot) + [i]
  {
  }

  lemma BeforeLast<T>(q: seq<T>, a: seq<T>, s: seq<T>, e: seq<T>, y: T, p: int)
    requires q == a + s && s == e + [y] && p == |a| + |e|
    ensures |e| <= p < |q| && q[p - |e|..p] == e
  {
    assert q[|a|..] == e + [y];
    assert q[p - |e|..p] == q[|a|..][..|e|];
  }

  /** Within the rewriting `q` of the first `k + 1` instructions, the code
      right before a return `k` (at `p`) is its exit, storing into `slot`. */
  lemma ExitEndsRewrite(ret: JType, ctx: nat, next: nat, body: seq<Instr>, k: nat, q: seq<Instr>, p: int, slot: nat)
    requires k < |body| && IsReturn(body[k]) && q == Rewrite(ret, ctx, next, body, k + 1)
    requires p == Pos(ret, ctx, next, body, k) && slot == next + ExitSlots(ret, body, k)
    ensures |ReturnExit(ret, ctx, slot)| <= p < |q| && q[p - |ReturnExit(ret, ctx, slot)|..p] == ReturnExit(ret, ctx, slot)
  {
    StepOfReturn(body[k], ret, ctx, slot);
    BeforeLast(q, Rewrite(ret, ctx, next, body, k), Step(body[k], ret, ctx, slot), ReturnExit(ret, ctx, slot), body[k], p);
  }

  /** The code right before a return `k`, at `p` in the rewritten body `r`,
      is its exit, storing into `slot`: the first local after those the
      earlier exits took. */
  lemma ExitAt(ret: JType, ctx: nat, next: nat, body: seq<Instr>, k: nat, r: seq<Instr>, p: int, slot: nat)
    requires k < |body| && IsReturn(body[k]) && r == Rewrite(ret, ctx, next, body, |body|)
    requires p == Pos(ret, ctx, next, body, k) && slot == next + ExitSlots(ret, body, k)
    ensures |ReturnExit(ret, ctx, slot)| <= p < |r| && r[p - |ReturnExit(ret, ctx, slot)|..p] == ReturnExit(ret, ctx, slot)
  {
    var q := Rewrite(ret, ctx, next, body, k + 1);
    ExitEndsRewrite(ret, ctx, next, body, k, q, p, slot);
    PrefixOf(ret, ctx, next, body, k + 1, |body|, q, r);
    SliceInPrefix(r, q, ReturnExit(ret, ctx, slot), p - |ReturnExit(ret, ctx, slot)|, p);
  }

  // ----- The locals the exits take -----

  /** Exit slots only grow along the body. */
  lemma {:induction false} ExitSlotsGrow(ret: JType, body: seq<Instr>, j: nat, k: nat)
    requires j <= k <= |body|
    ensures ExitSlots(ret, body, j) <= ExitSlots(ret, body, k)
    decreases k
  {
    if j < k {
      ExitSlotsGrow(ret, body, j, k - 1);
    }
  }

  /** The throwable the handler saves is in a local after the whole of the
      value saved before return `k`, the last return included. */
  lemma HandlerLocalAfterExit(ret: JType, next: nat, body: seq<Instr>, k: nat)
    requires k < |body| && IsReturn(body[k])
    ensures next + ExitSlots(ret, body, k) + Size(ret) <= next + ExitSlots(ret, body, |body|)
  {
    ExitSlotsGrow(ret, body, k + 1, |body|);
  }

  /** The return value saved by the exit before return `j` and the one
      saved before a later return `k` are in disjoint locals, and the
      throwable the handler saves is in a local after all of them. */
  lemma ExitLocalsDisjoint(ret: JType, next: nat, body: seq<Instr>, j: nat, k: nat)
    requires j < k < |body| && IsReturn(body[j])
    ensures next + ExitSlots(ret, body, j) + Size(ret) <= next + ExitSlots(ret, body, k)
    ensures next + ExitSlots(ret, body, k) <= next + ExitSlots(ret, body, |body|)
    ensures IsReturn(body[k]) ==> next + ExitSlots(ret, body, k) + Size(ret) <= next + ExitSlots(ret, body, |body|)
  {
    ExitSlotsGrow(ret, body, j + 1, k);
    ExitSlotsGrow(ret, body, k, |body|);
    if IsReturn(body[k]) {
      HandlerLocalAfterExit(ret, next, body, k);
    }
  }

  /** The exits of the first `n` instructions take `Size(ret)` slots per
      return among them. */
  lemma {:induction false} ExitSlotsPerReturn(ret: JType, body: seq<Instr>, n: nat)
    requires n <= |body|
    ensures ExitSlots(ret, body, n) == ReturnsTo(body, n) * Size(ret)
    decreases n
  {
    if n > 0 {
      ExitSlotsPerReturn(ret, body, n - 1);
    }
  }

  // ----- Counts -----

  /** The instructions the woven code adds only outside the exits: `startOn`,
      `stopWithException` and labels. */
  predicate NotInExits(x: Instr)
  {
    x == StartCall || x == StopWithExceptionCall || x.Mark?
  }

  /** An exit holds none of the instructions the exits never contain. */
  lemma ExitOmits(ret: JType, ctx: nat, slot: nat, x: Instr)
    requires NotInExits(x)
    ensures Count(ReturnExit(ret, ctx, slot), x) == 0
  {
    CountAbsent(ReturnExit(ret, ctx, slot), x);
  }

  /** An exit calls `stop` once. */
  lemma ExitStopsOnce(ret: JType, ctx: nat, slot: nat)
    ensures Count(ReturnExit(ret, ctx, slot), StopCall) == 1
  {
    if ret == VoidT {
      VoidExitStopsOnce(ret, ctx, slot);
    } else {
      ValueExitStopsOnce(ret, ctx, slot);
    }
  }

  lemma VoidExitStopsOnce(ret: JType, ctx: nat, slot: nat)
    requires ret == VoidT
    ensures Count(ReturnExit(ret, ctx, slot), StopCall) == 1
  {
    var e := [VarInsn(ALOAD, ctx), Insn(ACONST_NULL)];
    assert ReturnExit(ret, ctx, slot) == e + [StopCall];
    CountAbsent(e, StopCall);
    CountSnoc(e, StopCall, StopCall);
  }

  lemma ValueExitStopsOnce(ret: JType, ctx: nat, slot: nat)
    requires ret != VoidT
    ensures Count(ReturnExit(ret, ctx, slot), StopCall) == 1
  {
    var e := [VarInsn(StoreOpcode(ret), slot), VarInsn(ALOAD, ctx), VarInsn(LoadOpcode(ret), slot)] + BoxCall(ret);
    var l := VarInsn(LoadOpcode(ret), slot);
    assert ReturnExit(ret, ctx, slot) == (e + [StopCall]) + [l];
    CountAbsent(e, StopCall);
    CountSnoc(e, StopCall, StopCall);
    CountSnoc(e + [StopCall], l, StopCall);
  }

  lemma StepOmits(i: Instr, ret: JType, ctx: nat, slot: nat, x: Instr)
    requires NotInExits(x)
    ensures Count(Step(i, ret, ctx, slot), x) == if i == x then 1 else 0
  {
    CountSingle(i, x);
    ExitOmits(ret, ctx, slot, x);
    CountSnoc(ReturnExit(ret, ctx, slot), i, x);
  }

  lemma StepStops(i: Instr, ret: JType, ctx: nat, slot: nat)
    ensures Count(Step(i, ret, ctx, slot), StopCall) == (if i == StopCall then 1 else 0) + (if IsReturn(i) then 1 else 0)
  {
    CountSingle(i, StopCall);
    ExitStopsOnce(ret, ctx, slot);
    CountSnoc(ReturnExit(ret, ctx, slot), i, StopCall);
  }

  /** Rewriting adds none of the instructions the exits do not contain. */
  lemma {:induction false} RewriteOmits(ret: JType, ctx: nat, next: nat, body: seq<Instr>, n: nat, x: Instr)
    requires n <= |body| && NotInExits(x)
    ensures Count(Rewrite(ret, ctx, next, body, n), x) == CountTo(body, n, x)
    decreases n
  {
    if n > 0 {
      RewriteOmits(ret, ctx, next, body, n - 1, x);
      RewriteOmitsStep(ret, ctx, next, body, n, x);
    }
  }

  lemma RewriteOmitsStep(ret: JType, ctx: nat, next: nat, body: seq<Instr>, n: nat, x: Instr)
    requires 0 < n <= |body| && NotInExits(x)
    requires Count(Rewrite(ret, ctx, next, body, n - 1), x) == CountTo(body, n - 1, x)
    ensures Count(Rewrite(ret, ctx, next, body, n), x) == CountTo(body, n, x)
  {
    var step := Step(body[n - 1], ret, ctx, next + ExitSlots(ret, body, n - 1));
    StepOmits(body[n - 1], ret, ctx, next + ExitSlots(ret, body, n - 1), x);
    CountAppend(Rewrite(ret, ctx, next, body, n - 1), step, x);
  }

  /** Rewriting adds one `stop` per return. */
  lemma {:induction false} RewriteStops(ret: JType, ctx: nat, next: nat, body: seq<Instr>, n: nat)
    requires n <= |body|
    ensures Count(Rewrite(ret, ctx, next, body, n), StopCall) == CountTo(body, n, StopCall) + ReturnsTo(body, n)
    decreases n
  {
    if n > 0 {
      RewriteStops(ret, ctx, next, body, n - 1);
      RewriteStopsStep(ret, ctx, next, body, n);
    }
  }

  lemma RewriteStopsStep(ret: JType, ctx: nat, next: nat, body: seq<Instr>, n: nat)
    requires 0 < n <= |body|
    requires Count(Rewrite(ret, ctx, next, body, n - 1), StopCall) == CountTo(body, n - 1, StopCall) + ReturnsTo(body, n - 1)
    ensures Count(Rewrite(ret, ctx, next, body, n), StopCall) == CountTo(body, n, StopCall) + ReturnsTo(body, n)
  {
    var step := Step(body[n - 1], ret, ctx, next + ExitSlots(ret, body, n - 1));
    StepStops(body[n - 1], ret, ctx, next + ExitSlots(ret, body, n - 1));
    CountAppend(Rewrite(ret, ctx, next, body, n - 1), step, StopCall);
  }

  /** The element stores hold no context call and no label. */
  lemma {:induction false} ArgStoresExclude(isStatic: bool, args: seq<JType>, n: nat, x: Instr)
    requires n <= |args| && (NotInExits(x) || x == StopCall)
    ensures x !in ArgStores(isStatic, args, n)
    decreases n
  {
    if n > 0 {
      ArgStoresExclude(isStatic, args, n - 1, x);
    }
  }

  /** The adapter's own labels, fresh for each woven method. */
  predicate FreshLabels(body: seq<Instr>)
  {
    Count(body, Mark(TryStart)) == 0 && Count(body, Mark(EndLabel)) == 0 && Count(body, Mark(CatchLabel)) == 0
  }

  /** The end of the entry prefix calls `startOn` and opens the region. */
  lemma EntryTailCount(ctx: nat, x: Instr)
    requires NotInExits(x) || x == StopCall
    ensures Count([StartCall, VarInsn(ASTORE, ctx), Mark(TryStart)], x)
            == (if x == StartCall then 1 else 0) + (if x == Mark(TryStart) then 1 else 0)
  {
    assert [StartCall, VarInsn(ASTORE, ctx), Mark(TryStart)] == [StartCall] + ([VarInsn(ASTORE, ctx)] + [Mark(TryStart)]);
    CountCons(StartCall, [VarInsn(ASTORE, ctx)] + [Mark(TryStart)], x);
    CountCons(VarInsn(ASTORE, ctx), [Mark(TryStart)], x);
    CountSingle(Mark(TryStart), x);
  }

  /** The appended code closes the region, marks the handler and calls
      `stopWithException`. */
  lemma HandlerCount(ctx: nat, slot: nat, x: Instr)
    requires NotInExits(x) || x == StopCall
    ensures Count(HandlerCode(ctx, slot), x)
            == (if x == Mark(EndLabel) then 1 else 0) + (if x == Mark(CatchLabel) then 1 else 0)
               + (if x == StopWithExceptionCall then 1 else 0)
  {
    var loads := [VarInsn(ASTORE, slot), VarInsn(ALOAD, ctx), VarInsn(ALOAD, slot)];
    var rest := [VarInsn(ALOAD, slot), Insn(ATHROW)];
    assert HandlerCode(ctx, slot)
           == [Mark(EndLabel)] + ([Mark(CatchLabel)] + (loads + ([StopWithExceptionCall] + rest)));
    CountCons(Mark(EndLabel), [Mark(CatchLabel)] + (loads + ([StopWithExceptionCall] + rest)), x);
    CountCons(Mark(CatchLabel), loads + ([StopWithExceptionCall] + rest), x);
    CountAppend(loads, [StopWithExceptionCall] + rest, x);
    CountAbsent(loads, x);
    CountCons(StopWithExceptionCall, rest, x);
    CountAbsent(rest, x);
  }

  /** The entry prefix calls `startOn` once and opens the region once. */
  lemma EntryPrefixCount(isStatic: bool, methodLabel: string, args: seq<JType>, ctx: nat, x: Instr)
    requires NotInExits(x) || x == StopCall
    ensures Count(EntryPrefix(isStatic, methodLabel, args, ctx), x)
            == (if x == StartCall then 1 else 0) + (if x == Mark(TryStart) then 1 else 0)
  {
    var head, stores := EntryHead(isStatic, methodLabel, |args|), ArgStores(isStatic, args, |args|);
    CountAbsent(head, x);
    ArgStoresExclude(isStatic, args, |args|, x);
    CountAbsent(stores, x);
    CountAppend(head, stores, x);
    CountAppend(head + stores, [StartCall, VarInsn(ASTORE, ctx), Mark(TryStart)], x);
    EntryTailCount(ctx, x);
  }

  /** A woven body holds the original's occurrences of a context call other
      than `stop`, or of a label, plus the one the adapter adds, if any. */
  lemma WovenCountOf(isStatic: bool, methodLabel: string, args: seq<JType>, ret: JType, body: seq<Instr>, ctx: nat, x: Instr)
    requires NotInExits(x)
    ensures Count(WovenInstrs(isStatic, methodLabel, args, ret, body, ctx), x)
            == Count(body, x) + (if x == StartCall then 1 else 0) + (if x == Mark(TryStart) then 1 else 0)
               + (if x == Mark(EndLabel) then 1 else 0) + (if x == Mark(CatchLabel) then 1 else 0)
               + (if x == StopWithExceptionCall then 1 else 0)
  {
    var entry, r := EntryPrefix(isStatic, methodLabel, args, ctx), Rewrite(ret, ctx, ctx + 1, body, |body|);
    var hc := HandlerCode(ctx, ctx + 1 + ExitSlots(ret, body, |body|));
    CountAppend(entry, r, x);
    CountAppend(entry + r, hc, x);
    EntryPrefixCount(isStatic, methodLabel, args, ctx, x);
    RewriteOmits(ret, ctx, ctx + 1, body, |body|, x);
    HandlerCount(ctx, ctx + 1 + ExitSlots(ret, body, |body|), x);
  }

  /** A woven body calls `stop` once more per return than the original. */
  lemma WovenStops(isStatic: bool, methodLabel: string, args: seq<JType>, ret: JType, body: seq<Instr>, ctx: nat)
    ensures Count(WovenInstrs(isStatic, methodLabel, args, ret, body, ctx), StopCall)
            == Count(body, StopCall) + ReturnCount(body)
  {
    var entry, r := EntryPrefix(isStatic, methodLabel, args, ctx), Rewrite(ret, ctx, ctx + 1, body, |body|);
    var hc := HandlerCode(ctx, ctx + 1 + ExitSlots(ret, body, |body|));
    CountAppend(entry, r, StopCall);
    CountAppend(entry + r, hc, StopCall);
    EntryPrefixCount(isStatic, methodLabel, args, ctx, StopCall);
    HandlerCount(ctx, ctx + 1 + ExitSlots(ret, body, |body|), StopCall);
    RewriteStops(ret, ctx, ctx + 1, body, |body|);
  }

  /** A woven body calls `startOn` once and `stopWithException` once more
      than the original, `stop` once more per return, and marks each of the
      adapter's three labels exactly once. */
  lemma WovenCounts(isStatic: bool, methodLabel: string, args: seq<JType>, ret: JType, body: seq<Instr>, ctx: nat)
    ensures var w := WovenInstrs(isStatic, methodLabel, args, ret, body, ctx);
            Count(w, StartCall) == Count(body, StartCall) + 1
            && Count(w, StopCall) == Count(body, StopCall) + ReturnCount(body)
            && Count(w, StopWithExceptionCall) == Count(body, StopWithExceptionCall) + 1
    ensures FreshLabels(body) ==>
            var w := WovenInstrs(isStatic, methodLabel, args, ret, body, ctx);
            Count(w, Mark(TryStart)) == 1 && Count(w, Mark(EndLabel)) == 1 && Count(w, Mark(CatchLabel)) == 1
  {
    WovenCountOf(isStatic, methodLabel, args, ret, body, ctx, StartCall);
    WovenStops(isStatic, methodLabel, args, ret, body, ctx);
    WovenCountOf(isStatic, methodLabel, args, ret, body, ctx, StopWithExceptionCall);
    WovenCountOf(isStatic, methodLabel, args, ret, body, ctx, Mark(TryStart));
    WovenCountOf(isStatic, methodLabel, args, ret, body, ctx, Mark(EndLabel));
    WovenCountOf(isStatic, methodLabel, args, ret, body, ctx, Mark(CatchLabel));
  }

  // ----- The protected region -----

  /** The woven stream opens the region at the end of the entry prefix,
      closes it right after the last rewritten instruction, and the handler
      follows: its label, its code, and a final `ATHROW`. */
  lemma RegionBounds(isStatic: bool, methodLabel: string, args: seq<JType>, ret: JType, body: seq<Instr>, ctx: nat)
    ensures var w := WovenInstrs(isStatic, methodLabel, args, ret, body, ctx);
            var e := |EntryPrefix(isStatic, methodLabel, args, ctx)|;
            var n := |Rewrite(ret, ctx, ctx + 1, body, |body|)|;
            e + n + 2 < |w| && w[e - 1] == Mark(TryStart) && w[e + n] == Mark(EndLabel)
            && w[e + n + 1] == Mark(CatchLabel) && w[|w| - 1] == Insn(ATHROW)
  {
  }

  /** Original instruction `k`, at `p` in the rewritten body `r`, is inside
      the region of the woven stream `w`: after the position of `tryStart`
      and before that of `endLabel`. */
  lemma OriginalInRegion(isStatic: bool, methodLabel: string, args: seq<JType>, ret: JType, body: seq<Instr>,
                         ctx: nat, k: nat, w: seq<Instr>, r: seq<Instr>, p: int)
    requires k < |body| && w == WovenInstrs(isStatic, methodLabel, args, ret, body, ctx)
    requires r == Rewrite(ret, ctx, ctx + 1, body, |body|) && p == Pos(ret, ctx, ctx + 1, body, k)
    ensures var e := |EntryPrefix(isStatic, methodLabel, args, ctx)|;
            e <= e + p < e + |r| && w[e + p] == body[k]
  {
    var entry := EntryPrefix(isStatic, methodLabel, args, ctx);
    var hc := HandlerCode(ctx, ctx + 1 + ExitSlots(ret, body, |body|));
    OriginalAt(ret, ctx, ctx + 1, body, k, r, p);
    MiddleIndex(w, entry, r, hc, p, body[k]);
  }
}
