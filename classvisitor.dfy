/**
 * The class-level part of the weaver: which methods are woven, the label a
 * woven method reports under, and the visitor that counts woven methods so
 * the class is only rewritten when one of them was woven.
 */
module ClassRewriter {
  import opened Jvm
  import opened Advice
  import Text

  const STATIC_INIT: string := "<clinit>"
  const CONSTRUCTOR: string := "<init>"

  /** A method is a candidate for weaving unless it is a static initializer,
      a constructor, abstract or native. */
  predicate IsSironable(access: bv32, name: string)
  {
    name != STATIC_INIT && name != CONSTRUCTOR && !IsAbstract(access) && !IsNative(access)
  }

  /** A method is passed over exactly when it is `<clinit>` or `<init>` or
      has one of the `abstract` and `native` access bits set. */
  lemma SironableExactly(access: bv32, name: string)
    ensures IsSironable(access, name)
            <==> name != "<clinit>" && name != "<init>" && access & (ACC_ABSTRACT | ACC_NATIVE) == 0
  {
    assert access & ACC_ABSTRACT == (access & (ACC_ABSTRACT | ACC_NATIVE)) & ACC_ABSTRACT;
    assert access & ACC_NATIVE == (access & (ACC_ABSTRACT | ACC_NATIVE)) & ACC_NATIVE;
    assert access & (ACC_ABSTRACT | ACC_NATIVE) == (access & ACC_ABSTRACT) | (access & ACC_NATIVE);
  }

  /** Of the access flags only `abstract` and `native` matter: two flag sets
      that agree on those two bits decide a name the same way. */
  lemma SironableFlags(a1: bv32, a2: bv32, name: string)
    requires a1 & (ACC_ABSTRACT | ACC_NATIVE) == a2 & (ACC_ABSTRACT | ACC_NATIVE)
    ensures IsSironable(a1, name) <==> IsSironable(a2, name)
  {
    assert a1 & ACC_ABSTRACT == (a1 & (ACC_ABSTRACT | ACC_NATIVE)) & ACC_ABSTRACT;
    assert a2 & ACC_ABSTRACT == (a2 & (ACC_ABSTRACT | ACC_NATIVE)) & ACC_ABSTRACT;
    assert a1 & ACC_NATIVE == (a1 & (ACC_ABSTRACT | ACC_NATIVE)) & ACC_NATIVE;
    assert a2 & ACC_NATIVE == (a2 & (ACC_ABSTRACT | ACC_NATIVE)) & ACC_NATIVE;
  }

  /** The label a method reports under: the class name with dots, the method
      name, and the Java names of the parameter types, comma-separated, in
      parentheses. */
  function Label(javaName: string, name: string, args: seq<JType>): string
  {
    Text.Replace(javaName, '/', '.') + "." + name + "(" + Text.Join(ClassNames(args), ',') + ")"
  }

  /** The parameter types' names joined by commas, built as the source does:
      each name followed by a comma, then the last comma dropped. */
  method TypesToString(argumentTypes: seq<JType>) returns (s: string)
    ensures s == Text.Join(ClassNames(argumentTypes), ',')
  {
    var b := "";
    var i := 0;
    while i < |argumentTypes|
      invariant 0 <= i <= |argumentTypes|
      invariant b == Text.Terminated(ClassNames(argumentTypes[..i]), ',')
    {
      assert ClassNames(argumentTypes[..i + 1]) == ClassNames(argumentTypes[..i]) + [ClassName(argumentTypes[i])];
      Text.TerminatedAppend(ClassNames(argumentTypes[..i]), ClassName(argumentTypes[i]), ',');
      b := b + ClassName(argumentTypes[i]) + [','];
      i := i + 1;
    }
    assert argumentTypes[..i] == argumentTypes;
    if |argumentTypes| > 0 {
      Text.TerminatedIsJoinPlusSep(ClassNames(argumentTypes), ',');
    }
    if |b| > 0 {
      b := b[..|b| - 1];
    }
    s := b;
  }

  /** The label, computed as the visitor does. */
  method MakeLabel(javaName: string, name: string, args: seq<JType>) returns (methodLabel: string)
    ensures methodLabel == Label(javaName, name, args)
  {
    var types := TypesToString(args);
    methodLabel := Text.Replace(javaName, '/', '.') + "." + name + "(" + types + ")";
  }

  /** The label starts with the class name, dotted and free of slashes, then
      a dot, the method name and an opening parenthesis, and ends with a
      closing one. */
  lemma LabelFrame(javaName: string, name: string, args: seq<JType>)
    ensures var l := Label(javaName, name, args);
            |javaName| + |name| + 3 <= |l| && l[..|javaName|] == Text.Replace(javaName, '/', '.')
            && '/' !in l[..|javaName|] && l[|javaName|] == '.' && l[|javaName| + 1..|javaName| + 1 + |name|] == name
            && l[|javaName| + 1 + |name|] == '(' && l[|l| - 1] == ')'
  {
    Text.ReplaceRemoves(javaName, '/', '.');
  }

  /** The text between the parentheses of a label. */
  function LabelArgs(javaName: string, name: string, args: seq<JType>): string
  {
    var l := Label(javaName, name, args);
    if |javaName| + |name| + 3 <= |l| then l[|javaName| + |name| + 2..|l| - 1] else ""
  }

  lemma MiddleOf(h: string, x: string, t: string)
    ensures (h + x + t)[|h|..|h| + |x|] == x
  {
    assert (h + x + t)[|h|..] == x + t;
  }

  /** Between its parentheses a label holds the parameter types' names
      joined by commas. */
  lemma LabelArgsIsJoin(javaName: string, name: string, args: seq<JType>)
    ensures LabelArgs(javaName, name, args) == Text.Join(ClassNames(args), ',')
  {
    var joined := Text.Join(ClassNames(args), ',');
    var head := Text.Replace(javaName, '/', '.') + "." + name + "(";
    MiddleOf(head, joined, ")");
  }

  /** The parameter list can be read back from a label: splitting the text
      between the parentheses at the commas gives the parameter types' names,
      provided none is empty or contains a comma. A method without
      parameters reports `()`. */
  lemma LabelArgsRoundTrip(javaName: string, name: string, args: seq<JType>)
    requires forall i :: 0 <= i < |args| ==> ClassName(args[i]) != "" && ',' !in ClassName(args[i])
    ensures Text.Split(LabelArgs(javaName, name, args), ',') == ClassNames(args)
    ensures args == [] ==> LabelArgs(javaName, name, args) == ""
  {
    LabelArgsIsJoin(javaName, name, args);
    Text.SplitJoin(ClassNames(args), ',');
  }

  /** The method's woven form is the one a class gets: woven exactly when it
      is a candidate and its label has listeners. */
  predicate Adviced(javaName: string, monitored: set<string>, m: MethodInfo)
  {
    IsSironable(m.access, m.name) && Label(javaName, m.name, m.args) in monitored
  }

  /** What the class writer receives for method `m`. */
  function Transformed(javaName: string, monitored: set<string>, m: MethodInfo): Code
  {
    if Adviced(javaName, monitored, m) then
      WovenCode(IsStatic(m.access), Label(javaName, m.name, m.args), m.args, m.ret, m.code)
    else m.code
  }

  /** Static initializers, constructors, abstract and native methods are
      passed through unchanged whatever listeners exist; a woven method keeps
      its own exception table, followed by the one protected region. */
  lemma WovenOrPassedThrough(javaName: string, monitored: set<string>, m: MethodInfo)
    ensures m.name == STATIC_INIT || m.name == CONSTRUCTOR || IsAbstract(m.access) || IsNative(m.access)
            ==> !Adviced(javaName, monitored, m) && Transformed(javaName, monitored, m) == m.code
    ensures Adviced(javaName, monitored, m) ==>
            Transformed(javaName, monitored, m).handlers == m.code.handlers + [ProtectedRegion]
  {
  }

  /** How many of the first `n` methods are woven. */
  function AdvicedCount(javaName: string, monitored: set<string>, methods: seq<MethodInfo>, n: nat): nat
    requires n <= |methods|
  {
    if n == 0 then 0
    else AdvicedCount(javaName, monitored, methods, n - 1) + (if Adviced(javaName, monitored, methods[n - 1]) then 1 else 0)
  }

  /** The count is positive exactly when some method was woven. */
  lemma {:induction false} AdvicedCountPositive(javaName: string, monitored: set<string>, methods: seq<MethodInfo>, n: nat)
    requires n <= |methods|
    ensures AdvicedCount(javaName, monitored, methods, n) > 0
            <==> exists i :: 0 <= i < n && Adviced(javaName, monitored, methods[i])
    decreases n
  {
    if n > 0 {
      AdvicedCountPositive(javaName, monitored, methods, n - 1);
    }
  }

  /** The count never exceeds the number of methods visited. */
  lemma {:induction false} AdvicedCountBound(javaName: string, monitored: set<string>, methods: seq<MethodInfo>, n: nat)
    requires n <= |methods|
    ensures AdvicedCount(javaName, monitored, methods, n) <= n
    decreases n
  {
    if n > 0 {
      AdvicedCountBound(javaName, monitored, methods, n - 1);
    }
  }

  /** The class visitor. `monitored` is the set of labels for which the
      agent has listeners for this class. */
  class SironaClassVisitor {
    const javaName: string
    const monitored: set<string>
    var count: nat

    constructor (javaName: string, monitored: set<string>)
      ensures this.javaName == javaName && this.monitored == monitored && count == 0
    {
      this.javaName := javaName;
      this.monitored := monitored;
      count := 0;
    }

    /** Visit one method: a method that is not a candidate, or whose label
        has no listeners, is passed through unchanged; otherwise the count
        goes up and the method is woven under its label. */
    method VisitMethod(m: MethodInfo) returns (out: Code)
      modifies this`count
      ensures out == Transformed(javaName, monitored, m)
      ensures count == old(count) + (if Adviced(javaName, monitored, m) then 1 else 0)
      ensures !IsSironable(m.access, m.name) ==> out == m.code
    {
      if !IsSironable(m.access, m.name) {
        return m.code;
      }
      var methodLabel := MakeLabel(javaName, m.name, m.args);
      if methodLabel in monitored {
        count := count + 1;
        var adapter := new SironaAdviceAdapter(m.access, methodLabel, m.args, m.ret);
        adapter.Accept(m.code);
        out := Code(adapter.code, adapter.handlers);
      } else {
        out := m.code;
      }
    }

    /** Whether any method of the class was woven. */
    method WasAdviced() returns (b: bool)
      ensures b <==> count > 0
    {
      b := count > 0;
    }

    /** Visit every method of a class in order. */
    method VisitMethods(methods: seq<MethodInfo>) returns (out: seq<Code>)
      modifies this`count
      ensures |out| == |methods|
      ensures forall i :: 0 <= i < |methods| ==> out[i] == Transformed(javaName, monitored, methods[i])
      ensures count == old(count) + AdvicedCount(javaName, monitored, methods, |methods|)
    {
      out := [];
      var i := 0;
      while i < |methods|
        invariant 0 <= i <= |methods|
        invariant |out| == i
        invariant forall j :: 0 <= j < i ==> out[j] == Transformed(javaName, monitored, methods[j])
        invariant count == old(count) + AdvicedCount(javaName, monitored, methods, i)
      {
        var c := VisitMethod(methods[i]);
        out := out + [c];
        i := i + 1;
      }
    }
  }

  /** A fresh visitor reports the class as woven after visiting its methods
      exactly when one of them was woven. */
  method TransformClass(javaName: string, monitored: set<string>, methods: seq<MethodInfo>)
    returns (out: seq<Code>, adviced: bool)
    ensures |out| == |methods|
    ensures forall i :: 0 <= i < |methods| ==> out[i] == Transformed(javaName, monitored, methods[i])
    ensures adviced <==> exists i :: 0 <= i < |methods| && Adviced(javaName, monitored, methods[i])
  {
    var visitor := new SironaClassVisitor(javaName, monitored);
    out := visitor.VisitMethods(methods);
    adviced := visitor.WasAdviced();
    AdvicedCountPositive(javaName, monitored, methods, |methods|);
  }
}
