/** Environment-variable injection for Lambda@Edge functions, which cannot
    have an `Environment`: choosing the functions (`_getFunctionsToInjectVarsInto`)
    and the JavaScript prepended to their handler (`_envVarsToWriteableFormat`). */
module EnvInjection {
  import opened Wrappers
  import opened Js
  import opened PluginConfig
  import opened Seqs

  /** `_.get(def, 'lambdaAtEdge', {})` asks for injection: the object's
      `injectEnv`, or that of some element of the array, is truthy. */
  predicate WantsInjection(f: FunctionDef) {
    match f.lambdaAtEdge
    case None => false
    case Some(Single(spec)) => Truthy(spec.injectEnv)
    case Some(Several(specs)) => exists k :: 0 <= k < |specs| && Truthy(specs[k].injectEnv)
  }

  /** One object and a one-element array are the same declaration: the same
      entries are associated, and injection is asked for alike. */
  lemma SingleActsAsOneElementList(f: FunctionDef, spec: AssociationSpec)
    ensures EdgeEntries(f.(lambdaAtEdge := Some(Single(spec)))) ==
            EdgeEntries(f.(lambdaAtEdge := Some(Several([spec])))) == [spec]
    ensures WantsInjection(f.(lambdaAtEdge := Some(Single(spec)))) ==
            WantsInjection(f.(lambdaAtEdge := Some(Several([spec]))))
  {
    var g := f.(lambdaAtEdge := Some(Several([spec])));
    if Truthy(spec.injectEnv) {
      assert Truthy(g.lambdaAtEdge.value.specs[0].injectEnv);
    }
  }

  /** The provider runtime, `'unknown'` when absent, mentions `nodejs`. */
  predicate RuntimeSupportsInjection(runtime: Option<string>) {
    Includes(runtime.GetOr("unknown"), "nodejs")
  }

  /** The functions to inject into, in their declaration order. */
  function FunctionsToInjectVarsInto(functions: seq<FunctionDef>, runtime: Option<string>): (r: seq<FunctionDef>)
    ensures forall f :: f in r <==> f in functions && WantsInjection(f) && RuntimeSupportsInjection(runtime)
    ensures |r| <= |functions|
  {
    if functions == [] then []
    else
      var rest := FunctionsToInjectVarsInto(functions[1..], runtime);
      assert forall f :: f in functions <==> f == functions[0] || f in functions[1..];
      if WantsInjection(functions[0]) && RuntimeSupportsInjection(runtime) then [functions[0]] + rest else rest
  }

  /** The selection is a filter: it keeps the order of the declarations. */
  lemma {:induction false} SelectionKeepsOrder(a: seq<FunctionDef>, b: seq<FunctionDef>, runtime: Option<string>)
    ensures FunctionsToInjectVarsInto(a + b, runtime) ==
            FunctionsToInjectVarsInto(a, runtime) + FunctionsToInjectVarsInto(b, runtime)
  {
    if a != [] {
      assert (a + b)[1..] == a[1..] + b;
      SelectionKeepsOrder(a[1..], b, runtime);
      AppendAssociative([a[0]], FunctionsToInjectVarsInto(a[1..], runtime), FunctionsToInjectVarsInto(b, runtime));
    } else {
      assert a + b == b;
    }
  }

  /** Without a runtime, or with one that does not mention `nodejs`, nothing is selected. */
  lemma NoNodeRuntimeSelectsNothing(functions: seq<FunctionDef>, runtime: Option<string>)
    requires runtime.None? || !Includes(runtime.value, "nodejs")
    ensures FunctionsToInjectVarsInto(functions, runtime) == []
  {
    if runtime.None? {
      var u := "unknown";
      assert u[..6][0] != "nodejs"[0];
      assert u[1..][..6][1] != "nodejs"[1];
      assert !Includes(u[1..][1..], "nodejs");
      assert !Includes(u, "nodejs");
    }
  }

  const DeclareProcess: string := "var process={};"
  const DeclareEnv: string := "process.env={};"
  /** `'var process={};\nprocess.env={};\n'`. */
  const Prelude: string := DeclareProcess + "\n" + DeclareEnv + "\n"

  /** The assignment generated for one variable; the value is pasted as it is. */
  function EnvAssignment(name: string, value: string): string {
    "process.env['" + name + "'] = " + value + ";"
  }

  function Assignments(vars: seq<(string, string)>): (lines: seq<string>)
    ensures |lines| == |vars|
    ensures forall k :: 0 <= k < |vars| ==> lines[k] == EnvAssignment(vars[k].0, vars[k].1)
  {
    if vars == [] then [] else [EnvAssignment(vars[0].0, vars[0].1)] + Assignments(vars[1..])
  }

  /** `_envVarsToWriteableFormat`. */
  function EnvVarsToWriteableFormat(vars: seq<(string, string)>): (code: string)
    ensures |code| > |Prelude| && code[..|Prelude|] == Prelude && code[|code| - 1] == '\n'
  {
    Prelude + Join(Assignments(vars), "\n") + "\n"
  }

  /** A variable whose name and value hold no line break. */
  predicate SingleLine(v: (string, string)) {
    '\n' !in v.0 && '\n' !in v.1
  }

  /** An assignment built from break-free parts is one line. */
  lemma AssignmentSingleLine(v: (string, string))
    requires SingleLine(v)
    ensures '\n' !in EnvAssignment(v.0, v.1)
  {
  }

  lemma AssignmentsSingleLine(vars: seq<(string, string)>)
    requires forall k :: 0 <= k < |vars| ==> SingleLine(vars[k])
    ensures WithoutBreaks(Assignments(vars))
  {
    var lines := Assignments(vars);
    forall k | 0 <= k < |lines|
      ensures '\n' !in lines[k]
    {
      AssignmentSingleLine(vars[k]);
    }
  }

  /** Two lines, then joined lines and a final break, split back into their parts. */
  lemma SplitAfterTwoLines(a: string, b: string, lines: seq<string>, prelude: string)
    requires '\n' !in a && '\n' !in b && prelude == a + "\n" + b + "\n"
    requires |lines| > 0 && WithoutBreaks(lines)
    ensures SplitLines(prelude + Join(lines, "\n") + "\n") == [a, b] + lines + [""]
  {
    var body := Join(lines, "\n") + "\n";
    SplitJoinedLines(lines);
    Regroup(a, "\n", b, Join(lines, "\n"));
    SplitAfterLine(a, b + "\n" + body);
    SplitAfterLine(b, body);
    PrependTwo(a, b, lines, [""]);
  }

  /** The prelude is two break-free lines. */
  lemma PreludeLines()
    ensures '\n' !in DeclareProcess && '\n' !in DeclareEnv
    ensures Prelude == DeclareProcess + "\n" + DeclareEnv + "\n"
  {
  }

  /** Read line by line, the generated code is the two prelude lines, one
      assignment per variable in order, and a final line break. */
  lemma GeneratedCodeLines(vars: seq<(string, string)>)
    requires vars != []
    requires forall k :: 0 <= k < |vars| ==> SingleLine(vars[k])
    ensures SplitLines(EnvVarsToWriteableFormat(vars)) ==
            [DeclareProcess, DeclareEnv] + Assignments(vars) + [""]
  {
    AssignmentsSingleLine(vars);
    PreludeLines();
    SplitAfterTwoLines(DeclareProcess, DeclareEnv, Assignments(vars), Prelude);
  }

  /** With no variables the code is the prelude and one empty line. */
  lemma NoVariablesCode()
    ensures EnvVarsToWriteableFormat([]) == Prelude + "\n"
  {
  }
}
