/** The LLVM bindings built on the pointer wrappers: the declared wrapper
    hierarchy, the argument guards of the native factories, and the two
    script-visible methods `EngineBuilder.create` and
    `ExecutionEngine.getPointerToFunction`.  The LLVM objects themselves are
    native pointers; what LLVM does with them is a parameter. */
module LlvmBindings {

  import opened Host
  import opened HandleWrappers

  // ---------------------------------------------------------------------------
  // The declared hierarchy, one registration per wrapper global, in
  // declaration order.

  const IRBuilderBaseClass: nat := 0
  const IRBuilderClass: nat := 1
  const ModuleClass: nat := 2
  const TypeClass: nat := 3
  const FunctionTypeClass: nat := 4
  const ArrayTypeClass: nat := 5
  const StructTypeClass: nat := 6
  const ValueClass: nat := 7
  const GlobalValueClass: nat := 8
  const FunctionClass: nat := 9
  const GlobalVariableClass: nat := 10
  const BasicBlockClass: nat := 11
  const ArgumentClass: nat := 12
  const InlineAsmClass: nat := 13
  const PHINodeClass: nat := 14
  const ConstantClass: nat := 15
  const ConstantIntClass: nat := 16
  const ConstantFPClass: nat := 17
  const EngineBuilderClass: nat := 18
  const ExecutionEngineClass: nat := 19
  const FunctionPassManagerClass: nat := 20
  const PassClass: nat := 21
  const TargetDataClass: nat := 22
  const FunctionPointerClass: nat := 23

  /** Each wrapper's parent and whether it was given a native factory
      (`MakeIRBuilder`, `MakeModule`, `MakeEngineBuilder`,
      `MakeFunctionPassManager`, `MakeTargetData`). */
  const Registrations: seq<Registration> := [
    Registration(None, false),                      // IRBuilderBase
    Registration(Some(IRBuilderBaseClass), true),   // IRBuilder
    Registration(None, true),                       // Module
    Registration(None, false),                      // Type
    Registration(Some(TypeClass), false),           // FunctionType
    Registration(Some(TypeClass), false),           // ArrayType
    Registration(Some(TypeClass), false),           // StructType
    Registration(None, false),                      // Value
    Registration(Some(ValueClass), false),          // GlobalValue
    Registration(Some(GlobalValueClass), false),    // Function
    Registration(Some(GlobalValueClass), false),    // GlobalVariable
    Registration(Some(ValueClass), false),          // BasicBlock
    Registration(Some(ValueClass), false),          // Argument
    Registration(Some(ValueClass), false),          // InlineAsm
    Registration(Some(ValueClass), false),          // PHINode
    Registration(Some(ValueClass), false),          // Constant
    Registration(Some(ConstantClass), false),       // ConstantInt
    Registration(Some(ConstantClass), false),       // ConstantFP
    Registration(None, true),                       // EngineBuilder
    Registration(None, false),                      // ExecutionEngine
    Registration(None, true),                       // FunctionPassManager
    Registration(None, false),                      // Pass
    Registration(Some(PassClass), true),            // TargetData
    Registration(None, false)                       // FunctionPointer
  ]

  /** The declared classes and their bases: constants under `Constant` under
      `Value`, functions and global variables under `GlobalValue` under
      `Value`, the derived types under `Type`, `TargetData` under `Pass`,
      `IRBuilder` under `IRBuilderBase`. */
  lemma DeclaredHierarchy()
    ensures Hierarchy(Registrations) && |Registrations| == 24
    ensures forall a :: AncestorOrSelf(Registrations, a, ConstantIntClass) <==> a in {ConstantIntClass, ConstantClass, ValueClass}
    ensures forall a :: AncestorOrSelf(Registrations, a, ConstantFPClass) <==> a in {ConstantFPClass, ConstantClass, ValueClass}
    ensures forall a :: AncestorOrSelf(Registrations, a, FunctionClass) <==> a in {FunctionClass, GlobalValueClass, ValueClass}
    ensures forall a :: AncestorOrSelf(Registrations, a, GlobalVariableClass) <==> a in {GlobalVariableClass, GlobalValueClass, ValueClass}
    ensures forall a :: AncestorOrSelf(Registrations, a, FunctionTypeClass) <==> a in {FunctionTypeClass, TypeClass}
    ensures forall a :: AncestorOrSelf(Registrations, a, ArrayTypeClass) <==> a in {ArrayTypeClass, TypeClass}
    ensures forall a :: AncestorOrSelf(Registrations, a, StructTypeClass) <==> a in {StructTypeClass, TypeClass}
    ensures forall a :: AncestorOrSelf(Registrations, a, TargetDataClass) <==> a in {TargetDataClass, PassClass}
    ensures forall a :: AncestorOrSelf(Registrations, a, IRBuilderClass) <==> a in {IRBuilderClass, IRBuilderBaseClass}
  {
  }

  /** `Module`, `TargetData` and `Function` have no declared subclasses: the
      only registration below each is itself. */
  lemma {:induction false} Leaves(r: nat)
    requires r < |Registrations|
    ensures Hierarchy(Registrations)
    ensures AncestorOrSelf(Registrations, ModuleClass, r) <==> r == ModuleClass
    ensures AncestorOrSelf(Registrations, TargetDataClass, r) <==> r == TargetDataClass
    ensures AncestorOrSelf(Registrations, FunctionClass, r) <==> r == FunctionClass
    decreases r
  {
    DeclaredHierarchy();
    if Registrations[r].parent.Some? {
      Leaves(Registrations[r].parent.value);
    }
  }

  // ---------------------------------------------------------------------------
  // Factory guards

  /** The message of the `Module` constructor's guard. */
  const ModuleGuardError := "Module constructor expected 1 string argument"

  /** `MakeModule` as written: the guard `args.Length() != 1 &&
      !args[0]->IsString()` throws only when BOTH the count is wrong and the
      first argument is not a string; otherwise the module is named after
      the first argument's string form. */
  function MakeModuleAsWritten(args: seq<Value>): Result<string> {
    if |args| != 1 && !Arg(args, 0).Str? then Throw(ModuleGuardError)
    else Ok(AsciiValue(Arg(args, 0)))
  }

  /** The guard as written lets a non-string single argument and a string
      followed by extra arguments through. */
  lemma MakeModuleAsWrittenAcceptsBadArguments()
    ensures MakeModuleAsWritten([Int(42)]) == Ok("42")
    ensures MakeModuleAsWritten([Str("a"), Str("b")]) == Ok("a")
    ensures MakeModule([Int(42)]) == Throw(ModuleGuardError)
    ensures MakeModule([Str("a"), Str("b")]) == Throw(ModuleGuardError)
  {
    assert DecimalString(4) == "4" && DigitChar(2) == '2';
    assert DecimalString(42) == DecimalString(4) + [DigitChar(2)] == "42";
  }

  /** `MakeModule` with the guard its message describes (`||`): a module is
      made exactly for a single string argument, and is named by it. */
  function MakeModule(args: seq<Value>): (r: Result<string>)
    ensures r.Ok? <==> |args| == 1 && args[0].Str?
    ensures r.Ok? ==> r.value == args[0].s
    ensures r.Throw? ==> r.message == ModuleGuardError
  {
    if |args| != 1 || !Arg(args, 0).Str? then Throw(ModuleGuardError)
    else Ok(AsciiValue(Arg(args, 0)))
  }

  /** Where the corrected guard accepts, the guard as written accepts too and
      names the module the same way. */
  lemma MakeModuleCorrectionOnlyRejects(args: seq<Value>)
    ensures MakeModule(args).Ok? ==> MakeModuleAsWritten(args) == MakeModule(args)
    ensures MakeModuleAsWritten(args).Throw? ==> MakeModule(args).Throw?
  {
  }

  const ModuleArgumentError := "expected 1 argument: Module"
  const TargetDataArgumentError := "expected 1 argument: TargetData"

  /** The runtime the bindings run in: the declared registrations. */
  ghost predicate Bound(rt: Runtime)
    reads rt
  {
    rt.Valid() && rt.regs == Registrations
  }

  /** The guard of `MakeEngineBuilder` and `MakeFunctionPassManager`: exactly
      one argument, a `Module` instance; gives the module's pointer. */
  function ModuleArgument(rt: Runtime, args: seq<Value>): (r: Result<nat>)
    reads rt
    requires Bound(rt) && rt.templates[ModuleClass] != 0
    ensures r.Ok? <==> |args| == 1 && rt.Is(ModuleClass, args[0])
    ensures r.Ok? ==> r.value == rt.Unwrap(ModuleClass, args[0])
    ensures r.Throw? ==> r.message == ModuleArgumentError
  {
    if |args| != 1 || !rt.Is(ModuleClass, args[0]) then Throw(ModuleArgumentError)
    else Ok(rt.Unwrap(ModuleClass, args[0]))
  }

  /** The guard of `MakeTargetData`: exactly one argument, a `TargetData`
      instance; gives the pointer of the data layout to copy. */
  function TargetDataArgument(rt: Runtime, args: seq<Value>): (r: Result<nat>)
    reads rt
    requires Bound(rt) && rt.templates[TargetDataClass] != 0
    ensures r.Ok? <==> |args| == 1 && rt.Is(TargetDataClass, args[0])
    ensures r.Ok? ==> r.value == rt.Unwrap(TargetDataClass, args[0])
    ensures r.Throw? ==> r.message == TargetDataArgumentError
  {
    if |args| != 1 || !rt.Is(TargetDataClass, args[0]) then Throw(TargetDataArgumentError)
    else Ok(rt.Unwrap(TargetDataClass, args[0]))
  }

  /** An instance made from registration `r` passes the `Module` guard
      exactly when `r` is `Module` itself: no other wrapped class (an LLVM
      value, a type, a builder) is taken for a module. */
  lemma ModuleGuardAcceptsOnlyModules(rt: Runtime, r: nat, v: Value)
    requires Bound(rt) && r < |Registrations| && rt.templates[ModuleClass] != 0 && rt.templates[r] != 0
    requires v.Ref? && v.obj in rt.instances && v.obj.template == rt.templates[r]
    ensures ModuleArgument(rt, [v]).Ok? <==> r == ModuleClass
  {
    Leaves(r);
    rt.IsIffAncestor(r, ModuleClass, v);
  }

  /** Likewise an instance passes the `TargetData` guard exactly when it was
      made from `TargetData`; a plain `Pass` is refused. */
  lemma TargetDataGuardAcceptsOnlyTargetData(rt: Runtime, r: nat, v: Value)
    requires Bound(rt) && r < |Registrations| && rt.templates[TargetDataClass] != 0 && rt.templates[r] != 0
    requires v.Ref? && v.obj in rt.instances && v.obj.template == rt.templates[r]
    ensures TargetDataArgument(rt, [v]).Ok? <==> r == TargetDataClass
  {
    Leaves(r);
    rt.IsIffAncestor(r, TargetDataClass, v);
  }

  /** What a factory hands back to the constructor callback: NULL with the
      guard's error pending, or the new native object at `newPtr`. */
  function Outcome(guard: Result<nat>, newPtr: nat): (m: Made)
    requires newPtr != 0
    ensures m.ptr == 0 <==> guard.Throw?
  {
    if guard.Throw? then Made(0, Some(guard.message)) else Made(newPtr, None)
  }

  /** `new EngineBuilder(...)` from script: the wrapping path for a single
      external pointer; otherwise `MakeEngineBuilder`, which refuses anything
      but a single `Module` and else builds the native builder at `newPtr`,
      owned by the new instance through a weak finalizer. */
  method NewEngineBuilder(rt: Runtime, args: seq<Value>, newPtr: nat) returns (res: Result<Value>)
    requires Bound(rt) && rt.templates[EngineBuilderClass] != 0 && rt.templates[ModuleClass] != 0 && newPtr != 0
    modifies rt
    ensures Bound(rt)
    ensures var self := ObjId(rt.templates[EngineBuilderClass], old(rt.nextSerial));
            && self !in old(rt.instances)
            && if |args| == 1 && args[0].External? then
                 && res == Ok(Ref(self)) && rt.instances == old(rt.instances)[self := args[0].ptr]
                 && rt.weak == old(rt.weak)
               else if old(ModuleArgument(rt, args)).Ok? then
                 && res == Ok(Ref(self)) && rt.instances == old(rt.instances)[self := newPtr]
                 && rt.weak == old(rt.weak) + {self}
               else
                 && res == Throw(ModuleArgumentError) && rt.instances == old(rt.instances)[self := 0]
                 && rt.weak == old(rt.weak)
    ensures rt.templates == old(rt.templates) && rt.ctors == old(rt.ctors)
  {
    var made := Outcome(ModuleArgument(rt, args), newPtr);
    res := rt.Ctor(EngineBuilderClass, args, made);
  }

  // ---------------------------------------------------------------------------
  // Script-visible methods

  /** `EngineBuilder.create()`: any argument is refused; otherwise the native
      `create` runs on the receiver's builder, and answers the engine `ee`
      (NULL on failure, with `errstr` set).  A NULL engine throws the error
      string; any other engine is wrapped as an `ExecutionEngine`. */
  method EngineBuilderCreate(rt: Runtime, args: seq<Value>, receiver: Value, ee: nat, errstr: string)
    returns (res: Result<Value>)
    requires Bound(rt) && rt.ctors[ExecutionEngineClass] != 0 && rt.templates[EngineBuilderClass] != 0
    requires |args| == 0 ==> rt.Is(EngineBuilderClass, receiver)
    modifies rt
    ensures Bound(rt)
    ensures |args| != 0 ==> res == Throw("illegal number of arguments") && unchanged(rt)
    ensures |args| == 0 && ee == 0 ==> res == Throw(errstr) && unchanged(rt)
    ensures |args| == 0 && ee != 0 ==>
              && res.Ok? && rt.templates[ExecutionEngineClass] != 0
              && rt.Is(ExecutionEngineClass, res.value)
              && rt.Unwrap(ExecutionEngineClass, res.value) == ee
              && res.value.obj !in old(rt.instances)
              && rt.instances == old(rt.instances)[res.value.obj := ee]
              && rt.weak == old(rt.weak)
    ensures rt.templates == old(rt.templates) && rt.ctors == old(rt.ctors)
  {
    if |args| != 0 {
      return Throw("illegal number of arguments");
    }
    if ee == 0 {
      return Throw(errstr);
    }
    var engine := rt.Wrap(ExecutionEngineClass, ee);
    res := Ok(engine);
  }

  /** `ExecutionEngine.getPointerToFunction(fn)`: refuses anything but one
      `Function` argument, before the receiver is looked at; otherwise asks
      the receiver's engine for the
      function's machine code and wraps a new `FunctionPointer` object
      (at `newPtr`) holding it. */
  method GetPointerToFunction(rt: Runtime, args: seq<Value>, receiver: Value, newPtr: nat)
    returns (res: Result<Value>)
    requires Bound(rt) && rt.ctors[FunctionPointerClass] != 0 && rt.templates[FunctionClass] != 0
    requires rt.templates[ExecutionEngineClass] != 0
    requires |args| == 1 && rt.Is(FunctionClass, args[0]) ==> rt.Is(ExecutionEngineClass, receiver)
    requires newPtr != 0
    modifies rt
    ensures Bound(rt)
    ensures !(|args| == 1 && old(rt.Is(FunctionClass, args[0]))) ==>
              res == Throw("illegal argument #0: llvm.Function expected") && unchanged(rt)
    ensures |args| == 1 && old(rt.Is(FunctionClass, args[0])) ==>
              && res.Ok? && rt.templates[FunctionPointerClass] != 0
              && rt.Is(FunctionPointerClass, res.value)
              && rt.Unwrap(FunctionPointerClass, res.value) == newPtr
              && res.value.obj !in old(rt.instances)
              && rt.instances == old(rt.instances)[res.value.obj := newPtr]
              && rt.weak == old(rt.weak)
    ensures rt.templates == old(rt.templates) && rt.ctors == old(rt.ctors)
  {
    if |args| != 1 || !rt.Is(FunctionClass, args[0]) {
      return Throw("illegal argument #0: llvm.Function expected");
    }
    var pointer := rt.Wrap(FunctionPointerClass, newPtr);
    res := Ok(pointer);
  }
}
