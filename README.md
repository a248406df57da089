# node-llvm core, modelled in Dafny

node-llvm exposes LLVM to JavaScript through native V8 bindings. Its
companion tool, kharon, generates such bindings by walking C++ declarations
through libclang. This project models the parts of both that make
decisions. The native libraries (V8, libclang, LLVM) are replaced by abstract
values: a handle heap, a ledger of native calls and a finite cursor tree.

- **Pointer wrappers** (`HandleWrappers`, `src/wrappers.h`): a registry of
  wrapped native classes with parent registrations. Each one has a lazily
  created, write-once function template and constructor. The handle heap maps
  every instance to the native pointer in its internal field.
  - `Is` holds exactly for instances of the class and of its descendants.
  - `Wrap` and `Unwrap` preserve NULL and round-trip a pointer.
  - The constructor callback chooses between the wrapping path and the native
    factory.
- **LLVM bindings** (`LlvmBindings`, `src/bindings.cc`):
  - the declared wrapper hierarchy;
  - the argument guards of the native factories;
  - `EngineBuilder.create` and `ExecutionEngine.getPointerToFunction`.
- **libclang bridge** (`Libclang`, `kharon/node-libclang/src/node-libclang.cc`):
  - the visitor trampoline that turns a host callback into traversal
    directives and forces `Break` on an exception;
  - `cursor.visit`, which rethrows the caught exception or returns the
    traversal result;
  - value wrappers that own heap copies;
  - the move-only `Context` and its teardown order;
  - `String::Copy`;
  - `Parse`, with its argument validation and its cleanup on failure.
  - `clang_visitChildren` itself (`Cursors`) is a pre-order walk under the
    three directives.
- **Marshalers** (`Marshalers`, `kharon/marshalers.js`):
  - `formatTemplate`, as its two substitution passes;
  - the snippets each marshaler produces;
  - the `id`-memoising factories;
  - the bound-class registry and the bound-base search;
  - the dispatch of `marshalType` on a type's canonical kind.
- **Cursor utilities** (`Utils`, `kharon/utils.js`): `children`, `pathTo`,
  `cxxname`, `guessFirstTemplateArgument` and `guessRequiredArgs`. Each is
  proved against a declarative specification over the cursor tree.
- **Radix trie** (`Trie`, `kharon/trie.js`):
  - `Nod` and `Arr` are classes updated in place. Their methods are proved
    equal to value-level insert functions.
  - Those functions are proved to keep labels non-empty and sibling labels
    apart.
  - After an insert, every key maps to the right value.
  - A duplicate key is the only error.

## Model

| member | source | states |
|---|---|---|
| Cursors.WalkFrom | kharon/node-libclang/src/node-libclang.cc:124 | `clang_visitChildren` from a child position: the visitor's directive on each child decides Break, Recurse or Continue; RecordUntilFrom, RecurseVisitsAll and BreakAtKthCall state what it visits |
| Cursors.RecurseVisitsAll | kharon/node-libclang/src/node-libclang.cc:124 | a traversal whose visitor always answers Recurse shows every descendant exactly once, in pre-order, and is not stopped |
| Cursors.BreakAtKthCall | kharon/node-libclang/src/node-libclang.cc:124 | answering Break on the k-th call shows exactly the first k descendants in pre-order and reports the stop; with fewer descendants all are shown and the walk is not stopped |
| Cursors.RecordUntilFrom | kharon/node-libclang/src/node-libclang.cc:124 | from any child position, with s already recorded and a k-th call still ahead, the walk appends as many further descendants as bring the record to k in pre-order and reports the stop, or appends all remaining descendants and does not stop |
| Cursors.WalkFromRecurse | kharon/node-libclang/src/node-libclang.cc:124 | Recurse on a child visits that child's subtree before its next sibling, and a Break inside the subtree ends the whole walk |
| Libclang.Trampoline | kharon/node-libclang/src/node-libclang.cc:95-114 | the `Visitor` trampoline on values: it runs the callback; a thrown exception is recorded and answered with Break, and a returned integer is passed on; TrampolineDirective and CaughtStops state this |
| Libclang.Visit | kharon/node-libclang/src/node-libclang.cc:116-129 | `cursor.visit` on values: the traversal through the trampoline, then the rethrow or the result; VisitOutcomeMatchesWalk and ThrowAtKthCall state its outcome |
| Libclang.TrampolineDirective | kharon/node-libclang/src/node-libclang.cc:95-114 | a throwing callback yields Break and records the exception; otherwise the callback's integer is passed back unchanged and the caught slot is left alone |
| Libclang.CaughtStops | kharon/node-libclang/src/node-libclang.cc:102-111 | once an exception is caught the traversal is stopped: no later callback runs while one is pending |
| Libclang.StoppedOnlyByThrow | kharon/node-libclang/src/node-libclang.cc:109-113 | with a callback that never answers Break itself, the traversal stops exactly when the callback threw |
| Libclang.VisitOutcomeMatchesWalk | kharon/node-libclang/src/node-libclang.cc:124-128 | `visit` has exactly one outcome: it rethrows precisely when the walk caught an exception, and otherwise returns 1 for a walk stopped by Break and 0 otherwise |
| Libclang.ThrowOnCallWalk | kharon/node-libclang/src/node-libclang.cc:109-111 | a callback that throws on its k-th call, seen through the trampoline, records the same cursors and stops at the same point as a visitor answering Break on that call, and any exception it catches is that one |
| Libclang.ThrowAtKthCall | kharon/node-libclang/src/node-libclang.cc:116-129 | a visit whose callback throws on the k-th call sees exactly the first k descendants and rethrows that exception; with fewer descendants it returns 0 |
| Libclang.VisitorData.constructor | kharon/node-libclang/src/node-libclang.cc:122-123 | the client data holds the callback and its closure state, with nothing caught |
| Libclang.VisitorData.Visitor | kharon/node-libclang/src/node-libclang.cc:95-114 | the trampoline runs only while nothing is caught, and its new state and directive are those of the trampoline function |
| Libclang.VisitChildren | kharon/node-libclang/src/node-libclang.cc:124 | the native traversal driven by the trampoline ends in the state of the walk specification; a caught exception implies the walk was stopped |
| Libclang.CursorVisit | kharon/node-libclang/src/node-libclang.cc:116-129 | the caught exception is rethrown; otherwise the traversal's unsigned result is returned, and the callback's closure state is that of the visit specification |
| Libclang.ValueWrapper.constructor | kharon/node-libclang/src/node-libclang.cc:83-84 | a wrapper starts with an empty template, an empty constructor and no instances |
| Libclang.ValueWrapper.Template | kharon/node-libclang/src/node-libclang.cc:55-58 | the template is initialised on the first call only; every call answers the same template and changes nothing else |
| Libclang.ValueWrapper.Constructor | kharon/node-libclang/src/node-libclang.cc:60-65 | the constructor is created from the template on the first call only; later calls change nothing |
| Libclang.ValueWrapper.Wrap | kharon/node-libclang/src/node-libclang.cc:39-48 | a new instance of the wrapper's template, under a serial no existing instance has, holds the value in its own cell; unwrapping it gives the value back and no other cell changes |
| Libclang.ValueWrapper.Finalize | kharon/node-libclang/src/node-libclang.cc:77-81 | the weak finalizer deletes exactly that instance's heap copy and hands it over for destruction |
| Libclang.ClangLibrary.constructor | kharon/node-libclang/src/node-libclang.cc:527-528 | the library ledger starts empty |
| Libclang.ClangLibrary.CreateIndex | kharon/node-libclang/src/node-libclang.cc:527 | a new non-NULL index is created and logged |
| Libclang.ClangLibrary.ParseTranslationUnit | kharon/node-libclang/src/node-libclang.cc:528 | parsing yields a new unit, or NULL when the arguments do not parse, and is logged |
| Libclang.ClangLibrary.DisposeTranslationUnit | kharon/node-libclang/src/node-libclang.cc:450 | disposing a unit is logged |
| Libclang.ClangLibrary.DisposeIndex | kharon/node-libclang/src/node-libclang.cc:451 | disposing an index is logged |
| Libclang.Teardown | kharon/node-libclang/src/node-libclang.cc:449-452 | a context releases the unit before the index and skips NULL slots: nothing when both are NULL, both in that order when both are set |
| Libclang.Context.constructor | kharon/node-libclang/src/node-libclang.cc:448 | a context owns the given index and unit |
| Libclang.Context.Copy | kharon/node-libclang/src/node-libclang.cc:454-459 | copying moves both handles and leaves the source owning nothing, so destroying both copies releases each resource once |
| Libclang.Context.Destroy | kharon/node-libclang/src/node-libclang.cc:449-452 | the destructor makes exactly the teardown calls |
| Libclang.FinalizeContext | kharon/node-libclang/src/node-libclang.cc:77-81 | finalizing a wrapped context deletes its heap copy, whose destructor releases the unit and then the index it owns |
| Libclang.UntilNul | kharon/node-libclang/src/node-libclang.cc:488-492 | a buffer's C string is its longest NUL-free prefix |
| Libclang.UntilNulIdentity | kharon/node-libclang/src/node-libclang.cc:488-492 | a string is its own C string exactly when it holds no NUL |
| Libclang.UntilNulPadded | kharon/node-libclang/src/node-libclang.cc:488-492 | NUL padding after a C string does not change it |
| Libclang.UntilNulPrefix | kharon/node-libclang/src/node-libclang.cc:488-492 | the C string ends at the first NUL |
| Libclang.CopyString | kharon/node-libclang/src/node-libclang.cc:488-492 | `String::Copy` fills a fresh buffer of length+1 with strncpy's copy and NUL padding, and the C string it holds is the source's C string |
| Libclang.Argv | kharon/node-libclang/src/node-libclang.cc:505-520 | the argument vector `Parse` builds, or none when an argument's string form is empty; ArgvSpec states it |
| Libclang.ArgvSpec | kharon/node-libclang/src/node-libclang.cc:505-520 | the argument vector is rejected exactly when some argument's string form is empty; otherwise it holds each argument's C string, in order |
| Libclang.CopyArguments | kharon/node-libclang/src/node-libclang.cc:512-525 | the copy loop produces the argument vector, stopping at the first empty argument |
| Libclang.Parse | kharon/node-libclang/src/node-libclang.cc:499-546 | an empty argument throws "expected string arguments" before any native call; a NULL unit disposes the index and throws "failed to parse translation unit"; otherwise a new instance holds a fresh context owning the new index and unit, and the ledger shows exactly the index creation and the parse |
| Libclang.WrapContext | kharon/node-libclang/src/node-libclang.cc:545 | the wrapped context is a fresh object, shared with no other instance, that owns the index and the unit; the temporary it was moved from releases nothing |
| HandleWrappers.Runtime.constructor | src/wrappers.h:26-28 | registrations start with empty templates and constructors and no instances |
| HandleWrappers.Runtime.Template | src/wrappers.h:30-33 | the first call creates the template; later calls answer the same one and change nothing; no existing handle is ever replaced |
| HandleWrappers.Runtime.Init | src/wrappers.h:53-58 | a new template is created for the registration and made to inherit the parent's template, which is created first if missing; instances are untouched |
| HandleWrappers.Runtime.NewTemplate | src/wrappers.h:54-57 | the new template is recorded for this registration and inherits the parent's template when there is a parent |
| HandleWrappers.Runtime.Constructor | src/wrappers.h:35-42 | the constructor is created once, from the template; later calls answer the same function and change nothing |
| HandleWrappers.Runtime.NewConstructor | src/wrappers.h:37-39 | the new constructor comes from the template, and its prototype is the parent's constructor when there is a parent |
| HandleWrappers.Runtime.Unwrap | src/wrappers.h:89-96 | `null` gives NULL; anything else must be an instance of the class, and gives the pointer in its internal field |
| HandleWrappers.Runtime.Ctor | src/wrappers.h:118-151 | one external argument stores its pointer without running a factory; otherwise the factory-less class throws "illegal invocation!", a NULL from the factory stores nothing and answers undefined, and a pointer is stored with a weak finalizer |
| HandleWrappers.Runtime.Wrap | src/wrappers.h:79-87 | NULL becomes `null`; any other pointer becomes a new instance of the class whose unwrapping gives the pointer back |
| HandleWrappers.Runtime.Dtor | src/wrappers.h:110-116 | the finalizer only disposes the handle and never releases the native object |
| HandleWrappers.Runtime.Is | src/wrappers.h:48-50 | `Is`: an instance whose template inherits the registration's template; IsIffAncestor states it holds exactly for the class and its descendants |
| HandleWrappers.Runtime.InheritsParent | src/wrappers.h:57 | a template inheriting a class's template also inherits the parent class's template |
| HandleWrappers.Runtime.IsAncestor | src/wrappers.h:48-50 | an instance of a class is an instance of every ancestor class, transitively |
| HandleWrappers.Runtime.InheritsOnlyAncestors | src/wrappers.h:53-58 | template inheritance between two classes only runs from a class to one of its ancestors |
| HandleWrappers.Runtime.IsIffAncestor | src/wrappers.h:48-50 | `Is` on an instance of class r holds for class a exactly when a is r or an ancestor of r |
| LlvmBindings.DeclaredHierarchy | src/bindings.cc:48-67 | the declared wrappers form a hierarchy in which ConstantInt/ConstantFP sit under Constant under Value, Function/GlobalVariable under GlobalValue under Value, the three derived types under Type, TargetData under Pass and IRBuilder under IRBuilderBase |
| LlvmBindings.Leaves | src/bindings.cc:48-101 | no declared class derives from Module, TargetData or Function |
| LlvmBindings.MakeModuleAsWritten | src/bindings.cc:39-46 | the `Module` factory with its guard as written, which throws only when the count and the type are both wrong |
| LlvmBindings.MakeModuleAsWrittenAcceptsBadArguments | src/bindings.cc:40-43 | the guard as written lets a single non-string argument and a string with extra arguments through; the corrected guard rejects both |
| LlvmBindings.MakeModule | src/bindings.cc:39-46 | a module is made exactly for one string argument and is named by it; anything else throws the guard's message |
| LlvmBindings.MakeModuleCorrectionOnlyRejects | src/bindings.cc:40-43 | the corrected guard only adds rejections: where it accepts, the code as written accepts with the same name |
| LlvmBindings.ModuleArgument | src/bindings.cc:70-73 | the guard of MakeEngineBuilder and MakeFunctionPassManager passes exactly one Module instance and unwraps it; otherwise it fails with "expected 1 argument: Module" |
| LlvmBindings.TargetDataArgument | src/bindings.cc:103-107 | the guard of MakeTargetData passes exactly one TargetData instance; otherwise it fails with "expected 1 argument: TargetData" |
| LlvmBindings.ModuleGuardAcceptsOnlyModules | src/bindings.cc:70 | a single instance passes the Module guard exactly when it is an instance of Module itself |
| LlvmBindings.TargetDataGuardAcceptsOnlyTargetData | src/bindings.cc:104 | a single instance passes the TargetData guard exactly when it is a TargetData |
| LlvmBindings.Outcome | src/bindings.cc:69-77 | a factory answers NULL exactly when its guard failed |
| LlvmBindings.NewEngineBuilder | src/bindings.cc:69-80 | `new EngineBuilder(...)` allocates a new instance; a single external pointer is stored as is; otherwise exactly one Module gives a native builder owned through a weak finalizer, and anything else throws the guard's error and stores NULL; no other instance, template or constructor changes |
| LlvmBindings.EngineBuilderCreate | src/bindings.cc:113-118 | any argument throws "illegal number of arguments"; a NULL engine throws the error string; both leave the runtime unchanged; any other engine is wrapped as a new ExecutionEngine instance, and no other instance, finalizer, template or constructor changes |
| LlvmBindings.GetPointerToFunction | src/bindings.cc:138-141 | anything but exactly one Function throws "illegal argument #0: llvm.Function expected", whatever the receiver; otherwise a new FunctionPointer instance holding the new FunctionPointer object at `newPtr` is returned, and no other instance, finalizer, template or constructor changes |
| Marshalers.FormatTemplate | kharon/marshalers.js:280-287 | `formatTemplate`: the `$name` pass, which fails on a missing name, then the `${expr}` pass; what it yields is stated by FormatRender and FormatPlainText |
| Marshalers.Substitute | kharon/marshalers.js:281-283 | the `$name` pass: each maximal lower-case name after `$` is replaced by its dictionary entry; its behaviour is stated by SubstituteLiteral, SubstituteName, SubstituteDollar and SubstituteRender |
| Marshalers.Evaluate | kharon/marshalers.js:284-286 | the `${expr}` pass: each braced expression up to the first `}` is replaced by its value; its behaviour is stated by EvaluateLiteral, EvaluateExpression and EvaluateHalfway |
| Marshalers.LowerRun | kharon/marshalers.js:281 | the name after `$` is the longest run of lower-case letters |
| Marshalers.ClosingBrace | kharon/marshalers.js:284 | an expression ends at the first `}` |
| Marshalers.SubstituteLiteral | kharon/marshalers.js:281-283 | text without `$` passes the first pass unchanged |
| Marshalers.SubstituteName | kharon/marshalers.js:281-283 | `$name` becomes the dictionary entry of the whole lower-case run; a missing entry fails the assertion |
| Marshalers.SubstituteDollar | kharon/marshalers.js:281 | a `$` with no lower-case letter after it stays |
| Marshalers.EvaluateLiteral | kharon/marshalers.js:284-286 | text without `$` passes the second pass unchanged |
| Marshalers.EvaluateExpression | kharon/marshalers.js:284-286 | `${expr}` becomes the value of `expr` |
| Marshalers.SubstituteRender | kharon/marshalers.js:281-283 | the first pass over a well-formed template fills every name and keeps every `${expr}` |
| Marshalers.EvaluateHalfway | kharon/marshalers.js:284-286 | the second pass then fills every expression |
| Marshalers.FormatRender | kharon/marshalers.js:280-287 | formatting a well-formed template whose names and expressions all have values yields the pieces' values in order |
| Marshalers.FormatPlainText | kharon/marshalers.js:280-287 | text without `$` formats to itself |
| Marshalers.DescriptorFields | kharon/marshalers.js:305-311 | the factory's `id` and `display` templates yield the model's `id` and `display` for every marshaler |
| Marshalers.StringFields | kharon/marshalers.js:170-191 | Twine, StringRef and STDString have their fixed ids and display "string" |
| Marshalers.IpListFields | kharon/marshalers.js:198-199 | an iplist's id is its element definition's USR and its display names the element class |
| Marshalers.ArrayRefFields | kharon/marshalers.js:210 | an ArrayRef's id is its element definition's USR |
| Marshalers.EnumFields | kharon/marshalers.js:222-223 | an enum's id is its qualified name and its display is "enum" and that name |
| Marshalers.ClassFields | kharon/marshalers.js:130-131 | the display template of a bound class yields "class" and its qualified name; its id is its USR by the definition of the `id` function |
| Marshalers.PrimitiveFields | kharon/marshalers.js:153-155 | the display template of a primitive yields its type name; its id is its upper-cased name, as the constructor assigns it |
| Marshalers.ToString | kharon/marshalers.js:161-319 | `toString`: LLVMContext prints as the global-context expression its own `toString` answers, any other marshaler as its non-empty display or else its id; ToStringShowsDisplay states which applies |
| Marshalers.ToStringShowsDisplay | kharon/marshalers.js:317-319 | a marshaler prints as its non-empty display; an ArrayRef, which has none, prints as its id |
| Marshalers.IsSynthetic | kharon/marshalers.js:54 | only LLVMContext synthesizes; asking of `null` throws |
| Marshalers.CanMarshalToV8 | kharon/marshalers.js:55 | false for `null`, LLVMContext and Twine, true for every other marshaler |
| Marshalers.CanMarshalFromV8 | kharon/marshalers.js:56 | false for `null` and iplist, true otherwise, LLVMContext through synthesis |
| Marshalers.ToV8 | kharon/marshalers.js:289-303 | the installed `toV8` formatter: the marshaler's template formatted with `val` added to its fields; the snippet lemmas state its result for each marshaler |
| Marshalers.FromV8 | kharon/marshalers.js:289-303 | the installed `fromV8` formatter, likewise |
| Marshalers.Test | kharon/marshalers.js:289-303 | the installed `test` formatter, likewise |
| Marshalers.PrimitiveTemplates | kharon/marshalers.js:156-158 | a primitive's three templates produce `<id>_TO_V8(v)`, `<id>_FROM_V8(v)` and `IS_<id>(v)` for any dictionary |
| Marshalers.PrimitiveSnippets | kharon/marshalers.js:150-159 | a primitive's snippets call the helper macros named by its stem |
| Marshalers.PrimitiveStems | kharon/marshalers.js:153 | for every primitive kind, the upper-cased kind spelling is the stem of that kind's helper macros |
| Marshalers.PrimitiveKindSnippets | kharon/marshalers.js:150-159 | the primitive built for a kind calls that kind's `_TO_V8`, `_FROM_V8` and `IS_` helpers |
| Marshalers.IntSnippet | kharon/marshalers.js:156 | for a canonical int, `toV8("x")` is `INT_TO_V8(x)` |
| Marshalers.ClassTemplates | kharon/marshalers.js:132-134 | a bound class's templates produce `<name>.Wrap(v)`, `<name>.Unwrap(v)` and `<name>.Is(v)` |
| Marshalers.ClassSnippets | kharon/marshalers.js:124-135 | a bound class converts through its wrapper's Wrap, Unwrap and Is |
| Marshalers.BoundClassSnippets | kharon/marshalers.js:137-148 | a reference to a bound class takes the address before Wrap, dereferences after Unwrap and tests like the class |
| Marshalers.StringRefTemplates | kharon/marshalers.js:173-182 | StringRef and Twine use their own helper macros |
| Marshalers.STDStringTemplates | kharon/marshalers.js:188-189 | STDString uses its own helper macros |
| Marshalers.StringSnippets | kharon/marshalers.js:170-191 | the string types convert through their helpers, and a Twine only converts in |
| Marshalers.IpListTemplate | kharon/marshalers.js:201 | the iplist template passes the wrapper class, the element's C++ name, the list's element type and the value to IPLIST_TO_V8 |
| Marshalers.IpListSnippet | kharon/marshalers.js:193-203 | an iplist of a bound class converts out through IPLIST_TO_V8 with that class's name and qualified name |
| Marshalers.ArrayRefTemplates | kharon/marshalers.js:211-212 | the ArrayRef templates instantiate ArrayRefToV8/ArrayRefFromV8 at the element type and pass the wrapper class |
| Marshalers.ArrayRefSnippets | kharon/marshalers.js:205-214 | an ArrayRef of a bound class converts through those helpers with that class's wrapper |
| Marshalers.EnumTemplates | kharon/marshalers.js:224-225 | the enum templates pass the qualified name and the value to ENUM_TO_V8/ENUM_FROM_V8 |
| Marshalers.EnumSnippets | kharon/marshalers.js:216-227 | an enum converts through integers cast to its qualified name |
| Marshalers.FindBoundBase | kharon/marshalers.js:230-249 | `findBoundBase`: a registered class itself, else the first base specifier of its definition whose own search succeeds; FindBoundBaseIsBound and BoundBaseFromFirst state this |
| Marshalers.BoundBaseFrom | kharon/marshalers.js:238-243 | the search of `findBoundBase` through base specifiers, child by child, stopping at the first success |
| Marshalers.BaseProbeScan | kharon/marshalers.js:238-243 | the visit callback's `inherits` after a scan of the children is what the child search finds |
| Marshalers.BaseProbeVisit | kharon/marshalers.js:237-245 | the `visit` in `findBoundBase` ends with `inherits` holding the child search's result |
| Marshalers.FindBoundBaseIsBound | kharon/marshalers.js:230-249 | the base search only ever answers with a registered marshaler |
| Marshalers.BoundBaseFromIsBound | kharon/marshalers.js:238-243 | so does the search through the base specifiers |
| Marshalers.BoundBaseFromFirst | kharon/marshalers.js:238-243 | the search answers with the result for the first base specifier, in child order, whose own search succeeds, and with nothing when there is none |
| Marshalers.FindDirectMarshaler | kharon/marshalers.js:252-261 | a marshaler is found exactly when the declaration or its class definition is registered |
| Marshalers.DirectBeforeBase | kharon/marshalers.js:230-261 | a registered class is also what the base search finds; the base search differs only for unregistered classes, where it searches the definition's bases |
| Marshalers.SelectMarshaler | kharon/marshalers.js:59-122 | the choice `marshalType` makes from the canonical type kind, before memoisation; SelectMarshalerDispatch and SelectUsesBound state each branch |
| Marshalers.SelectMarshalerDispatch | kharon/marshalers.js:59-122 | primitive kinds give the primitive for the kind's spelling, with that kind's helper macros; Enum gives the enum marshaler; references to LLVMContext, basic_string, Twine and StringRef give the fixed marshalers; pointers give the class marshaler; unlisted kinds give nothing |
| Marshalers.MarshalClass | kharon/marshalers.js:265-267 | `marshalClass` chooses by direction: into the host (`toV8`) the bound-base search, which gives the class itself or else the first registered base in child order; in any other direction only the class itself or its ClassDecl definition, with no fallback to a base; MarshalClassIsBound states it only answers registered marshalers |
| Marshalers.MarshalClassIsBound | kharon/marshalers.js:265-267 | the class lookup answers only with registered marshalers, in either direction |
| Marshalers.SelectUsesBound | kharon/marshalers.js:59-122 | every class a selected marshaler refers to is a registered one |
| Marshalers.ContainerUsesBound | kharon/marshalers.js:75-101 | iplist and ArrayRef marshalers are built only over registered element classes |
| Marshalers.Memo | kharon/marshalers.js:321-328 | the cache after one factory call: the product is added under its family and id unless one is there; MemoFirstWins and MemoKeepsKey state this |
| Marshalers.MemoFirstWins | kharon/marshalers.js:321-328 | after a run of factory calls each cached slot keeps its old product, or else holds the first product of the run with that id; no other slot is filled |
| Marshalers.MemoKeepsKey | kharon/marshalers.js:327 | the product a factory call returns has the id and factory of the one asked for, and the cache stays keyed by id |
| Marshalers.Registry.constructor | kharon/marshalers.js:43 | the registry and the caches start empty |
| Marshalers.Registry.Make | kharon/marshalers.js:322-328 | a factory call caches its product unless one with the same id exists, and returns the cached one |
| Marshalers.Registry.AddBoundClass | kharon/marshalers.js:46-51 | a USR registered before fails the assertion and changes nothing; otherwise the class marshaler is registered under the USR, cached and returned |
| Marshalers.Registry.Instances | kharon/marshalers.js:331-333 | `getInstances` lists only the factory's cached products |
| Marshalers.Registry.MarshalType | kharon/marshalers.js:59-122 | `marshalType` answers the selected marshaler, memoised by the factory that builds it, and leaves the bound classes unchanged |
| Utils.Children | kharon/utils.js:39-43 | `children`: the visit that pushes each child and answers Continue; ChildrenAreImmediate states it gives the immediate children in order |
| Utils.ShallowVisit | kharon/utils.js:41 | a visit whose callback never answers Recurse shows only the root's immediate children, in order |
| Utils.ChildrenAreImmediate | kharon/utils.js:39-43 | `children` lists exactly the immediate children, in visit order |
| Utils.PathTo | kharon/utils.js:45-54 | the loop over the parent chain produces the declaration's path |
| Utils.PathShape | kharon/utils.js:45-54 | a path ends with the declaration's spelling and lists every enclosing scope outermost first; only the outermost can be missing, and only when it is '' or 'src/bindings.cc' |
| Utils.CxxName | kharon/utils.js:56-63 | the loop over the parent chain produces the qualified name |
| Utils.QualifiedNameShape | kharon/utils.js:56-63 | a qualified name ends with the spelling; a declaration in the topmost scope is named by its spelling alone; an enum adds no scope |
| Utils.GuessFirstTemplateArgument | kharon/utils.js:67-84 | `guessFirstTemplateArgument`: the guard on the first child, then the scan past namespace references; GuessFirstTemplateArgumentSpec states when it guesses and what |
| Utils.FirstArgumentFromSpec | kharon/utils.js:71-83 | the scan answers the first type or template reference reached past namespace references only, and nothing when another kind or the end comes first |
| Utils.GuessFirstTemplateArgumentSpec | kharon/utils.js:67-84 | there is a guess exactly when there are at least two children, the first is a TemplateRef, and a type or template reference follows past namespace references only; the guess is that child |
| Utils.HasDefault | kharon/utils.js:96-106 | the inner visit of a parameter that looks for a default initializer; HasDefaultSpec and DefaultScan state it |
| Utils.DefaultScan | kharon/utils.js:96-106 | the inner visit ends with `hasDefault` set exactly when some child is not part of the declarator |
| Utils.HasDefaultSpec | kharon/utils.js:94-106 | a parameter has a default exactly when one of its children is not a TypeRef, TemplateRef, NamespaceRef or ParmDecl |
| Utils.GuessRequiredArgs | kharon/utils.js:89-128 | `guessRequiredArgs`: the outer visit counting parameters without a default; GuessRequiredArgsSpec and RequiredAtMostParameters state what it counts |
| Utils.CountScan | kharon/utils.js:92-125 | the outer visit's count is the declarative count over the remaining children |
| Utils.GuessRequiredArgsSpec | kharon/utils.js:89-128 | the count is the number of parameters without a default before the first defaulted one; type references and attributes are passed over and any other child stops the count |
| Utils.RequiredAtMostParameters | kharon/utils.js:108-111 | the count never exceeds the number of parameters |
| Trie.SharedPrefix | kharon/trie.js:20-28 | r is at most both lengths, the sequences agree on their first r elements, and they differ at index r when both are longer |
| Trie.SharedPrefixUnique | kharon/trie.js:20-28 | those three properties determine r |
| Trie.PrefixLen | kharon/trie.js:20-28 | the index loop returns the shared prefix length |
| Trie.InsertVia | kharon/trie.js:73-77 | in a well-formed node the loop delegates to the one edge starting with the key's first element |
| Trie.InsertMiss | kharon/trie.js:79 | a key that starts no label gets a new last edge holding a leaf with the value |
| Trie.SplitEdge | kharon/trie.js:35-48 | `arr.split` on values: the label cut at the shared prefix over a new value-less node; SplitCuts, SplitKeeps and SplitShape state this |
| Trie.EdgeInsert | kharon/trie.js:50-59 | `arr.insert` on values: declines with no shared prefix, else splits and inserts the rest below; EdgeInsertDeclines and EdgeInsertLookup state this |
| Trie.EdgesInsert | kharon/trie.js:73-79 | the loop of `nod.insert` on values: the first edge that accepts takes the key, else a new leaf edge is appended; InsertVia and InsertMiss state this |
| Trie.TreeInsert | kharon/trie.js:66-80 | `nod.insert` on values; InsertFails, InsertLookup, InsertWellFormed and InsertStores state its meaning |
| Trie.SplitCuts | kharon/trie.js:36-47 | a split at the label's end keeps the edge; one inside the label leaves the prefix, leading to a value-less node with one edge (suffix, old child), and prefix plus suffix is the old label |
| Trie.SplitKeeps | kharon/trie.js:35-48 | a split inside a label changes no stored key |
| Trie.SplitShape | kharon/trie.js:42-47 | after the split the edge's label is the shared prefix, and the rest of the key goes below it |
| Trie.EdgeInsertDeclines | kharon/trie.js:50-55 | `arr.insert` answers false exactly when the label and the key share no prefix |
| Trie.MidAccepts | kharon/trie.js:42-47 | the node a split puts in between accepts any rest of the key, so a split is never followed by a failure |
| Trie.EdgeInsertLookup | kharon/trie.js:50-59 | after an edge takes a key, it stores the value under that key and everything else as before |
| Trie.InsertLookup | kharon/trie.js:66-80 | after a successful insert the trie stores the value under the key and leaves every other key as it was |
| Trie.InsertFails | kharon/trie.js:67-71 | an insert fails, with the assertion's message, exactly when the key is already stored |
| Trie.InsertWellFormed | kharon/trie.js:66-80 | insertion keeps every label non-empty and sibling labels starting with distinct elements |
| Trie.InsertStores | kharon/trie.js:66-80 | on a well-formed trie, an insert fails exactly on a stored key; otherwise it stores the value and keeps every other key and the invariants |
| Trie.Nod.Empty | kharon/trie.js:61-64 | `new Nod(null, [])` is a root that stores no key at all |
| Trie.Nod.Holding | kharon/trie.js:79 | a new node holds the value and no edges |
| Trie.Nod.Over | kharon/trie.js:45 | the node a split creates has no value and one edge |
| Trie.Nod.Insert | kharon/trie.js:66-80 | the node's insert succeeds exactly when the value-level insert does, and leaves the node equal to its result, or unchanged on failure |
| Trie.Nod.Push | kharon/trie.js:79 | the new edge is appended and nothing else changes |
| Trie.Nod.Offer | kharon/trie.js:73-78 | one loop round updates the i-th edge as the value-level edge insert says, and changes nothing when it declines |
| Trie.Arr.constructor | kharon/trie.js:30-33 | a new edge has the given label and child |
| Trie.Arr.Split | kharon/trie.js:35-48 | the edge becomes the value-level split of itself, and the returned node is its new child |
| Trie.Arr.Insert | kharon/trie.js:50-59 | the edge's insert answers and updates as the value-level edge insert says, and changes nothing when it answers false |

## Left out

- The `BINDCONST`/`BIND` tables and the `Register*` functions of the libclang bridge: they list names and the enum values of `clang-c/Index.h`, which is not part of this model.
- The per-method cursor and type accessors (`SIMPLE_METHOD0`/`COMPLEX_METHOD0`, including the argument-type loop of `TypeArgs` and `ContextCursor`): cursors and types are abstract values whose fields answer these queries.
- `StringValue` and the `Prototype()` accessors: they are thin conversions with no decision in them.
- Diagnostic printing in `Parse`: it is output to stderr.
- The `delete[]` calls in `Parse`: memory release is not modelled; the buffers are values.
- Libclang.Trampoline: the callback's reply is taken as its 32-bit integer. The host's `Int32Value` conversion of an arbitrary script value is not modelled.
- Cursors.WalkFrom: a directive other than Break (0) or Recurse (2) continues with the next sibling. libclang's handling of out-of-range values is not part of this model.
- `ParentOf` of the null cursor is the null cursor. `cxxname` relies on this when it asks for the parent of a top-level declaration.
- V8 mechanics: handle scopes, persistent handles, garbage-collection timing and internal fields are abstracted into the handle heap. Collection itself is not modelled; a finalizer is a method the caller may run.
- HandleWrappers.Runtime.Ctor: the native factory is a parameter (`made`), because what LLVM constructs is foreign.
- `MakeIRBuilder` has no guard and is a factory outcome like any other.
- HandleWrappers.Runtime.Init: the source makes the new template before it asks for the parent's; the model asks for the parent's first. Handles are abstract numbers here, so only their numbering differs.
- HandleWrappers.Runtime.Constructor: likewise the source stores the new constructor before it asks for the parent's, and the model asks for the parent's first.
- Libclang.ValueWrapper.Wrap: for the value types (cursors, types) a copy is the value itself. For `Context`, the fresh copy that no other instance shares is stated on `WrapContext` and `Parse`.
- Marshalers.FormatTemplate: the dictionary is a finite map. In the source it is an object created from the marshaler, so `name in dict` also finds inherited names such as `constructor`. The fixed descriptor templates use no such name.
- Utils.GuessRequiredArgs: `no_result` compares the method `kind`, not its result, with `Type.Void`, so it is always false, and type references are never counted. The model keeps this as written (`NoResult`). The intended counting is not evident from the code, so no corrected version is modelled.
- Marshalers.Registry.Instances: the model answers a set. The source returns an array in `Object.keys` order, which is not modelled.
- Host.AsciiValue: a string argument is passed through unchanged. `v8::String::AsciiValue` narrows non-ASCII characters, which is not modelled. Only the contents of the argument vector would differ, because an argument keeps its length, so the emptiness test gives the same answer.
- The GetPointerToFunction result holds the address of the new `util::FunctionPointer` object (`newPtr`). How that object relates to the engine's code pointer is not modelled.
- `MakeFunctionPassManager` and `MakeTargetData` are modelled through their guards (`ModuleArgument`, `TargetDataArgument`). The constructor path around them is the one `NewEngineBuilder` shows.
- `FunctionPointer_toJSFunction` and `util::FunctionPointer`: they `reinterpret_cast` machine code into a callback.
- The `${expr}` branch of `formatTemplate` evaluates JavaScript. The model replaces it with a table of the values of the expressions the descriptors use (`Expressions`). An expression outside the table evaluates to a ReferenceError.
- `String.prototype.format` and the `toString` of cursors and types in `utils.js`: they only format debugging output.
- `Nod.toString`: it only formats output.
- Trie: a `null` inserted as a value is not modelled. Values are `Option`-wrapped, so a node's empty slot cannot be confused with a stored value.
- `Trie.Lookup`, `Utils.Required` and similar functions are specifications written for the proofs. They have no counterpart in the source.
- `src/bindings-helpers.h` and `src/v8capi.cc` are not part of this model. The stems in `Marshalers.MacroStem` are the names of the helper macros the generated code calls.

## Findings

| source | as written | input that shows it | evidently intended | confidence | as-written member | corrected member |
|---|---|---|---|---|---|---|
| src/bindings.cc:40 | the `Module` constructor's guard is `args.Length() != 1 && !args[0]->IsString()`, so it rejects only when both the count and the type are wrong | `new Module(42)` (a module named "42") or `new Module("a", "b")` pass the guard | the logical or operator in place of the logical and, rejecting anything but exactly one string argument, as the message "expected 1 string argument" says | high; not executed | LlvmBindings.MakeModuleAsWrittenAcceptsBadArguments | LlvmBindings.MakeModule |
