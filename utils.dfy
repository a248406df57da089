/** Helpers of the binding generator over libclang cursors: immediate
    children, the path and the qualified C++ name of a declaration, the first
    template argument of a template-typed declaration, and the number of
    parameters without a default.  Cursor visits go through the bridge's
    `Visit`; a callback's closure variables are its threaded state. */
module Utils {

  import opened Host
  import opened Cursors
  import opened Libclang

  // ---------------------------------------------------------------------------
  // Visits that never descend

  /** A callback that never answers `VisitRecurse`. */
  ghost predicate Shallow<S(!new)>(cb: Callback<S>) {
    forall s: S, c: Cursor, p: Cursor :: cb(s, c, p).1 != Returned(VisitRecurse)
  }

  /** A visit that never descends, written as a scan over the root's
      children from the `i`-th on. */
  function ScanFrom<S>(cb: Callback<S>, parent: Cursor, i: nat, s: S): VisitOutcome<S>
    requires i <= |ChildrenOf(parent)|
    decreases |ChildrenOf(parent)| - i
  {
    if i == |ChildrenOf(parent)| then Finished(0, s)
    else
      var (s1, reply) := cb(s, ChildrenOf(parent)[i], parent);
      match reply
      case Threw(e) => Rethrown(e, s1)
      case Returned(d) => if d == VisitBreak then Finished(1, s1) else ScanFrom(cb, parent, i + 1, s1)
  }

  lemma {:induction false} ShallowWalk<S(!new)>(cb: Callback<S>, parent: Cursor, i: nat, s: S)
    requires Shallow(cb) && i <= |ChildrenOf(parent)|
    ensures var r := WalkFrom(Trampolined(cb), parent, i, (s, None));
            ScanFrom(cb, parent, i, s) ==
              if r.0.1.Some? then Rethrown(r.0.1.value, r.0.0) else Finished(if r.1 then 1 else 0, r.0.0)
    decreases |ChildrenOf(parent)| - i
  {
    if i < |ChildrenOf(parent)| {
      var (s1, reply) := cb(s, ChildrenOf(parent)[i], parent);
      if reply.Returned? && reply.code != VisitBreak {
        assert reply.code != VisitRecurse;
        ShallowWalk(cb, parent, i + 1, s1);
      }
    }
  }

  /** With a callback that never answers `VisitRecurse`, `cursor.visit` only
      ever shows the callback the root's immediate children, in order. */
  lemma ShallowVisit<S(!new)>(cb: Callback<S>, root: Cursor, s: S)
    requires Shallow(cb)
    ensures Visit(cb, root, s) == ScanFrom(cb, root, 0, s)
  {
    ShallowWalk(cb, root, 0, s);
  }

  // ---------------------------------------------------------------------------
  // children

  /** The callback of `children`: push the child, continue with its sibling. */
  function PushChild(): Callback<seq<Cursor>> {
    (arr: seq<Cursor>, c: Cursor, p: Cursor) => (arr + [c], Returned(VisitContinue))
  }

  /** `children(cursor)`: the array the callback filled. */
  function Children(cursor: Cursor): seq<Cursor> {
    Visit(PushChild(), cursor, []).state
  }

  lemma {:induction false} PushChildScan(parent: Cursor, i: nat, arr: seq<Cursor>)
    requires i <= |ChildrenOf(parent)|
    ensures ScanFrom(PushChild(), parent, i, arr) == Finished(0, arr + ChildrenOf(parent)[i..])
    decreases |ChildrenOf(parent)| - i
  {
    if i < |ChildrenOf(parent)| {
      var kids := ChildrenOf(parent);
      PushChildScan(parent, i + 1, arr + [kids[i]]);
      assert arr + [kids[i]] + kids[i + 1..] == arr + kids[i..];
    } else {
      assert arr + ChildrenOf(parent)[i..] == arr;
    }
  }

  /** `children` lists exactly the immediate children, in visit order. */
  lemma ChildrenAreImmediate(cursor: Cursor)
    ensures Children(cursor) == ChildrenOf(cursor)
  {
    ShallowVisit(PushChild(), cursor, []);
    PushChildScan(cursor, 0, []);
    assert [] + ChildrenOf(cursor)[0..] == ChildrenOf(cursor);
  }

  // ---------------------------------------------------------------------------
  // pathTo and cxxname

  function Reverse<T>(s: seq<T>): (r: seq<T>)
    ensures |r| == |s|
  {
    if s == [] then [] else Reverse(s[1..]) + [s[0]]
  }

  lemma {:induction false} ReverseAppend<T>(s: seq<T>, x: T)
    ensures Reverse(s + [x]) == [x] + Reverse(s)
  {
    if s != [] {
      assert (s + [x])[1..] == s[1..] + [x];
      ReverseAppend(s[1..], x);
    } else {
      assert Reverse([x]) == Reverse([]) + [x];
    }
  }

  /** The spellings of `p` and of its semantic ancestors, outermost first. */
  function OuterFirst(p: Cursor): seq<string>
    decreases p
  {
    if p.NullCursor? then [] else OuterFirst(ParentOf(p)) + [SpellingOf(p)]
  }

  /** The outermost entry is dropped when it names no file or the bindings'
      own source file. */
  function DropFile(scopes: seq<string>): seq<string> {
    if |scopes| > 0 && (scopes[0] == "" || scopes[0] == "src/bindings.cc") then scopes[1..] else scopes
  }

  /** The path of a declaration: its enclosing scopes outermost first, less a
      leading file entry, then its own spelling. */
  function Path(e: Cursor): seq<string> {
    DropFile(OuterFirst(ParentOf(e))) + [SpellingOf(e)]
  }

  /** `pathTo(e)`: walks the parent chain innermost first, drops the last
      entry if it is the file, reverses and appends the spelling. */
  method PathTo(e: Cursor) returns (path: seq<string>)
    ensures path == Path(e)
  {
    var inner: seq<string> := [];
    var parent := ParentOf(e);
    while !parent.NullCursor?
      invariant OuterFirst(ParentOf(e)) == OuterFirst(parent) + Reverse(inner)
      decreases parent
    {
      ReverseAppend(inner, SpellingOf(parent));
      inner := inner + [SpellingOf(parent)];
      parent := ParentOf(parent);
    }
    assert Reverse(inner) == OuterFirst(ParentOf(e));
    if |inner| > 0 {
      var last := inner[|inner| - 1];
      assert inner == inner[..|inner| - 1] + [last];
      ReverseAppend(inner[..|inner| - 1], last);
      if last == "" || last == "src/bindings.cc" {
        inner := inner[..|inner| - 1];
      }
    }
    path := Reverse(inner) + [SpellingOf(e)];
  }

  /** A path ends with the declaration's own spelling and lists every
      enclosing scope outermost first; only the outermost can be missing,
      and only when it is the file entry. */
  lemma PathShape(e: Cursor)
    ensures var path := Path(e); var scopes := OuterFirst(ParentOf(e));
            && path[|path| - 1] == SpellingOf(e)
            && (path[..|path| - 1] == scopes || (path[..|path| - 1] == scopes[1..] && (scopes[0] == "" || scopes[0] == "src/bindings.cc")))
  {
    var path := Path(e);
    assert path[..|path| - 1] == DropFile(OuterFirst(ParentOf(e)));
  }

  /** The enclosing scopes that appear in a qualified name: every ancestor
      below the topmost one (the one whose parent is null), less enums,
      outermost first. */
  function Scopes(p: Cursor): seq<string>
    decreases p
  {
    if p.NullCursor? || ParentOf(p).NullCursor? then []
    else Scopes(ParentOf(p)) + (if KindOf(p) == EnumDecl then [] else [SpellingOf(p)])
  }

  /** `parts.join(sep)`. */
  function Join(parts: seq<string>, sep: string): string {
    if parts == [] then ""
    else if |parts| == 1 then parts[0]
    else parts[0] + sep + Join(parts[1..], sep)
  }

  /** The qualified C++ name of a declaration. */
  function QualifiedName(e: Cursor): string {
    Join(Scopes(ParentOf(e)) + [SpellingOf(e)], "::")
  }

  /** `cxxname(e)`: walks the parent chain innermost first, skipping enums
      and stopping below the topmost ancestor, then reverses and joins. */
  method CxxName(e: Cursor) returns (name: string)
    ensures name == QualifiedName(e)
  {
    var path := [SpellingOf(e)];
    var parent := ParentOf(e);
    assert Reverse(path) == [SpellingOf(e)] by {
      assert Reverse(path) == Reverse(path[1..]) + [path[0]];
    }
    while !ParentOf(parent).NullCursor?
      invariant Scopes(ParentOf(e)) + [SpellingOf(e)] == Scopes(parent) + Reverse(path)
      decreases parent
    {
      if KindOf(parent) != EnumDecl {
        ReverseAppend(path, SpellingOf(parent));
        path := path + [SpellingOf(parent)];
      }
      parent := ParentOf(parent);
    }
    assert Scopes(parent) + Reverse(path) == Reverse(path);
    name := Join(Reverse(path), "::");
  }

  lemma {:induction false} JoinEndsWith(parts: seq<string>, sep: string)
    requires parts != []
    ensures var j := Join(parts, sep); var last := parts[|parts| - 1];
            |last| <= |j| && j[|j| - |last|..] == last
  {
    if |parts| > 1 {
      JoinEndsWith(parts[1..], sep);
    }
  }

  /** A qualified name ends with the declaration's own spelling; a
      declaration directly in the topmost scope is named by its spelling
      alone; an enum adds no scope to the names inside it. */
  lemma QualifiedNameShape(e: Cursor)
    ensures var n := QualifiedName(e); var s := SpellingOf(e);
            |s| <= |n| && n[|n| - |s|..] == s
    ensures ParentOf(ParentOf(e)).NullCursor? ==> QualifiedName(e) == SpellingOf(e)
    ensures var p := ParentOf(e);
            p.Cursor? && KindOf(p) == EnumDecl && ParentOf(p).Cursor? ==> Scopes(p) == Scopes(ParentOf(p))
  {
    JoinEndsWith(Scopes(ParentOf(e)) + [SpellingOf(e)], "::");
    if ParentOf(ParentOf(e)).NullCursor? {
      assert Scopes(ParentOf(e)) + [SpellingOf(e)] == [SpellingOf(e)];
    }
    var p := ParentOf(e);
    if p.Cursor? && KindOf(p) == EnumDecl && ParentOf(p).Cursor? {
      assert Scopes(ParentOf(p)) + [] == Scopes(ParentOf(p));
    }
  }

  // ---------------------------------------------------------------------------
  // guessFirstTemplateArgument

  predicate IsTypeArgument(c: Cursor) {
    KindOf(c) == TypeRef || KindOf(c) == TemplateRef
  }

  /** The scan from the `i`-th child: namespace qualifiers are skipped, the
      first type or template reference is the answer, anything else ends
      the scan without one. */
  function FirstArgumentFrom(c: seq<Cursor>, i: nat): Option<Cursor>
    decreases |c| - i
  {
    if i >= |c| then None
    else if KindOf(c[i]) == NamespaceRef then FirstArgumentFrom(c, i + 1)
    else if IsTypeArgument(c[i]) then Some(c[i])
    else None
  }

  /** `guessFirstTemplateArgument(decl)` over the children of the canonical
      declaration: it needs at least two children, the first a template
      reference. */
  function GuessFirstTemplateArgument(decl: Cursor): Option<Cursor> {
    var c := Children(CanonicalOf(decl));
    if |c| < 2 || KindOf(c[0]) != TemplateRef then None else FirstArgumentFrom(c, 1)
  }

  /** Only namespace references between positions `i` (included) and `j`. */
  ghost predicate NamespacesBetween(c: seq<Cursor>, i: nat, j: nat)
    requires j <= |c|
  {
    forall k :: i <= k < j ==> KindOf(c[k]) == NamespaceRef
  }

  lemma {:induction false} FirstArgumentFromSpec(c: seq<Cursor>, i: nat)
    requires 1 <= i <= |c|
    ensures FirstArgumentFrom(c, i).Some? ==>
              exists j :: i <= j < |c| && FirstArgumentFrom(c, i) == Some(c[j]) && IsTypeArgument(c[j]) && NamespacesBetween(c, i, j)
    ensures FirstArgumentFrom(c, i).None? ==>
              forall j :: i <= j < |c| && NamespacesBetween(c, i, j) ==> !IsTypeArgument(c[j])
    decreases |c| - i
  {
    if i < |c| && KindOf(c[i]) == NamespaceRef {
      FirstArgumentFromSpec(c, i + 1);
      if FirstArgumentFrom(c, i).Some? {
        var j :| i + 1 <= j < |c| && FirstArgumentFrom(c, i + 1) == Some(c[j]) && IsTypeArgument(c[j]) && NamespacesBetween(c, i + 1, j);
        assert NamespacesBetween(c, i, j);
      } else {
        forall j | i <= j < |c| && NamespacesBetween(c, i, j)
          ensures !IsTypeArgument(c[j])
        {
          if j > i {
            assert NamespacesBetween(c, i + 1, j);
          }
        }
      }
    } else if i < |c| && IsTypeArgument(c[i]) {
      assert NamespacesBetween(c, i, i);
    } else if i < |c| {
      assert KindOf(c[i]) != NamespaceRef && !IsTypeArgument(c[i]);
    }
  }

  /** The guess is the first child after the leading template reference that
      is a type or template reference, past namespace qualifiers only; there
      is none with fewer than two children, without the leading template
      reference, or when another kind of child comes first. */
  lemma GuessFirstTemplateArgumentSpec(decl: Cursor)
    ensures var c := ChildrenOf(CanonicalOf(decl)); var r := GuessFirstTemplateArgument(decl);
            && (r.Some? <==>
                  |c| >= 2 && KindOf(c[0]) == TemplateRef &&
                  exists j :: 1 <= j < |c| && IsTypeArgument(c[j]) && NamespacesBetween(c, 1, j))
            && (r.Some? ==> exists j :: 1 <= j < |c| && r.value == c[j] && IsTypeArgument(c[j]) && NamespacesBetween(c, 1, j))
  {
    ChildrenAreImmediate(CanonicalOf(decl));
    var c := ChildrenOf(CanonicalOf(decl));
    if |c| >= 2 && KindOf(c[0]) == TemplateRef {
      FirstArgumentFromSpec(c, 1);
    }
  }

  // ---------------------------------------------------------------------------
  // guessRequiredArgs

  /** The kinds a parameter's children have when it has no default value. */
  predicate PartOfDeclarator(k: Kind) {
    k == TypeRef || k == TemplateRef || k == NamespaceRef || k == ParmDecl
  }

  /** The inner callback: any other kind of child is taken for a default
      initializer, which is noted before the visit is stopped. */
  function DefaultProbe(): Callback<bool> {
    (hasDefault: bool, c: Cursor, p: Cursor) =>
      if !PartOfDeclarator(KindOf(c)) then (true, Returned(VisitBreak)) else (hasDefault, Returned(VisitContinue))
  }

  function HasDefault(parm: Cursor): bool {
    Visit(DefaultProbe(), parm, false).state
  }

  /** `no_result` compares the unevaluated `kind` method of the result type
      with `Type.Void`, which never holds. */
  const NoResult := false

  /** The outer callback over the method's children, counting in its state. */
  function CountProbe(): Callback<nat> {
    (count: nat, c: Cursor, p: Cursor) =>
      match KindOf(c)
      case ParmDecl =>
        if !HasDefault(c) then (count + 1, Returned(VisitContinue)) else (count, Returned(VisitBreak))
      case TypeRef => (if NoResult then count + 1 else count, Returned(VisitContinue))
      case TemplateRef => (if NoResult then count + 1 else count, Returned(VisitContinue))
      case FirstAttr => (count, Returned(VisitContinue))
      case UnexposedAttr => (count, Returned(VisitContinue))
      case _ => (count, Returned(VisitBreak))
  }

  /** `guessRequiredArgs(method)`. */
  function GuessRequiredArgs(m: Cursor): nat {
    Visit(CountProbe(), m, 0).state
  }

  /** A parameter has a default when one of its children is not part of its
      declarator. */
  ghost predicate Defaulted(parm: Cursor) {
    exists j :: 0 <= j < |ChildrenOf(parm)| && !PartOfDeclarator(KindOf(ChildrenOf(parm)[j]))
  }

  /** The count over a run of children: parameters without a default count,
      type references and attributes are passed over, and a defaulted
      parameter or any other kind ends the count. */
  ghost function Required(kids: seq<Cursor>): nat {
    if kids == [] then 0
    else
      var k := KindOf(kids[0]);
      if k == ParmDecl then (if Defaulted(kids[0]) then 0 else 1 + Required(kids[1..]))
      else if k == TypeRef || k == TemplateRef || k == FirstAttr || k == UnexposedAttr then Required(kids[1..])
      else 0
  }

  lemma {:induction false} DefaultScan(parm: Cursor, i: nat)
    requires i <= |ChildrenOf(parm)|
    ensures var r := ScanFrom(DefaultProbe(), parm, i, false);
            r.Finished? && (r.state <==> exists j :: i <= j < |ChildrenOf(parm)| && !PartOfDeclarator(KindOf(ChildrenOf(parm)[j])))
    decreases |ChildrenOf(parm)| - i
  {
    if i < |ChildrenOf(parm)| && PartOfDeclarator(KindOf(ChildrenOf(parm)[i])) {
      DefaultScan(parm, i + 1);
      var kids := ChildrenOf(parm);
      if exists j :: i <= j < |kids| && !PartOfDeclarator(KindOf(kids[j])) {
        var j :| i <= j < |kids| && !PartOfDeclarator(KindOf(kids[j]));
        assert j != i;
      }
    }
  }

  /** The inner visit finds a default exactly when some child of the
      parameter is not part of its declarator. */
  lemma HasDefaultSpec(parm: Cursor)
    ensures HasDefault(parm) <==> Defaulted(parm)
  {
    ShallowVisit(DefaultProbe(), parm, false);
    DefaultScan(parm, 0);
  }

  lemma {:induction false} CountScan(m: Cursor, i: nat, count: nat)
    requires i <= |ChildrenOf(m)|
    ensures var r := ScanFrom(CountProbe(), m, i, count);
            r.Finished? && r.state == count + Required(ChildrenOf(m)[i..])
    decreases |ChildrenOf(m)| - i
  {
    var kids := ChildrenOf(m);
    if i < |kids| {
      var c := kids[i];
      assert kids[i..][1..] == kids[i + 1..];
      HasDefaultSpec(c);
      var k := KindOf(c);
      if k == ParmDecl && !HasDefault(c) {
        CountScan(m, i + 1, count + 1);
      } else if k == TypeRef || k == TemplateRef || k == FirstAttr || k == UnexposedAttr {
        CountScan(m, i + 1, count);
      }
    }
  }

  /** `guessRequiredArgs` counts the parameters without a default up to the
      first defaulted one, passing over type references and attributes and
      stopping at any other child. */
  lemma GuessRequiredArgsSpec(m: Cursor)
    ensures GuessRequiredArgs(m) == Required(ChildrenOf(m))
  {
    ShallowVisit(CountProbe(), m, 0);
    CountScan(m, 0, 0);
    assert ChildrenOf(m)[0..] == ChildrenOf(m);
  }

  /** The number of parameter declarations among the children. */
  function Parameters(kids: seq<Cursor>): nat {
    if kids == [] then 0 else (if KindOf(kids[0]) == ParmDecl then 1 else 0) + Parameters(kids[1..])
  }

  /** The count never exceeds the number of parameters among the children. */
  lemma {:induction false} RequiredAtMostParameters(kids: seq<Cursor>)
    ensures Required(kids) <= Parameters(kids)
  {
    if kids != [] {
      RequiredAtMostParameters(kids[1..]);
    }
  }
}
