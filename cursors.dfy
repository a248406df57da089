/** The part of the libclang C API that the bindings and the generator rely on,
    as abstract values.  A cursor carries the answers to every query the code
    makes of it (kind, spelling, display name, USR, semantic parent, children,
    definition, canonical declaration); because a cursor is a finite value,
    every chain of parents, children and definitions is finite.  The only
    behaviour of libclang that is modelled is the child traversal under its
    three directives. */
module Cursors {

  import opened Host

  /** Cursor kinds the code branches on; every other kind is `OtherKind`. */
  datatype Kind =
    | InvalidFile          // the kind libclang reports for the null cursor
    | ClassDecl
    | EnumDecl
    | ParmDecl
    | CXXBaseSpecifier
    | TypeRef
    | TemplateRef
    | NamespaceRef
    | FirstAttr
    | UnexposedAttr
    | OtherKind(code: int)

  /** Where a cursor's definition (or canonical declaration) is: the cursor
      itself, or another cursor (the null cursor when there is none). */
  datatype Link = Itself | Elsewhere(target: Cursor)

  datatype Cursor =
    | NullCursor
    | Cursor(kind: Kind, spelling: string, displayName: string, usr: string, parent: Cursor,
             children: seq<Cursor>, definition: Link, canonical: Link)

  function KindOf(c: Cursor): Kind {
    if c.NullCursor? then InvalidFile else c.kind
  }

  function SpellingOf(c: Cursor): string {
    if c.NullCursor? then "" else c.spelling
  }

  /** clang_getCursorDisplayName. */
  function DisplayNameOf(c: Cursor): string {
    if c.NullCursor? then "" else c.displayName
  }

  function UsrOf(c: Cursor): string {
    if c.NullCursor? then "" else c.usr
  }

  /** clang_getCursorSemanticParent: the null cursor has the null cursor as parent. */
  function ParentOf(c: Cursor): (p: Cursor)
    ensures c.Cursor? ==> p < c
  {
    if c.NullCursor? then NullCursor else c.parent
  }

  /** The cursors clang_visitChildren presents as the direct children of `c`. */
  function ChildrenOf(c: Cursor): seq<Cursor> {
    if c.NullCursor? then [] else c.children
  }

  /** clang_getCursorDefinition. */
  function DefinitionOf(c: Cursor): (d: Cursor)
    ensures d == c || d < c
  {
    if c.NullCursor? then NullCursor
    else match c.definition
      case Itself => c
      case Elsewhere(d) => d
  }

  /** clang_getCanonicalCursor. */
  function CanonicalOf(c: Cursor): Cursor {
    if c.NullCursor? then NullCursor
    else match c.canonical
      case Itself => c
      case Elsewhere(d) => d
  }

  /** Type kinds the code branches on; every other kind is `OtherTypeKind`. */
  datatype TypeKind =
    | Invalid
    | Void
    | Bool
    | UInt
    | ULong
    | ULongLong
    | Int
    | Long
    | LongLong
    | Double
    | Pointer
    | LValueReference
    | Record
    | Enum
    | OtherTypeKind(code: int)

  /** A libclang type: its kind, its canonical form (`None` when the type is
      its own canonical form), its pointee (`None` when it has none) and the
      cursor of its declaration.  The bridge's `type.spelling()` answers the
      spelling of the kind, so a type needs no spelling of its own. */
  datatype CType = CType(kind: TypeKind, canonicalForm: Option<CType>,
                         pointee: Option<CType>, declaration: Cursor)

  /** The type libclang answers with when a query does not apply. */
  const InvalidType := CType(Invalid, None, None, NullCursor)

  function CanonicalType(t: CType): CType {
    if t.canonicalForm.Some? then t.canonicalForm.value else t
  }

  function PointeeType(t: CType): CType {
    if t.pointee.Some? then t.pointee.value else InvalidType
  }

  /** The traversal directives of clang_visitChildren (CXChildVisit_Break,
      CXChildVisit_Continue, CXChildVisit_Recurse). */
  const VisitBreak: int := 0
  const VisitContinue: int := 1
  const VisitRecurse: int := 2

  /** clang_visitChildren from the `i`-th child of `parent` on: each child is
      handed to `visitor` together with `parent` and the client data `s`;
      `VisitBreak` stops the whole traversal, `VisitRecurse` visits the
      child's own children before its next sibling, and any other answer
      moves on to the next sibling.  The result is the final client data and
      whether the traversal was stopped by `VisitBreak`. */
  function WalkFrom<S>(visitor: (S, Cursor, Cursor) -> (S, int), parent: Cursor, i: nat, s: S): (S, bool)
    requires i <= |ChildrenOf(parent)|
    decreases parent, |ChildrenOf(parent)| - i
  {
    if parent.NullCursor? || i == |parent.children| then (s, false)
    else
      var child := parent.children[i];
      var (s1, d) := visitor(s, child, parent);
      if d == VisitBreak then (s1, true)
      else if d == VisitRecurse then
        var (s2, stopped) := WalkFrom(visitor, child, 0, s1);
        if stopped then (s2, true) else WalkFrom(visitor, parent, i + 1, s2)
      else WalkFrom(visitor, parent, i + 1, s1)
  }

  /** The whole traversal below `root`. */
  function Walk<S>(visitor: (S, Cursor, Cursor) -> (S, int), root: Cursor, s: S): (S, bool) {
    WalkFrom(visitor, root, 0, s)
  }

  /** The descendants of `parent` from its `i`-th child on, in pre-order:
      each child, then its own descendants, then the next sibling. */
  function DescendantsFrom(parent: Cursor, i: nat): seq<Cursor>
    requires i <= |ChildrenOf(parent)|
    decreases parent, |ChildrenOf(parent)| - i
  {
    if parent.NullCursor? || i == |parent.children| then []
    else [parent.children[i]] + DescendantsFrom(parent.children[i], 0) + DescendantsFrom(parent, i + 1)
  }

  function Descendants(root: Cursor): seq<Cursor> {
    DescendantsFrom(root, 0)
  }

  /** A visitor that records every cursor it is shown and answers
      `VisitRecurse`, except on its `k`-th call, where it answers `VisitBreak`
      (with `k == 0` it never breaks). */
  function RecordUntil(k: nat): (seq<Cursor>, Cursor, Cursor) -> (seq<Cursor>, int) {
    (s: seq<Cursor>, c: Cursor, p: Cursor) => (s + [c], if |s| + 1 == k then VisitBreak else VisitRecurse)
  }

  /** One step of the traversal at a child the visitor answers with
      `VisitRecurse`: the child's subtree, then (unless stopped) the siblings. */
  lemma WalkFromRecurse<S>(visitor: (S, Cursor, Cursor) -> (S, int), parent: Cursor, i: nat, s: S)
    requires parent.Cursor? && i < |parent.children|
    requires visitor(s, parent.children[i], parent).1 == VisitRecurse
    ensures var s1 := visitor(s, parent.children[i], parent).0;
            var r := WalkFrom(visitor, parent.children[i], 0, s1);
            WalkFrom(visitor, parent, i, s) == if r.1 then r else WalkFrom(visitor, parent, i + 1, r.0)
  {
  }

  /** With `RecordUntil(k)`, the traversal shows the visitor the descendants in
      pre-order, each once, and stops right after the `k`-th one; when there are
      fewer than `k` (or `k == 0`) it shows all of them and is not stopped. */
  lemma {:induction false} RecordUntilFrom(k: nat, parent: Cursor, i: nat, s: seq<Cursor>)
    requires i <= |ChildrenOf(parent)|
    requires k == 0 || |s| < k
    ensures var d := DescendantsFrom(parent, i);
            WalkFrom(RecordUntil(k), parent, i, s) ==
              if k != 0 && k - |s| <= |d| then (s + d[..k - |s|], true) else (s + d, false)
    decreases parent, |ChildrenOf(parent)| - i, 1
  {
    var d := DescendantsFrom(parent, i);
    if parent.NullCursor? || i == |parent.children| {
      assert s + d == s;
    } else if |s| + 1 == k {
      var child := parent.children[i];
      assert d == [child] + DescendantsFrom(child, 0) + DescendantsFrom(parent, i + 1);
      assert d[..1] == [child];
    } else {
      RecordUntilRecurse(k, parent, i, s);
    }
  }

  /** The step of `RecordUntilFrom` at a child the visitor recurses into. */
  lemma {:induction false} RecordUntilRecurse(k: nat, parent: Cursor, i: nat, s: seq<Cursor>)
    requires parent.Cursor? && i < |parent.children|
    requires k == 0 || |s| + 1 < k
    ensures var d := DescendantsFrom(parent, i);
            WalkFrom(RecordUntil(k), parent, i, s) ==
              if k != 0 && k - |s| <= |d| then (s + d[..k - |s|], true) else (s + d, false)
    decreases parent, |ChildrenOf(parent)| - i, 0
  {
    var visit := RecordUntil(k);
    var d := DescendantsFrom(parent, i);
    var child := parent.children[i];
    var s1 := s + [child];
    var dc := DescendantsFrom(child, 0);
    var dr := DescendantsFrom(parent, i + 1);
    assert d == [child] + dc + dr;
    assert visit(s, child, parent) == (s1, VisitRecurse);
    WalkFromRecurse(visit, parent, i, s);
    RecordUntilFrom(k, child, 0, s1);
    if k != 0 && k - |s1| <= |dc| {
      SliceAfterHead(child, dc, dr, k - |s|);
      assert s1 + dc[..k - |s1|] == s + d[..k - |s|];
    } else {
      RecordUntilFrom(k, parent, i + 1, s1 + dc);
      assert s1 + dc + dr == s + d;
      if k != 0 && k - |s| <= |d| {
        SliceAfterPrefix(child, dc, dr, k - |s|);
        assert s1 + dc + dr[..k - |s1 + dc|] == s + d[..k - |s|];
      }
    }
  }

  lemma SliceAfterHead(c: Cursor, a: seq<Cursor>, b: seq<Cursor>, n: nat)
    requires 1 <= n <= 1 + |a|
    ensures ([c] + a + b)[..n] == [c] + a[..n - 1]
  {
  }

  lemma SliceAfterPrefix(c: Cursor, a: seq<Cursor>, b: seq<Cursor>, n: nat)
    requires 1 + |a| < n <= 1 + |a| + |b|
    ensures ([c] + a + b)[..n] == [c] + a + b[..n - 1 - |a|]
  {
  }

  /** A traversal that always answers `VisitRecurse` shows every descendant of
      the root exactly once, in pre-order, and is not stopped. */
  lemma RecurseVisitsAll(root: Cursor)
    ensures Walk(RecordUntil(0), root, []) == (Descendants(root), false)
  {
    RecordUntilFrom(0, root, 0, []);
    assert [] + Descendants(root) == Descendants(root);
  }

  /** A traversal that answers `VisitBreak` at the `k`-th call shows exactly the
      first `k` descendants and reports that it was stopped; with fewer
      descendants it shows them all and is not stopped. */
  lemma BreakAtKthCall(root: Cursor, k: nat)
    requires k > 0
    ensures var d := Descendants(root);
            Walk(RecordUntil(k), root, []) == if k <= |d| then (d[..k], true) else (d, false)
  {
    RecordUntilFrom(k, root, 0, []);
    var d := Descendants(root);
    assert [] + d == d;
    if k <= |d| {
      assert [] + d[..k] == d[..k];
    }
  }
}
