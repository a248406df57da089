/** The libclang bridge: value-semantics handle wrappers for cursors, types and
    parse contexts, the visitor trampoline that lets a host callback drive
    clang_visitChildren, the move-only parse context, and the `Parse` entry
    point.  The native library is the `ClangLibrary` ledger below; the host
    callback is a function that threads its own closure state. */
module Libclang {

  import opened Host
  import opened Cursors

  // ---------------------------------------------------------------------------
  // The visitor trampoline

  /** What a host callback did: returned a value (its 32-bit integer
      conversion, `code`) or threw an exception. */
  datatype Reply = Returned(code: int) | Threw(exception: string)

  /** A host callback: called with the closure state, the visited cursor and
      its parent; gives back the new closure state and its reply. */
  type Callback<!S> = (S, Cursor, Cursor) -> (S, Reply)

  /** The trampoline's client data: the callback's closure state and the
      exception caught by the TryCatch (None while nothing was caught). */
  type Session<S> = (S, Option<string>)

  /** One call of the trampoline: run the callback; a thrown exception is
      recorded and turned into `VisitBreak`, otherwise the callback's integer
      is handed back to libclang unchanged. */
  function Trampoline<S>(cb: Callback<S>, st: Session<S>, cursor: Cursor, parent: Cursor): (Session<S>, int) {
    var (s1, reply) := cb(st.0, cursor, parent);
    match reply
    case Threw(e) => ((s1, Some(e)), VisitBreak)
    case Returned(code) => ((s1, st.1), code)
  }

  /** The trampoline as the visitor function clang_visitChildren is given. */
  function Trampolined<S>(cb: Callback<S>): (Session<S>, Cursor, Cursor) -> (Session<S>, int) {
    (st: Session<S>, c: Cursor, p: Cursor) => Trampoline(cb, st, c, p)
  }

  /** A thrown callback always stops the traversal; a returned integer is
      passed through unchanged, and the caught slot is left as it was. */
  lemma TrampolineDirective<S>(cb: Callback<S>, st: Session<S>, cursor: Cursor, parent: Cursor)
    ensures var (st1, d) := Trampoline(cb, st, cursor, parent);
            var reply := cb(st.0, cursor, parent).1;
            && st1.0 == cb(st.0, cursor, parent).0
            && (reply.Threw? ==> d == VisitBreak && st1.1 == Some(reply.exception))
            && (reply.Returned? ==> d == reply.code && st1.1 == st.1)
  {
  }

  /** The outcome of `cursor.visit(callback)`: either the caught exception is
      rethrown, or the unsigned result of clang_visitChildren is returned. */
  datatype VisitOutcome<S> = Rethrown(exception: string, state: S) | Finished(result: nat, state: S)

  /** CursorVisit: run clang_visitChildren on `root` through the trampoline,
      then rethrow a caught exception or return the traversal's result (1 when
      it was stopped by `VisitBreak`, 0 otherwise). */
  function Visit<S>(cb: Callback<S>, root: Cursor, s: S): VisitOutcome<S> {
    var (st, stopped) := Walk(Trampolined(cb), root, (s, None));
    if st.1.Some? then Rethrown(st.1.value, st.0) else Finished(if stopped then 1 else 0, st.0)
  }

  /** Once the trampoline has caught an exception the traversal is stopped:
      the caught slot is only ever filled together with a `VisitBreak`. */
  lemma {:induction false} CaughtStops<S>(cb: Callback<S>, parent: Cursor, i: nat, s: S)
    requires i <= |ChildrenOf(parent)|
    ensures var r := WalkFrom(Trampolined(cb), parent, i, (s, None));
            r.0.1.Some? ==> r.1
    decreases parent, |ChildrenOf(parent)| - i
  {
    var t := Trampolined(cb);
    if parent.Cursor? && i < |parent.children| {
      var child := parent.children[i];
      var (st1, d) := t((s, None), child, parent);
      if d != VisitBreak {
        assert st1.1 == None;
        if d == VisitRecurse {
          CaughtStops(cb, child, 0, st1.0);
          var r := WalkFrom(t, child, 0, st1);
          if !r.1 {
            CaughtStops(cb, parent, i + 1, r.0.0);
          }
        } else {
          CaughtStops(cb, parent, i + 1, st1.0);
        }
      }
    }
  }

  /** When the callback never returns `VisitBreak` itself, the traversal is
      stopped exactly when the callback threw. */
  lemma {:induction false} StoppedOnlyByThrow<S>(cb: Callback<S>, parent: Cursor, i: nat, s: S)
    requires i <= |ChildrenOf(parent)|
    requires forall s0, c, p :: cb(s0, c, p).1 != Returned(VisitBreak)
    ensures var r := WalkFrom(Trampolined(cb), parent, i, (s, None));
            r.1 <==> r.0.1.Some?
    decreases parent, |ChildrenOf(parent)| - i
  {
    var t := Trampolined(cb);
    if parent.Cursor? && i < |parent.children| {
      var child := parent.children[i];
      var (st1, d) := t((s, None), child, parent);
      assert cb(s, child, parent).1 != Returned(VisitBreak);
      if d != VisitBreak {
        if d == VisitRecurse {
          StoppedOnlyByThrow(cb, child, 0, st1.0);
          var r := WalkFrom(t, child, 0, st1);
          if !r.1 {
            StoppedOnlyByThrow(cb, parent, i + 1, r.0.0);
          }
        } else {
          StoppedOnlyByThrow(cb, parent, i + 1, st1.0);
        }
      }
    }
  }

  /** `visit` has exactly one outcome: it rethrows precisely when the
      traversal caught an exception, and a rethrow always comes from a
      traversal that the trampoline stopped. */
  lemma VisitOutcomeMatchesWalk<S>(cb: Callback<S>, root: Cursor, s: S)
    ensures var r := Walk(Trampolined(cb), root, (s, None));
            && (Visit(cb, root, s).Rethrown? <==> r.0.1.Some?)
            && (Visit(cb, root, s).Rethrown? ==> r.1 && Visit(cb, root, s).exception == r.0.1.value)
            && (Visit(cb, root, s).Finished? ==> Visit(cb, root, s).result == if r.1 then 1 else 0)
  {
    CaughtStops(cb, root, 0, s);
  }

  /** A callback that records the cursors it is shown, returns
      `VisitRecurse`, and throws `e` on its `k`-th call. */
  function ThrowOnCall(k: nat, e: string): Callback<seq<Cursor>> {
    (s: seq<Cursor>, c: Cursor, p: Cursor) => (s + [c], if |s| + 1 == k then Threw(e) else Returned(VisitRecurse))
  }

  /** The same callback seen through the trampoline only differs from the
      plain recording visitor in the caught slot. */
  lemma {:induction false} ThrowOnCallWalk(k: nat, e: string, parent: Cursor, i: nat, s: seq<Cursor>)
    requires i <= |ChildrenOf(parent)|
    ensures var r := WalkFrom(Trampolined(ThrowOnCall(k, e)), parent, i, (s, None));
            var q := WalkFrom(RecordUntil(k), parent, i, s);
            r.0.0 == q.0 && r.1 == q.1 && (r.0.1.Some? ==> r.0.1.value == e)
    decreases parent, |ChildrenOf(parent)| - i
  {
    var t := Trampolined(ThrowOnCall(k, e));
    var v := RecordUntil(k);
    if parent.Cursor? && i < |parent.children| {
      var child := parent.children[i];
      var (st1, d) := t((s, None), child, parent);
      assert v(s, child, parent) == (st1.0, d);
      if d == VisitRecurse {
        assert st1.1 == None;
        ThrowOnCallWalk(k, e, child, 0, st1.0);
        CaughtStops(ThrowOnCall(k, e), child, 0, st1.0);
        WalkFromRecurse(t, parent, i, (s, None));
        WalkFromRecurse(v, parent, i, s);
        var r := WalkFrom(t, child, 0, st1);
        if !r.1 {
          assert r.0 == (r.0.0, None);
          ThrowOnCallWalk(k, e, parent, i + 1, r.0.0);
        }
      }
    }
  }

  /** A `visit` whose callback throws on its `k`-th call sees exactly the
      first `k` descendants in pre-order and rethrows that exception; with
      fewer than `k` descendants it sees all of them and returns 0. */
  lemma ThrowAtKthCall(root: Cursor, k: nat, e: string)
    requires k > 0
    ensures var d := Descendants(root);
            Visit(ThrowOnCall(k, e), root, []) ==
              if k <= |d| then Rethrown(e, d[..k]) else Finished(0, d)
  {
    ThrowOnCallWalk(k, e, root, 0, []);
    BreakAtKthCall(root, k);
    StoppedOnlyByThrow(ThrowOnCall(k, e), root, 0, []);
  }

  /** The trampoline's client data as the native code holds it: the host
      callback, its closure state and the TryCatch slot. */
  class VisitorData<S> {
    const callback: Callback<S>
    var state: S
    var caught: Option<string>

    constructor(callback: Callback<S>, state: S)
      ensures this.callback == callback && this.state == state && caught == None
    {
      this.callback := callback;
      this.state := state;
      caught := None;
    }

    /** The trampoline (`Visitor`): it may only run while no exception is
        pending, and it records a thrown exception in `caught`. */
    method Visitor(cursor: Cursor, parent: Cursor) returns (d: int)
      requires caught.None?
      modifies this
      ensures ((state, caught), d) == Trampoline(callback, (old(state), None), cursor, parent)
    {
      var result := callback(state, cursor, parent);
      var reply := result.1;
      state := result.0;
      if reply.Threw? {
        caught := Some(reply.exception);
        d := VisitBreak;
      } else {
        d := reply.code;
      }
    }
  }

  /** clang_visitChildren from the `i`-th child of `parent` on, driving the
      trampoline: no callback is ever started while an exception is pending. */
  method VisitChildren<S>(parent: Cursor, i: nat, data: VisitorData<S>) returns (stopped: bool)
    requires i <= |ChildrenOf(parent)|
    requires data.caught.None?
    modifies data
    ensures ((data.state, data.caught), stopped) == WalkFrom(Trampolined(data.callback), parent, i, (old(data.state), None))
    ensures data.caught.Some? ==> stopped
    decreases parent, |ChildrenOf(parent)| - i
  {
    ghost var t := Trampolined(data.callback);
    ghost var goal := WalkFrom(t, parent, i, (data.state, None));
    if parent.NullCursor? {
      return false;
    }
    var j := i;
    stopped := false;
    while j < |parent.children|
      invariant i <= j <= |parent.children|
      invariant data.caught.None?
      invariant goal == WalkFrom(t, parent, j, (data.state, None))
      decreases |parent.children| - j
    {
      var child := parent.children[j];
      var d := data.Visitor(child, parent);
      if d == VisitBreak {
        return true;
      }
      if d == VisitRecurse {
        var sub := VisitChildren(child, 0, data);
        if sub {
          return true;
        }
      }
      j := j + 1;
    }
  }

  /** CursorVisit with its native call: the exception the trampoline caught is
      rethrown; otherwise the traversal's unsigned result is returned. */
  method CursorVisit<S>(root: Cursor, data: VisitorData<S>) returns (r: Result<nat>)
    requires data.caught.None?
    modifies data
    ensures var o := Visit(data.callback, root, old(data.state));
            && data.state == o.state
            && (o.Rethrown? ==> r == Throw(o.exception))
            && (o.Finished? ==> r == Ok(o.result))
  {
    var stopped := VisitChildren(root, 0, data);
    if data.caught.Some? {
      r := Throw(data.caught.value);
    } else {
      r := Ok(if stopped then 1 else 0);
    }
  }

  // ---------------------------------------------------------------------------
  // Value-semantics handle wrappers (`Wrapper<T>` for CXCursor, CXType, Context)

  /** A wrapper for a native value type.  Its function template and
      constructor are created on first use; every instance owns a heap copy
      of the value it wraps (`cells`, by the instance's serial number), which
      the instance's weak finalizer deletes. */
  class ValueWrapper<T> {
    const template: nat
    var templateReady: bool
    var ctorReady: bool
    var cells: map<nat, T>
    var nextSerial: nat

    ghost predicate Valid()
      reads this
    {
      && (ctorReady ==> templateReady)
      && forall n :: n in cells ==> n < nextSerial
    }

    constructor(template: nat)
      ensures Valid() && this.template == template
      ensures !templateReady && !ctorReady && cells == map[]
    {
      this.template := template;
      templateReady, ctorReady := false, false;
      cells, nextSerial := map[], 0;
    }

    /** `Template()`: initialises the template on the first call only; every
        call answers the same template. */
    method Template() returns (t: nat)
      requires Valid()
      modifies this
      ensures Valid() && templateReady && t == template
      ensures ctorReady == old(ctorReady) && cells == old(cells) && nextSerial == old(nextSerial)
      ensures old(templateReady) ==> unchanged(this)
    {
      if !templateReady {
        templateReady := true;
      }
      t := template;
    }

    /** `Constructor()`: creates the constructor function from the template on
        the first call only. */
    method Constructor() returns (f: nat)
      requires Valid()
      modifies this
      ensures Valid() && templateReady && ctorReady && f == template
      ensures cells == old(cells) && nextSerial == old(nextSerial)
      ensures old(ctorReady) ==> unchanged(this)
    {
      if !ctorReady {
        var t := Template();
        ctorReady := true;
      }
      f := template;
    }

    /** `template_->HasInstance(value)`. */
    predicate HasInstance(v: Value)
      reads this
    {
      templateReady && v.Ref? && v.obj.template == template && v.obj.serial in cells
    }

    /** `Wrap(val)`: a new instance holding its own fresh copy of `val`. */
    method Wrap(val: T) returns (v: Value)
      requires Valid() && ctorReady
      modifies this
      ensures Valid() && templateReady == old(templateReady) && ctorReady == old(ctorReady)
      ensures v == Ref(ObjId(template, old(nextSerial))) && old(nextSerial) !in old(cells)
      ensures cells == old(cells)[old(nextSerial) := val]
      ensures HasInstance(v) && Unwrap(v) == val
    {
      v := Ref(ObjId(template, nextSerial));
      cells := cells[nextSerial := val];
      nextSerial := nextSerial + 1;
    }

    /** `Unwrap(value)`: only defined on instances of this wrapper. */
    function Unwrap(v: Value): T
      reads this
      requires HasInstance(v)
    {
      cells[v.obj.serial]
    }

    /** The weak finalizer (`Dtor`): deletes the instance's heap copy and
        hands it back for its own destructor to run. */
    method Finalize(v: Value) returns (val: T)
      requires Valid() && HasInstance(v)
      modifies this
      ensures Valid() && val == old(Unwrap(v))
      ensures cells == old(cells) - {v.obj.serial}
      ensures templateReady == old(templateReady) && ctorReady == old(ctorReady) && nextSerial == old(nextSerial)
    {
      val := cells[v.obj.serial];
      cells := cells - {v.obj.serial};
    }
  }

  // ---------------------------------------------------------------------------
  // The native library's resources

  /** What the native library was asked to do with its resources. */
  datatype Event =
    | IndexCreated(index: nat)
    | UnitParsed(index: nat, argv: seq<string>, unit: nat)
    | UnitDisposed(unit: nat)
    | IndexDisposed(index: nat)

  /** The native library as a ledger of the calls made on it.  Handles are
      never 0 (NULL); `parses` says for which argument vectors
      clang_parseTranslationUnit produces a translation unit. */
  class ClangLibrary {
    const parses: seq<string> -> bool
    var log: seq<Event>
    var next: nat

    ghost predicate Valid()
      reads this
    {
      next > 0
    }

    constructor(parses: seq<string> -> bool)
      ensures Valid() && this.parses == parses && log == []
    {
      this.parses := parses;
      log, next := [], 1;
    }

    /** clang_createIndex */
    method CreateIndex() returns (index: nat)
      requires Valid()
      modifies this
      ensures Valid() && index == old(next) && index != 0 && next == old(next) + 1
      ensures log == old(log) + [IndexCreated(index)]
    {
      index := next;
      next := next + 1;
      log := log + [IndexCreated(index)];
    }

    /** clang_parseTranslationUnit: NULL when the arguments do not parse. */
    method ParseTranslationUnit(index: nat, argv: seq<string>) returns (unit: nat)
      requires Valid()
      modifies this
      ensures Valid() && unit == (if parses(argv) then old(next) else 0)
      ensures next == old(next) + (if parses(argv) then 1 else 0)
      ensures log == old(log) + [UnitParsed(index, argv, unit)]
    {
      if parses(argv) {
        unit := next;
        next := next + 1;
      } else {
        unit := 0;
      }
      log := log + [UnitParsed(index, argv, unit)];
    }

    /** clang_disposeTranslationUnit */
    method DisposeTranslationUnit(unit: nat)
      modifies this
      ensures log == old(log) + [UnitDisposed(unit)] && next == old(next)
    {
      log := log + [UnitDisposed(unit)];
    }

    /** clang_disposeIndex */
    method DisposeIndex(index: nat)
      modifies this
      ensures log == old(log) + [IndexDisposed(index)] && next == old(next)
    {
      log := log + [IndexDisposed(index)];
    }
  }

  // ---------------------------------------------------------------------------
  // The move-only parse context

  /** The calls a context's destructor makes: the translation unit first,
      then the index, each only when it is not NULL. */
  function Teardown(index: nat, unit: nat): (events: seq<Event>)
    ensures |events| <= 2
    ensures (unit == 0 && index == 0) <==> events == []
    ensures unit != 0 && index != 0 ==> events == [UnitDisposed(unit), IndexDisposed(index)]
  {
    (if unit != 0 then [UnitDisposed(unit)] else []) + (if index != 0 then [IndexDisposed(index)] else [])
  }

  /** `Context`: owns an index and the translation unit parsed with it. */
  class Context {
    var index: nat
    var unit: nat

    constructor(index: nat, unit: nat)
      ensures this.index == index && this.unit == unit
    {
      this.index := index;
      this.unit := unit;
    }

    /** The copy constructor transfers ownership: the source is left owning
        nothing. */
    constructor Copy(other: Context)
      modifies other
      ensures index == old(other.index) && unit == old(other.unit)
      ensures other.index == 0 && other.unit == 0
    {
      index := other.index;
      unit := other.unit;
      other.index := 0;
      other.unit := 0;
    }

    /** The destructor: disposes the unit before the index, skipping NULLs. */
    method Destroy(lib: ClangLibrary)
      modifies lib
      ensures lib.log == old(lib.log) + Teardown(index, unit) && lib.next == old(lib.next)
    {
      if unit != 0 {
        lib.DisposeTranslationUnit(unit);
      }
      if index != 0 {
        lib.DisposeIndex(index);
      }
    }
  }

  /** The finalizer of a wrapped context: the wrapper deletes its heap copy,
      whose destructor releases what the copy owns. */
  method FinalizeContext(contexts: ValueWrapper<Context>, v: Value, lib: ClangLibrary)
    requires contexts.Valid() && contexts.HasInstance(v)
    modifies contexts, lib
    ensures contexts.Valid() && contexts.cells == old(contexts.cells) - {v.obj.serial}
    ensures var ctx := old(contexts.Unwrap(v));
            lib.log == old(lib.log) + Teardown(ctx.index, ctx.unit) && lib.next == old(lib.next)
  {
    var ctx := contexts.Finalize(v);
    ctx.Destroy(lib);
  }

  // ---------------------------------------------------------------------------
  // Argument strings

  /** The C string a character buffer holds: everything before its first NUL. */
  function UntilNul(s: string): (r: string)
    ensures |r| <= |s| && r == s[..|r|]
    ensures '\0' !in r
    ensures |r| < |s| ==> s[|r|] == '\0'
  {
    if s == [] || s[0] == '\0' then [] else [s[0]] + UntilNul(s[1..])
  }

  /** A string is its own C string exactly when it holds no NUL. */
  lemma {:induction false} UntilNulIdentity(s: string)
    ensures UntilNul(s) == s <==> '\0' !in s
  {
    if s != [] && s[0] != '\0' {
      UntilNulIdentity(s[1..]);
      assert s == [s[0]] + s[1..];
    }
  }

  /** Padding after a C string does not change it. */
  lemma {:induction false} UntilNulPadded(s: string, n: nat)
    requires n > 0
    ensures UntilNul(UntilNul(s) + seq(n, _ => '\0')) == UntilNul(s)
  {
    var r := UntilNul(s);
    if r == [] {
    } else {
      assert s[0] != '\0' && r == [s[0]] + UntilNul(s[1..]);
      UntilNulPadded(s[1..], n);
      assert r + seq(n, _ => '\0') == [s[0]] + (UntilNul(s[1..]) + seq(n, _ => '\0'));
    }
  }

  /** `String::Copy(str, length)`: a buffer of `length + 1` characters filled
      by strncpy (which stops at a NUL in the source and pads with NULs) and
      terminated with a NUL.  The C string it holds is the part of `str` before
      its first NUL. */
  method CopyString(str: string) returns (buf: array<char>)
    ensures fresh(buf) && buf.Length == |str| + 1
    ensures buf[..] == UntilNul(str) + seq(|str| + 1 - |UntilNul(str)|, _ => '\0')
    ensures UntilNul(buf[..]) == UntilNul(str)
  {
    buf := new char[|str| + 1];
    var i := 0;
    while i < |str| && str[i] != '\0'
      invariant 0 <= i <= |str|
      invariant buf[..i] == str[..i]
      invariant '\0' !in str[..i]
    {
      buf[i] := str[i];
      i := i + 1;
    }
    assert str[..i] == UntilNul(str) by {
      UntilNulPrefix(str, i);
    }
    var j := i;
    while j <= |str|
      invariant i <= j <= |str| + 1
      invariant buf[..i] == str[..i]
      invariant forall k :: i <= k < j ==> buf[k] == '\0'
    {
      buf[j] := '\0';
      j := j + 1;
    }
    assert buf[..] == UntilNul(str) + seq(|str| + 1 - i, _ => '\0');
    UntilNulPadded(str, |str| + 1 - i);
  }

  lemma {:induction false} UntilNulPrefix(s: string, i: nat)
    requires i <= |s| && '\0' !in s[..i] && (i == |s| || s[i] == '\0')
    ensures UntilNul(s) == s[..i]
  {
    if i > 0 {
      assert s[0] in s[..i];
      assert s[1..][..i - 1] == s[..i][1..];
      UntilNulPrefix(s[1..], i - 1);
      assert s[..i] == [s[0]] + s[1..][..i - 1];
    }
  }

  /** The values `Parse` takes its arguments from: the elements of a single
      array argument, or else the call's own arguments. */
  function ArgumentValues(args: seq<Value>): seq<Value> {
    if |args| == 1 && args[0].Array? then args[0].items else args
  }

  /** The argument vector handed to the parser, or None when some argument's
      string form is empty. */
  function Argv(values: seq<Value>): Option<seq<string>> {
    if values == [] then Some([])
    else if AsciiValue(values[0]) == "" then None
    else match Argv(values[1..])
      case None => None
      case Some(rest) => Some([UntilNul(AsciiValue(values[0]))] + rest)
  }

  /** `Argv` rejects exactly the vectors with an argument whose string form is
      empty, and otherwise keeps each argument's C string in order. */
  lemma {:induction false} ArgvSpec(values: seq<Value>)
    ensures Argv(values).None? <==> exists j :: 0 <= j < |values| && AsciiValue(values[j]) == ""
    ensures Argv(values).Some? ==> |Argv(values).value| == |values|
    ensures Argv(values).Some? ==> forall j :: 0 <= j < |values| ==> Argv(values).value[j] == UntilNul(AsciiValue(values[j]))
  {
    if values != [] {
      ArgvSpec(values[1..]);
      if AsciiValue(values[0]) != "" && Argv(values[1..]).None? {
        var j :| 0 <= j < |values[1..]| && AsciiValue(values[1..][j]) == "";
        assert AsciiValue(values[j + 1]) == "";
      }
      if Argv(values).Some? {
        forall j | 0 <= j < |values|
          ensures Argv(values).value[j] == UntilNul(AsciiValue(values[j]))
        {
          if j > 0 {
            assert values[j] == values[1..][j - 1];
          }
        }
      }
    }
  }

  // ---------------------------------------------------------------------------
  // Parse

  /** `Parse`: converts the arguments to C strings, rejecting an empty one
      before the native library is called; creates an index and parses with
      it; on failure disposes the index and throws; on success returns a new
      wrapped context owning both. */
  method Parse(args: seq<Value>, lib: ClangLibrary, contexts: ValueWrapper<Context>) returns (r: Result<Value>)
    requires lib.Valid() && contexts.Valid() && contexts.ctorReady
    modifies lib, contexts
    ensures lib.Valid() && contexts.Valid()
    ensures Argv(ArgumentValues(args)).None? ==>
              && r == Throw("expected string arguments")
              && lib.log == old(lib.log) && contexts.cells == old(contexts.cells)
    ensures Argv(ArgumentValues(args)).Some? ==>
              var argv := Argv(ArgumentValues(args)).value;
              var index := old(lib.next);
              if lib.parses(argv) then
                && r.Ok? && contexts.HasInstance(r.value)
                && contexts.cells == old(contexts.cells)[r.value.obj.serial := contexts.Unwrap(r.value)]
                && r.value.obj.serial !in old(contexts.cells)
                && fresh(contexts.Unwrap(r.value))
                && contexts.Unwrap(r.value).index == index
                && contexts.Unwrap(r.value).unit == index + 1
                && lib.log == old(lib.log) + [IndexCreated(index), UnitParsed(index, argv, index + 1)]
              else
                && r == Throw("failed to parse translation unit")
                && contexts.cells == old(contexts.cells)
                && lib.log == old(lib.log) + [IndexCreated(index), UnitParsed(index, argv, 0), IndexDisposed(index)]
  {
    var argv := CopyArguments(ArgumentValues(args));
    if argv.None? {
      return Throw("expected string arguments");
    }

    var index := lib.CreateIndex();
    var unit := lib.ParseTranslationUnit(index, argv.value);
    if unit == 0 {
      lib.DisposeIndex(index);
      return Throw("failed to parse translation unit");
    }
    // `ContextT.Wrap(Context(index, tu))`: the heap copy takes ownership from
    // the temporary, whose destructor then finds nothing to release.
    var v := WrapContext(index, unit, lib, contexts);
    r := Ok(v);
  }

  /** The loop of `Parse` that fills `strargs`/`argv`: each argument's string
      form is copied into a native buffer, and an empty one stops the loop. */
  method CopyArguments(values: seq<Value>) returns (argv: Option<seq<string>>)
    ensures argv == Argv(values)
  {
    var strings: seq<string> := [];
    var i := 0;
    assert values[i..] == values;
    assert Argv(values).Some? ==> [] + Argv(values).value == Argv(values).value;
    while i < |values|
      invariant 0 <= i <= |values|
      invariant Argv(values) == Prepend(strings, Argv(values[i..]))
    {
      var arg := AsciiValue(values[i]);
      assert values[i..][1..] == values[i + 1..];
      if |arg| == 0 {
        return None;
      }
      var buf := CopyString(arg);
      assert values[i..][0] == values[i];
      if Argv(values[i + 1..]).Some? {
        var rest := Argv(values[i + 1..]).value;
        assert strings + ([UntilNul(arg)] + rest) == strings + [UntilNul(arg)] + rest;
      }
      strings := strings + [UntilNul(buf[..])];
      i := i + 1;
    }
    assert values[i..] == [];
    assert strings + [] == strings;
    argv := Some(strings);
  }

  function Prepend(prefix: seq<string>, rest: Option<seq<string>>): Option<seq<string>> {
    if rest.None? then None else Some(prefix + rest.value)
  }

  /** `ContextT.Wrap(Context(index, tu))`: the wrapper's heap copy takes
      ownership from the temporary, whose destructor then releases nothing. */
  method WrapContext(index: nat, unit: nat, lib: ClangLibrary, contexts: ValueWrapper<Context>) returns (v: Value)
    requires contexts.Valid() && contexts.ctorReady
    modifies lib, contexts
    ensures contexts.Valid() && contexts.HasInstance(v)
    ensures v.obj.serial !in old(contexts.cells)
    ensures contexts.cells == old(contexts.cells)[v.obj.serial := contexts.Unwrap(v)]
    ensures contexts.Unwrap(v).index == index && contexts.Unwrap(v).unit == unit
    ensures fresh(contexts.Unwrap(v))
    ensures forall n :: n in old(contexts.cells) ==> contexts.cells[n] != contexts.Unwrap(v)
    ensures lib.log == old(lib.log) && lib.next == old(lib.next)
  {
    var temporary := new Context(index, unit);
    var owned := new Context.Copy(temporary);
    temporary.Destroy(lib);
    v := contexts.Wrap(owned);
  }
}
