/** The pointer wrappers of the LLVM bindings: each wrapped native class is a
    registration with an optional parent registration, a lazily created
    function template (inheriting the parent's template) and a lazily created
    constructor function (whose prototype is the parent's constructor).  An
    instance is a host object whose internal field holds the native pointer.

    The engine side is abstracted into the `Runtime` below: template and
    function handles are positive numbers, the template inheritance and the
    constructor prototypes are maps, and the heap maps each instance to its
    internal field. */
module HandleWrappers {

  import opened Host

  /** A wrapped native class: its parent registration (the one passed to the
      `Wrapper(WrapperBase& parent)` constructor) and whether it was
      instantiated with a native factory or with the factory-less default. */
  datatype Registration = Registration(parent: Option<nat>, hasFactory: bool)

  /** Registrations are global objects built in declaration order, and a
      parent is passed by reference, so it is always declared earlier. */
  predicate Hierarchy(regs: seq<Registration>) {
    forall r :: 0 <= r < |regs| && regs[r].parent.Some? ==> regs[r].parent.value < r
  }

  /** `a` is `r` or one of its ancestors along the parent chain. */
  predicate AncestorOrSelf(regs: seq<Registration>, a: nat, r: nat)
    requires Hierarchy(regs) && r < |regs|
    decreases r
  {
    a == r || (regs[r].parent.Some? && AncestorOrSelf(regs, a, regs[r].parent.value))
  }

  /** What a native factory (`ctor(args)`) gave back: the new native object
      (0 for NULL) and the exception it left pending, if any. */
  datatype Made = Made(ptr: nat, pending: Option<string>)

  /** `after` differs from `before` only in handles that were empty and
      belong to registration `r` or an earlier one: a created handle is never
      replaced, and registrations after `r` are not touched. */
  predicate Extends(before: seq<nat>, after: seq<nat>, r: nat) {
    |after| == |before| && forall x :: 0 <= x < |before| && (before[x] != 0 || x > r) ==> after[x] == before[x]
  }

  /** Filling the empty slot `r` after extending up to an earlier `q`. */
  lemma ExtendsThenFill(before: seq<nat>, middle: seq<nat>, r: nat, q: nat, h: nat)
    requires r < |before| && before[r] == 0 && q < r && Extends(before, middle, q)
    ensures Extends(before, middle[r := h], r)
  {
  }

  lemma ExtendsTrans(a: seq<nat>, b: seq<nat>, c: seq<nat>, r: nat, n: nat)
    requires Extends(a, b, r) && Extends(b, c, n) && r <= n
    ensures Extends(a, c, n)
  {
  }

  /** Every created template belongs to the registration it was created for
      and inherits exactly its parent's template; inheritance goes from a
      registration to an earlier one. */
  ghost predicate TemplatesValid(regs: seq<Registration>, templates: seq<nat>, nextHandle: nat,
                                 owner: map<nat, nat>, inherits: map<nat, nat>)
    requires Hierarchy(regs) && |templates| == |regs|
  {
    && (forall t :: t in owner ==> 0 < t < nextHandle && owner[t] < |regs| && templates[owner[t]] == t)
    && (forall r :: 0 <= r < |regs| && templates[r] != 0 ==> TemplateReady(regs, templates, owner, inherits, r))
    && (forall t :: t in inherits ==> t in owner && inherits[t] in owner && owner[inherits[t]] < owner[t])
  }

  ghost predicate TemplateReady(regs: seq<Registration>, templates: seq<nat>,
                                owner: map<nat, nat>, inherits: map<nat, nat>, r: nat)
    requires Hierarchy(regs) && r < |regs| && |templates| == |regs|
  {
    var t := templates[r];
    && t in owner && owner[t] == r
    && match regs[r].parent
       case None => t !in inherits
       case Some(q) => templates[q] != 0 && t in inherits && inherits[t] == templates[q]
  }

  /** Every created constructor comes from its registration's template and has
      the parent's constructor as its prototype. */
  ghost predicate CtorsValid(regs: seq<Registration>, templates: seq<nat>, ctors: seq<nat>, nextHandle: nat,
                             owner: map<nat, nat>, functionTemplate: map<nat, nat>, prototypeOf: map<nat, nat>)
    requires Hierarchy(regs) && |templates| == |regs| && |ctors| == |regs|
  {
    && (forall f :: f in functionTemplate ==> 0 < f < nextHandle && functionTemplate[f] in owner)
    && (forall f :: f in prototypeOf ==> f in functionTemplate)
    && (forall r :: 0 <= r < |regs| && ctors[r] != 0 ==> CtorReady(regs, templates, ctors, functionTemplate, prototypeOf, r))
  }

  ghost predicate CtorReady(regs: seq<Registration>, templates: seq<nat>, ctors: seq<nat>,
                            functionTemplate: map<nat, nat>, prototypeOf: map<nat, nat>, r: nat)
    requires Hierarchy(regs) && r < |regs| && |templates| == |regs| && |ctors| == |regs|
  {
    var f := ctors[r];
    && templates[r] != 0 && f in functionTemplate && functionTemplate[f] == templates[r]
    && match regs[r].parent
       case None => f !in prototypeOf
       case Some(q) => ctors[q] != 0 && f in prototypeOf && prototypeOf[f] == ctors[q]
  }

  /** Every instance was allocated with a serial below `nextSerial` from a
      created template; finalizers are registered only on instances. */
  ghost predicate HeapValid(instances: map<ObjId, nat>, weak: set<ObjId>, nextSerial: nat, owner: map<nat, nat>) {
    && (forall o :: o in instances ==> o.serial < nextSerial && o.template in owner)
    && weak <= instances.Keys
  }

  /** A new template for a registration that had none, inheriting the
      parent's template, keeps the templates well formed. */
  lemma NewTemplateKeepsTemplates(regs: seq<Registration>, templates: seq<nat>, nextHandle: nat,
                                  owner: map<nat, nat>, inherits: map<nat, nat>, r: nat, parentTemplate: nat)
    requires Hierarchy(regs) && |templates| == |regs| && r < |regs| && templates[r] == 0 && nextHandle > 0
    requires TemplatesValid(regs, templates, nextHandle, owner, inherits)
    requires regs[r].parent.Some? ==> parentTemplate == templates[regs[r].parent.value] != 0
    ensures nextHandle !in owner
    ensures var inherits' := if regs[r].parent.Some? then inherits[nextHandle := parentTemplate] else inherits;
            TemplatesValid(regs, templates[r := nextHandle], nextHandle + 1, owner[nextHandle := r], inherits')
  {
    var t := nextHandle;
    var templates' := templates[r := t];
    var owner' := owner[t := r];
    var inherits' := if regs[r].parent.Some? then inherits[t := parentTemplate] else inherits;
    forall x | 0 <= x < |regs| && templates'[x] != 0
      ensures TemplateReady(regs, templates', owner', inherits', x)
    {
      if x != r {
        assert TemplateReady(regs, templates, owner, inherits, x);
        assert templates[x] in owner && templates[x] != t;
        if regs[x].parent.Some? {
          assert regs[x].parent.value != r;
        }
      }
    }
    forall u | u in owner'
      ensures 0 < u < nextHandle + 1 && owner'[u] < |regs| && templates'[owner'[u]] == u
    {
      if u != t {
        assert owner[u] != r;
      }
    }
    forall u | u in inherits'
      ensures u in owner' && inherits'[u] in owner' && owner'[inherits'[u]] < owner'[u]
    {
      if u == t {
        var q := regs[r].parent.value;
        assert TemplateReady(regs, templates, owner, inherits, q);
      }
    }
  }

  /** Creating templates for registrations without a constructor, and new
      handles, keep the constructors well formed. */
  lemma CtorsKeptByTemplates(regs: seq<Registration>, templates: seq<nat>, templates': seq<nat>, ctors: seq<nat>,
                             nextHandle: nat, nextHandle': nat, owner: map<nat, nat>, owner': map<nat, nat>,
                             functionTemplate: map<nat, nat>, prototypeOf: map<nat, nat>)
    requires Hierarchy(regs) && |templates| == |regs| && |templates'| == |regs| && |ctors| == |regs|
    requires CtorsValid(regs, templates, ctors, nextHandle, owner, functionTemplate, prototypeOf)
    requires forall x :: 0 <= x < |regs| && templates[x] != 0 ==> templates'[x] == templates[x]
    requires nextHandle <= nextHandle' && owner.Keys <= owner'.Keys
    ensures CtorsValid(regs, templates', ctors, nextHandle', owner', functionTemplate, prototypeOf)
  {
    forall x | 0 <= x < |regs| && ctors[x] != 0
      ensures CtorReady(regs, templates', ctors, functionTemplate, prototypeOf, x)
    {
      assert CtorReady(regs, templates, ctors, functionTemplate, prototypeOf, x);
    }
  }

  /** New templates keep the heap well formed. */
  lemma HeapKeptByTemplates(instances: map<ObjId, nat>, weak: set<ObjId>, nextSerial: nat,
                            owner: map<nat, nat>, owner': map<nat, nat>)
    requires HeapValid(instances, weak, nextSerial, owner) && owner.Keys <= owner'.Keys
    ensures HeapValid(instances, weak, nextSerial, owner')
  {
  }

  /** A new constructor for a registration that had none, made from its
      template and linked to the parent's constructor, keeps the
      constructors well formed. */
  lemma NewCtorKeepsCtors(regs: seq<Registration>, templates: seq<nat>, ctors: seq<nat>, nextHandle: nat,
                          owner: map<nat, nat>, functionTemplate: map<nat, nat>, prototypeOf: map<nat, nat>,
                          r: nat, parentCtor: nat)
    requires Hierarchy(regs) && |templates| == |regs| && |ctors| == |regs| && r < |regs|
    requires ctors[r] == 0 && templates[r] != 0 && templates[r] in owner && nextHandle > 0
    requires CtorsValid(regs, templates, ctors, nextHandle, owner, functionTemplate, prototypeOf)
    requires regs[r].parent.Some? ==> parentCtor == ctors[regs[r].parent.value] != 0
    ensures nextHandle !in functionTemplate && nextHandle !in prototypeOf
    ensures var prototypeOf' := if regs[r].parent.Some? then prototypeOf[nextHandle := parentCtor] else prototypeOf;
            CtorsValid(regs, templates, ctors[r := nextHandle], nextHandle + 1, owner,
                       functionTemplate[nextHandle := templates[r]], prototypeOf')
  {
    var f := nextHandle;
    var ctors' := ctors[r := f];
    var functionTemplate' := functionTemplate[f := templates[r]];
    var prototypeOf' := if regs[r].parent.Some? then prototypeOf[f := parentCtor] else prototypeOf;
    forall x | 0 <= x < |regs| && ctors'[x] != 0
      ensures CtorReady(regs, templates, ctors', functionTemplate', prototypeOf', x)
    {
      if x != r {
        assert CtorReady(regs, templates, ctors, functionTemplate, prototypeOf, x);
        assert ctors[x] in functionTemplate && ctors[x] != f;
        if regs[x].parent.Some? {
          assert regs[x].parent.value != r;
        }
      }
    }
    forall g | g in functionTemplate'
      ensures 0 < g < nextHandle + 1 && functionTemplate'[g] in owner
    {
    }
  }

  /** Allocating a fresh instance of a created template, with or without a
      finalizer, keeps the heap well formed. */
  lemma AllocationKeepsHeap(instances: map<ObjId, nat>, weak: set<ObjId>, nextSerial: nat, owner: map<nat, nat>,
                            self: ObjId, field: nat, finalized: bool)
    requires HeapValid(instances, weak, nextSerial, owner)
    requires self.serial == nextSerial && self.template in owner
    ensures self !in instances
    ensures HeapValid(instances[self := field], if finalized then weak + {self} else weak, nextSerial + 1, owner)
  {
  }

  /** `FunctionTemplate::HasInstance`: template `u` is on the inheritance
      chain that starts at template `t`. */
  predicate Inherits(owner: map<nat, nat>, inherits: map<nat, nat>, t: nat, u: nat)
    requires t in owner
    requires forall t :: t in inherits ==> t in owner && inherits[t] in owner && owner[inherits[t]] < owner[t]
    decreases owner[t]
  {
    t == u || (t in inherits && Inherits(owner, inherits, inherits[t], u))
  }

  class Runtime {
    const regs: seq<Registration>
    /** `template_` of each registration; 0 while the handle is empty. */
    var templates: seq<nat>
    /** `ctor_` of each registration; 0 while the handle is empty. */
    var ctors: seq<nat>
    /** The next unused engine handle (templates and functions alike). */
    var nextHandle: nat
    /** `FunctionTemplate::Inherit`: a template and the template it inherits. */
    var inherits: map<nat, nat>
    /** `GetFunction`: a constructor function and the template it comes from. */
    var functionTemplate: map<nat, nat>
    /** `SetPrototype` on a constructor function. */
    var prototypeOf: map<nat, nat>
    /** The handle heap: every instance and the pointer in its internal field. */
    var instances: map<ObjId, nat>
    /** Instances with a weak finalizer registered. */
    var weak: set<ObjId>
    var nextSerial: nat
    /** The registration each template was created for. */
    var owner: map<nat, nat>

    ghost predicate Valid()
      reads this
    {
      && Hierarchy(regs) && |templates| == |regs| && |ctors| == |regs| && nextHandle > 0
      && TemplatesValid(regs, templates, nextHandle, owner, inherits)
      && CtorsValid(regs, templates, ctors, nextHandle, owner, functionTemplate, prototypeOf)
      && HeapValid(instances, weak, nextSerial, owner)
    }

    constructor(regs: seq<Registration>)
      requires Hierarchy(regs)
      ensures Valid() && this.regs == regs
      ensures templates == seq(|regs|, _ => 0) && ctors == seq(|regs|, _ => 0)
      ensures instances == map[] && weak == {}
    {
      this.regs := regs;
      templates := seq(|regs|, _ => 0);
      ctors := seq(|regs|, _ => 0);
      nextHandle := 1;
      inherits, functionTemplate, prototypeOf := map[], map[], map[];
      instances, weak, nextSerial := map[], {}, 0;
      owner := map[];
    }

    /** `Template()`: the first call creates the template (and, through the
        parent, every missing ancestor template); later calls answer the same
        template and change nothing. */
    method Template(r: nat) returns (t: nat)
      requires Valid() && r < |regs|
      modifies this
      ensures Valid() && t != 0 && t == templates[r]
      ensures old(templates[r]) != 0 ==> t == old(templates[r]) && unchanged(this)
      ensures Extends(old(templates), templates, r)
      ensures ctors == old(ctors) && functionTemplate == old(functionTemplate) && prototypeOf == old(prototypeOf)
      ensures instances == old(instances) && weak == old(weak) && nextSerial == old(nextSerial)
      ensures old(nextHandle) <= nextHandle
      decreases r, 1
    {
      if templates[r] == 0 {
        t := Init(r);
      } else {
        t := templates[r];
      }
    }

    /** `Init()`: a new template for this registration that inherits the
        parent's template.  The parent's template is obtained before the new
        handle is made; handles are abstract, so the order is not observable. */
    method Init(r: nat) returns (t: nat)
      requires Valid() && r < |regs| && templates[r] == 0
      modifies this
      ensures Valid() && t != 0 && t == templates[r] && t !in old(owner)
      ensures Extends(old(templates), templates, r)
      ensures ctors == old(ctors) && functionTemplate == old(functionTemplate) && prototypeOf == old(prototypeOf)
      ensures instances == old(instances) && weak == old(weak) && nextSerial == old(nextSerial)
      ensures old(nextHandle) <= nextHandle
      decreases r, 0
    {
      var parentTemplate := 0;
      if regs[r].parent.Some? {
        parentTemplate := Template(regs[r].parent.value);
      }
      label Parent:
      t := NewTemplate(r, parentTemplate);
      if regs[r].parent.Some? {
        ExtendsThenFill(old(templates), old@Parent(templates), r, regs[r].parent.value, t);
      }
    }

    /** `FunctionTemplate::New` for registration `r`, made to inherit the
        parent's template, and stored as the registration's template. */
    method NewTemplate(r: nat, parentTemplate: nat) returns (t: nat)
      requires Valid() && r < |regs| && templates[r] == 0
      requires regs[r].parent.Some? ==> parentTemplate == templates[regs[r].parent.value] != 0
      modifies this
      ensures Valid() && t == old(nextHandle) && nextHandle == t + 1
      ensures templates == old(templates)[r := t] && owner == old(owner)[t := r]
      ensures inherits == if regs[r].parent.Some? then old(inherits)[t := parentTemplate] else old(inherits)
      ensures ctors == old(ctors) && functionTemplate == old(functionTemplate) && prototypeOf == old(prototypeOf)
      ensures instances == old(instances) && weak == old(weak) && nextSerial == old(nextSerial)
    {
      t := nextHandle;
      var inherits' := if regs[r].parent.Some? then inherits[t := parentTemplate] else inherits;
      NewTemplateKeepsTemplates(regs, templates, nextHandle, owner, inherits, r, parentTemplate);
      CtorsKeptByTemplates(regs, templates, templates[r := t], ctors, nextHandle, nextHandle + 1, owner, owner[t := r],
                           functionTemplate, prototypeOf);
      HeapKeptByTemplates(instances, weak, nextSerial, owner, owner[t := r]);
      templates, owner, inherits, nextHandle := templates[r := t], owner[t := r], inherits', nextHandle + 1;
    }

    /** `Constructor()`: the first call makes the constructor function from
        the template and links its prototype to the parent's constructor
        (inheritance of static members); later calls answer the same function
        and change nothing. */
    method Constructor(r: nat) returns (f: nat)
      requires Valid() && r < |regs|
      modifies this
      ensures Valid() && f != 0 && f == ctors[r] && templates[r] != 0
      ensures old(ctors[r]) != 0 ==> f == old(ctors[r]) && unchanged(this)
      ensures Extends(old(ctors), ctors, r)
      ensures Extends(old(templates), templates, |regs|)
      ensures instances == old(instances) && weak == old(weak) && nextSerial == old(nextSerial)
      decreases r
    {
      if ctors[r] == 0 {
        var t := Template(r);
        label Templated:
        var parentCtor := 0;
        if regs[r].parent.Some? {
          parentCtor := Constructor(regs[r].parent.value);
        }
        label Parent:
        f := NewConstructor(r, parentCtor);
        if regs[r].parent.Some? {
          ExtendsThenFill(old(ctors), old@Parent(ctors), r, regs[r].parent.value, f);
          ExtendsTrans(old(templates), old@Templated(templates), templates, r, |regs|);
        }
      } else {
        f := ctors[r];
      }
    }

    /** `GetFunction` on the registration's template, with the parent's
        constructor as its prototype, stored as the registration's
        constructor. */
    method NewConstructor(r: nat, parentCtor: nat) returns (f: nat)
      requires Valid() && r < |regs| && ctors[r] == 0 && templates[r] != 0
      requires regs[r].parent.Some? ==> parentCtor == ctors[regs[r].parent.value] != 0
      modifies this
      ensures Valid() && f == old(nextHandle) && nextHandle == f + 1
      ensures ctors == old(ctors)[r := f] && functionTemplate == old(functionTemplate)[f := templates[r]]
      ensures prototypeOf == if regs[r].parent.Some? then old(prototypeOf)[f := parentCtor] else old(prototypeOf)
      ensures templates == old(templates) && owner == old(owner) && inherits == old(inherits)
      ensures instances == old(instances) && weak == old(weak) && nextSerial == old(nextSerial)
    {
      f := nextHandle;
      assert TemplateReady(regs, templates, owner, inherits, r);
      NewCtorKeepsCtors(regs, templates, ctors, nextHandle, owner, functionTemplate, prototypeOf, r, parentCtor);
      var prototypeOf' := if regs[r].parent.Some? then prototypeOf[f := parentCtor] else prototypeOf;
      ctors, functionTemplate, prototypeOf, nextHandle := ctors[r := f], functionTemplate[f := templates[r]], prototypeOf', nextHandle + 1;
    }

    /** `Is(value)`: the value is an instance made from this registration's
        template or from the template of a descendant.  The template must
        already exist. */
    predicate Is(r: nat, v: Value)
      reads this
      requires Valid() && r < |regs| && templates[r] != 0
    {
      v.Ref? && v.obj in instances && Inherits(owner, inherits, v.obj.template, templates[r])
    }

    /** `Unwrap(value)`: `null` gives NULL; anything else must be an instance
        of this registration, and gives the pointer in its internal field. */
    function Unwrap(r: nat, v: Value): (p: nat)
      reads this
      requires Valid() && r < |regs| && templates[r] != 0
      requires v.Null? || Is(r, v)
      ensures v.Null? ==> p == 0
    {
      if v.Null? then 0 else instances[v.obj]
    }

    /** `Ctor`, the constructor callback of both `Wrapper` specialisations.
        The engine has already allocated the receiver, an instance of the
        registration's template with an empty internal field.  A single
        external argument is the wrapping path: its pointer is stored and
        no factory runs.  Otherwise the factory-less specialisation throws
        "illegal invocation!", and the factory one calls the factory, whose
        outcome is `made`: NULL leaves the field empty and answers
        `undefined`; a pointer is stored and a weak finalizer registered.
        An exception the factory left pending is what the caller sees. */
    method Ctor(r: nat, args: seq<Value>, made: Made) returns (res: Result<Value>)
      requires Valid() && r < |regs| && templates[r] != 0
      modifies this
      ensures Valid()
      ensures var self := ObjId(old(templates[r]), old(nextSerial));
              && self !in old(instances)
              && nextSerial == old(nextSerial) + 1
              && if |args| == 1 && args[0].External? then
                   && instances == old(instances)[self := args[0].ptr]
                   && weak == old(weak) && res == Ok(Ref(self))
                 else if !regs[r].hasFactory then
                   && instances == old(instances)[self := 0]
                   && weak == old(weak) && res == Throw("illegal invocation!")
                 else if made.ptr == 0 then
                   && instances == old(instances)[self := 0] && weak == old(weak)
                   && res == (if made.pending.Some? then Throw(made.pending.value) else Ok(Undefined))
                 else
                   && instances == old(instances)[self := made.ptr] && weak == old(weak) + {self}
                   && res == (if made.pending.Some? then Throw(made.pending.value) else Ok(Ref(self)))
      ensures templates == old(templates) && ctors == old(ctors) && nextHandle == old(nextHandle)
      ensures inherits == old(inherits) && owner == old(owner)
      ensures functionTemplate == old(functionTemplate) && prototypeOf == old(prototypeOf)
    {
      var self := ObjId(templates[r], nextSerial);
      assert TemplateReady(regs, templates, owner, inherits, r);
      var field := 0;
      var finalized := false;
      if |args| == 1 && args[0].External? {
        field := args[0].ptr;
        res := Ok(Ref(self));
      } else if !regs[r].hasFactory {
        res := Throw("illegal invocation!");
      } else if made.ptr == 0 {
        res := if made.pending.Some? then Throw(made.pending.value) else Ok(Undefined);
      } else {
        field, finalized := made.ptr, true;
        res := if made.pending.Some? then Throw(made.pending.value) else Ok(Ref(self));
      }
      AllocationKeepsHeap(instances, weak, nextSerial, owner, self, field, finalized);
      instances := instances[self := field];
      if finalized {
        weak := weak + {self};
      }
      nextSerial := nextSerial + 1;
    }

    /** `Wrap(val)`: NULL becomes `null`; any other pointer is handed to the
        constructor as an external value, so the wrapping path stores it
        without running a factory, and unwrapping the new instance gives the
        pointer back. */
    method Wrap(r: nat, p: nat) returns (v: Value)
      requires Valid() && r < |regs| && ctors[r] != 0
      modifies this
      ensures Valid() && templates == old(templates) && ctors == old(ctors)
      ensures p == 0 ==> v == Null && unchanged(this)
      ensures p != 0 ==> && v == Ref(ObjId(templates[r], old(nextSerial)))
                         && v.obj !in old(instances)
                         && instances == old(instances)[v.obj := p]
                         && weak == old(weak)
      ensures Is(r, v) || v.Null?
      ensures Unwrap(r, v) == p
    {
      if p == 0 {
        return Null;
      }
      // The factory is not consulted on the external path.
      var res := Ctor(r, [External(p)], Made(0, None));
      v := res.value;
    }

    /** `Dtor`, the weak finalizer: disposes the handle but leaves the native
        object alone, so the instance's pointer is not released. */
    method Dtor(o: ObjId)
      requires Valid() && o in weak
      modifies this
      ensures Valid() && weak == old(weak) - {o}
      ensures instances == old(instances) && templates == old(templates) && ctors == old(ctors)
    {
      weak := weak - {o};
    }

    /** An inheritance chain reaching a template reaches its parent's. */
    lemma {:induction false} InheritsParent(t: nat, r: nat)
      requires Valid() && t in owner && r < |regs| && templates[r] != 0 && regs[r].parent.Some?
      requires Inherits(owner, inherits, t, templates[r])
      ensures Inherits(owner, inherits, t, templates[regs[r].parent.value])
      decreases owner[t]
    {
      assert TemplateReady(regs, templates, owner, inherits, r);
      if t != templates[r] {
        InheritsParent(inherits[t], r);
      }
    }

    /** `Is` is transitive up the parent chain: an instance of a registration
        is an instance of every ancestor. */
    lemma {:induction false} IsAncestor(a: nat, r: nat, v: Value)
      requires Valid() && r < |regs| && templates[r] != 0
      requires AncestorOrSelf(regs, a, r) && Is(r, v)
      ensures a < |regs| && templates[a] != 0 && Is(a, v)
      decreases r
    {
      if a != r {
        var q := regs[r].parent.value;
        assert TemplateReady(regs, templates, owner, inherits, r);
        InheritsParent(v.obj.template, r);
        IsAncestor(a, q, v);
      }
    }

    /** The template chain from a registration's template reaches exactly the
        templates of its ancestors. */
    lemma {:induction false} InheritsOnlyAncestors(r: nat, a: nat)
      requires Valid() && r < |regs| && a < |regs| && templates[r] != 0 && templates[a] != 0
      requires Inherits(owner, inherits, templates[r], templates[a])
      ensures AncestorOrSelf(regs, a, r)
      decreases r
    {
      assert TemplateReady(regs, templates, owner, inherits, r) && TemplateReady(regs, templates, owner, inherits, a);
      if templates[r] != templates[a] {
        var q := regs[r].parent.value;
        assert TemplateReady(regs, templates, owner, inherits, q);
        InheritsOnlyAncestors(q, a);
      }
    }

    /** An instance made from registration `r` is an instance of `a` exactly
        when `a` is `r` or one of its ancestors. */
    lemma IsIffAncestor(r: nat, a: nat, v: Value)
      requires Valid() && r < |regs| && a < |regs| && templates[r] != 0 && templates[a] != 0
      requires v.Ref? && v.obj in instances && v.obj.template == templates[r]
      ensures Is(a, v) <==> AncestorOrSelf(regs, a, r)
    {
      assert Inherits(owner, inherits, templates[r], templates[r]);
      if Is(a, v) {
        InheritsOnlyAncestors(r, a);
      }
      if AncestorOrSelf(regs, a, r) {
        IsAncestor(a, r, v);
      }
    }
  }
}
