/** The radix trie of the binding generator: a node holds an optional value
    and a list of edges, each labelled by a non-empty segment of key
    elements and leading to a node.  Insertion splits an edge where the key
    leaves its label.  The trie is given twice: as values (`Tree`, `Edge`),
    which state what a trie stores, and as the objects the generator updates
    in place (`Nod`, `Arr`), whose methods are proved to act as the value
    operations do. */
module Trie {

  import opened Host

  // ---------------------------------------------------------------------------
  // prefixLen

  /** The length of the longest common prefix of `a` and `b`. */
  function SharedPrefix<T(==)>(a: seq<T>, b: seq<T>): (r: nat)
    ensures r <= |a| && r <= |b|
    ensures a[..r] == b[..r]
    ensures r < |a| && r < |b| ==> a[r] != b[r]
  {
    if a == [] || b == [] || a[0] != b[0] then 0
    else
      var r := SharedPrefix(a[1..], b[1..]);
      assert a[..r + 1] == [a[0]] + a[1..][..r];
      assert b[..r + 1] == [b[0]] + b[1..][..r];
      r + 1
  }

  /** The three properties above fix the length. */
  lemma SharedPrefixUnique<T>(a: seq<T>, b: seq<T>, r: nat)
    requires r <= |a| && r <= |b|
    requires a[..r] == b[..r]
    requires r < |a| && r < |b| ==> a[r] != b[r]
    ensures r == SharedPrefix(a, b)
  {
    var s := SharedPrefix(a, b);
    if r < s {
      assert false;
    } else if s < r {
      assert false;
    }
  }

  /** `prefixLen(a, b)`: an index loop up to the shorter length. */
  method PrefixLen<T(==)>(a: seq<T>, b: seq<T>) returns (r: nat)
    ensures r == SharedPrefix(a, b)
  {
    var l := if |a| < |b| then |a| else |b|;
    var i := 0;
    while i < l
      invariant 0 <= i <= l
      invariant a[..i] == b[..i]
    {
      if a[i] != b[i] {
        SharedPrefixUnique(a, b, i);
        return i;
      }
      assert a[..i + 1] == a[..i] + [a[i]];
      assert b[..i + 1] == b[..i] + [b[i]];
      i := i + 1;
    }
    SharedPrefixUnique(a, b, l);
    return l;
  }

  // ---------------------------------------------------------------------------
  // Tries as values

  /** A node: its value (`null` when absent) and its edges, in order. */
  datatype Tree<T, V> = Node(val: Option<V>, arr: seq<Edge<T, V>>)

  /** An edge: its label and the node it leads to. */
  datatype Edge<T, V> = Edge(seg: seq<T>, nod: Tree<T, V>)

  /** What the failed `assert(this.val === null)` throws. */
  const DuplicateKey := "AssertionError: false == true"

  /** The value stored under `key`: the node's own for the empty key, else
      what the first edge whose label starts the key stores under the rest. */
  function Lookup<T(==), V>(t: Tree<T, V>, key: seq<T>): Option<V>
    decreases t, 1
  {
    if key == [] then t.val else LookupIn(t.arr, key, 0)
  }

  function LookupIn<T(==), V>(arr: seq<Edge<T, V>>, key: seq<T>, i: nat): Option<V>
    requires i <= |arr|
    decreases arr, 0, |arr| - i
  {
    if i == |arr| then None
    else if Takes(arr[i], key) then Lookup(arr[i].nod, key[|arr[i].seg|..])
    else LookupIn(arr, key, i + 1)
  }

  /** Whether the edge's label starts `key`. */
  predicate Takes<T(==), V>(e: Edge<T, V>, key: seq<T>) {
    e.seg != [] && e.seg <= key
  }

  /** What an edge stores under `key`, read from its source node. */
  function EdgeLookup<T(==), V>(e: Edge<T, V>, key: seq<T>): Option<V> {
    if Takes(e, key) then Lookup(e.nod, key[|e.seg|..]) else None
  }

  /** Labels are non-empty and sibling labels start with distinct elements,
      all the way down. */
  predicate WellFormed<T(==), V>(t: Tree<T, V>)
    decreases t
  {
    && (forall i :: 0 <= i < |t.arr| ==> t.arr[i].seg != [] && WellFormed(t.arr[i].nod))
    && (forall i, j :: 0 <= i < j < |t.arr| ==> t.arr[i].seg[0] != t.arr[j].seg[0])
  }

  /** A fresh node holding `v` and no edges. */
  function Leaf<T, V>(v: V): Tree<T, V> {
    Node(Some(v), [])
  }

  /** `arr.split(l)`: an edge whose label the split point ends is kept;
      otherwise the label is cut there and a value-less node with one edge,
      labelled by the rest, is put in between.  The returned node is the
      new edge's `nod`.  Past the label's end the cut is at the end, as
      `slice` has it. */
  function SplitEdge<T, V>(e: Edge<T, V>, l: nat): (r: Edge<T, V>)
    requires l > 0
  {
    if l == |e.seg| then e
    else
      var cut := if l < |e.seg| then l else |e.seg|;
      Edge(e.seg[..cut], Node(None, [Edge(e.seg[cut..], e.nod)]))
  }

  /** `arr.insert(seg, val)`: `None` (false) when the label and the key
      share nothing; otherwise the edge after splitting it at the shared
      prefix and inserting the rest of the key below. */
  function EdgeInsert<T(==), V>(e: Edge<T, V>, key: seq<T>, v: V): Result<Option<Edge<T, V>>>
    decreases |key|, 0
  {
    var pl := SharedPrefix(e.seg, key);
    if pl == 0 then Ok(None)
    else
      var s := SplitEdge(e, pl);
      var n := TreeInsert(s.nod, key[pl..], v);
      if n.Throw? then Throw(n.message) else Ok(Some(Edge(s.seg, n.value)))
  }

  /** `nod.insert(seg, val)`: the empty key sets the node's value, which
      must be absent; any other key goes to the first edge that takes it,
      or to a new edge to a leaf at the end. */
  function TreeInsert<T(==), V>(t: Tree<T, V>, key: seq<T>, v: V): Result<Tree<T, V>>
    decreases |key|, 2
  {
    if key == [] then
      if t.val.Some? then Throw(DuplicateKey) else Ok(Node(Some(v), t.arr))
    else
      var r := EdgesInsert(t.arr, key, v, 0);
      if r.Throw? then Throw(r.message) else Ok(Node(t.val, r.value))
  }

  /** The loop over the edges from the `i`-th on. */
  function EdgesInsert<T(==), V>(arr: seq<Edge<T, V>>, key: seq<T>, v: V, i: nat): Result<seq<Edge<T, V>>>
    requires i <= |arr|
    decreases |key|, 1, |arr| - i
  {
    if i == |arr| then Ok(arr + [Edge(key, Leaf(v))])
    else
      var r := EdgeInsert(arr[i], key, v);
      if r.Throw? then Throw(r.message)
      else if r.value.Some? then Ok(arr[i := r.value.value])
      else EdgesInsert(arr, key, v, i + 1)
  }

  // ---------------------------------------------------------------------------
  // What insertion stores

  /** Edges that do not take the key are passed over. */
  lemma {:induction false} LookupSkip<T, V>(arr: seq<Edge<T, V>>, key: seq<T>, i: nat, j: nat)
    requires i <= j <= |arr|
    requires forall m :: i <= m < j ==> !Takes(arr[m], key)
    ensures LookupIn(arr, key, i) == LookupIn(arr, key, j)
    decreases j - i
  {
    if i < j {
      LookupSkip(arr, key, i + 1, j);
    }
  }

  /** When only the `h`-th edge can take the key, the lookup is that edge's. */
  lemma LookupOnly<T, V>(arr: seq<Edge<T, V>>, key: seq<T>, h: nat)
    requires h < |arr|
    requires forall m :: 0 <= m < |arr| && m != h ==> !Takes(arr[m], key)
    ensures LookupIn(arr, key, 0) == EdgeLookup(arr[h], key)
  {
    LookupSkip(arr, key, 0, h);
    LookupSkip(arr, key, h + 1, |arr|);
  }

  /** When no edge takes the key, nothing is stored under it. */
  lemma LookupNone<T, V>(arr: seq<Edge<T, V>>, key: seq<T>)
    requires forall m :: 0 <= m < |arr| ==> !Takes(arr[m], key)
    ensures LookupIn(arr, key, 0) == None
  {
    LookupSkip(arr, key, 0, |arr|);
  }

  /** An edge starting with another element than the key does not take it. */
  lemma Misses<T, V>(e: Edge<T, V>, key: seq<T>)
    requires e.seg != [] && key != [] && e.seg[0] != key[0]
    ensures !Takes(e, key)
  {
  }

  /** An edge shares a prefix with the key exactly when their first
      elements agree. */
  lemma SharesFirst<T, V>(e: Edge<T, V>, key: seq<T>)
    requires e.seg != [] && key != []
    ensures SharedPrefix(e.seg, key) > 0 <==> e.seg[0] == key[0]
  {
    if SharedPrefix(e.seg, key) > 0 {
      assert e.seg[..1] == key[..1];
    }
  }

  /** Edges sharing nothing with the key are passed over by the loop. */
  lemma {:induction false} InsertSkip<T, V>(arr: seq<Edge<T, V>>, key: seq<T>, v: V, i: nat, j: nat)
    requires i <= j <= |arr| && key != []
    requires forall m :: i <= m < j ==> arr[m].seg != [] && arr[m].seg[0] != key[0]
    ensures EdgesInsert(arr, key, v, i) == EdgesInsert(arr, key, v, j)
    decreases j - i
  {
    if i < j {
      SharesFirst(arr[i], key);
      InsertSkip(arr, key, v, i + 1, j);
    }
  }

  /** In a well-formed node, a non-empty key whose first element starts the
      `h`-th label goes to that edge, and the edge takes it. */
  lemma InsertVia<T, V>(t: Tree<T, V>, key: seq<T>, v: V, h: nat)
    requires WellFormed(t) && key != [] && h < |t.arr| && t.arr[h].seg[0] == key[0]
    ensures var r := EdgeInsert(t.arr[h], key, v);
            && (r.Ok? ==> r.value.Some?)
            && TreeInsert(t, key, v) == if r.Throw? then Throw(r.message) else Ok(Node(t.val, t.arr[h := r.value.value]))
  {
    InsertSkip(t.arr, key, v, 0, h);
    SharesFirst(t.arr[h], key);
  }

  /** A key whose first element starts no label gets a new last edge. */
  lemma InsertMiss<T, V>(t: Tree<T, V>, key: seq<T>, v: V)
    requires WellFormed(t) && key != []
    requires forall m :: 0 <= m < |t.arr| ==> t.arr[m].seg[0] != key[0]
    ensures TreeInsert(t, key, v) == Ok(Node(t.val, t.arr + [Edge(key, Leaf(v))]))
  {
    InsertSkip(t.arr, key, v, 0, |t.arr|);
  }

  /** The node put in between by a split stores under `k` what its one
      edge does. */
  lemma MidLookup<T, V>(suffix: seq<T>, nod: Tree<T, V>, k: seq<T>)
    ensures Lookup(Node(None, [Edge(suffix, nod)]), k) == if k == [] then None else EdgeLookup(Edge(suffix, nod), k)
  {
    var arr := [Edge(suffix, nod)];
    assert LookupIn(arr, k, 1) == None;
  }

  /** Splitting an edge inside its label changes nothing it stores. */
  lemma SplitKeeps<T, V>(e: Edge<T, V>, l: nat, k: seq<T>)
    requires 0 < l <= |e.seg|
    ensures EdgeLookup(SplitEdge(e, l), k) == EdgeLookup(e, k)
  {
    if l < |e.seg| {
      var prefix, suffix := e.seg[..l], e.seg[l..];
      if l <= |k| {
        MidLookup(suffix, e.nod, k[l..]);
      }
      if prefix <= k && k[l..] != [] && suffix <= k[l..] {
        assert e.seg == prefix + suffix;
        assert e.seg <= k;
        assert k[l..][|suffix|..] == k[|e.seg|..];
      }
      if e.seg <= k {
        assert prefix <= k;
        assert suffix <= k[l..];
      }
    }
  }

  /** A split at the label's end keeps the edge; one inside the label cuts
      it into the prefix, kept on the edge, and the suffix, on the one edge
      of a value-less node in between. */
  lemma SplitCuts<T, V>(e: Edge<T, V>, l: nat)
    requires l > 0
    ensures var r := SplitEdge(e, l);
            && (l == |e.seg| ==> r == e)
            && (l < |e.seg| ==>
                  && |r.seg| == l && r.nod.val == None && |r.nod.arr| == 1
                  && r.seg + r.nod.arr[0].seg == e.seg && r.nod.arr[0].nod == e.nod)
  {
    if l < |e.seg| {
      assert e.seg[..l] + e.seg[l..] == e.seg;
    }
  }

  /** `arr.insert` answers false exactly when the label and the key share
      nothing, and then changes nothing. */
  lemma EdgeInsertDeclines<T, V>(e: Edge<T, V>, key: seq<T>, v: V)
    ensures EdgeInsert(e, key, v) == Ok(None) <==> SharedPrefix(e.seg, key) == 0
  {
  }

  /** Two sequences with the same first `n` elements and the same rest are
      equal. */
  lemma SameParts<T>(a: seq<T>, b: seq<T>, n: nat)
    requires n <= |a| && n <= |b| && a[..n] == b[..n] && a[n..] == b[n..]
    ensures a == b
  {
    assert a == a[..n] + a[n..];
    assert b == b[..n] + b[n..];
  }

  /** The label the insertion leaves on the edge it takes is the shared
      prefix, and the node below it is well formed. */
  lemma SplitShape<T, V>(e: Edge<T, V>, key: seq<T>)
    requires e.seg != [] && WellFormed(e.nod) && SharedPrefix(e.seg, key) > 0
    ensures var pl := SharedPrefix(e.seg, key); var s := SplitEdge(e, pl);
            s.seg == key[..pl] && s.seg[0] == e.seg[0] && WellFormed(s.nod)
  {
    var pl := SharedPrefix(e.seg, key);
    if pl < |e.seg| {
      var s := SplitEdge(e, pl);
      assert s.nod.arr[0].seg == e.seg[pl..];
      assert s.nod.arr[0].nod == e.nod;
    }
  }

  /** What an edge stores after the key is inserted below it. */
  lemma {:induction false} EdgeInsertLookup<T, V>(e: Edge<T, V>, key: seq<T>, v: V, k: seq<T>)
    requires e.seg != [] && WellFormed(e.nod) && SharedPrefix(e.seg, key) > 0
    requires EdgeInsert(e, key, v).Ok?
    ensures EdgeInsert(e, key, v).value.Some?
    ensures EdgeLookup(EdgeInsert(e, key, v).value.value, k) == if k == key then Some(v) else EdgeLookup(e, k)
    decreases |key|, 0
  {
    var pl := SharedPrefix(e.seg, key);
    var s := SplitEdge(e, pl);
    SplitShape(e, key);
    SplitKeeps(e, pl, k);
    var n := TreeInsert(s.nod, key[pl..], v);
    if s.seg <= k {
      InsertLookup(s.nod, key[pl..], v, k[pl..]);
      if k[pl..] == key[pl..] {
        SameParts(k, key, pl);
      }
    }
  }

  /** After inserting `key`, the trie stores `v` under it and what it stored
      before under every other key. */
  lemma {:induction false} InsertLookup<T, V>(t: Tree<T, V>, key: seq<T>, v: V, k: seq<T>)
    requires WellFormed(t) && TreeInsert(t, key, v).Ok?
    ensures Lookup(TreeInsert(t, key, v).value, k) == if k == key then Some(v) else Lookup(t, k)
    decreases |key|, 1
  {
    if key != [] && k != [] {
      var arr := t.arr;
      if h :| 0 <= h < |arr| && arr[h].seg[0] == key[0] {
        InsertVia(t, key, v, h);
        SharesFirst(arr[h], key);
        EdgeInsertLookup(arr[h], key, v, k);
        var e' := EdgeInsert(arr[h], key, v).value.value;
        SplitShape(arr[h], key);
        if k[0] == key[0] {
          forall m | 0 <= m < |arr| && m != h
            ensures !Takes(arr[m], k)
          {
            Misses(arr[m], k);
          }
          LookupOnly(arr, k, h);
          LookupOnly(arr[h := e'], k, h);
        } else {
          LookupReplace(arr, h, e', k, 0);
        }
      } else {
        InsertMiss(t, key, v);
        var x := Edge(key, Leaf(v));
        if k[0] == key[0] {
          forall m | 0 <= m < |arr|
            ensures !Takes(arr[m], k)
          {
            Misses(arr[m], k);
          }
          LookupNone(arr, k);
          LookupOnly(arr + [x], k, |arr|);
          if Takes(x, k) {
            var rest := k[|key|..];
            assert Lookup(Leaf(v), rest) == if rest == [] then Some(v) else None;
            if rest == [] {
              SameParts(k, key, |key|);
            }
          }
        } else {
          LookupAppendMiss(arr, x, k, 0);
        }
      }
    }
  }

  /** Replacing an edge by one that takes the same keys and stores the
      same under them changes no lookup. */
  lemma {:induction false} LookupReplace<T, V>(arr: seq<Edge<T, V>>, h: nat, x: Edge<T, V>, k: seq<T>, i: nat)
    requires h < |arr| && i <= |arr|
    requires !Takes(arr[h], k) && !Takes(x, k)
    ensures LookupIn(arr[h := x], k, i) == LookupIn(arr, k, i)
    decreases |arr| - i
  {
    if i < |arr| {
      LookupReplace(arr, h, x, k, i + 1);
    }
  }

  /** An edge added at the end that does not take the key changes no
      lookup. */
  lemma {:induction false} LookupAppendMiss<T, V>(arr: seq<Edge<T, V>>, x: Edge<T, V>, k: seq<T>, i: nat)
    requires i <= |arr| && !Takes(x, k)
    ensures LookupIn(arr + [x], k, i) == LookupIn(arr, k, i)
    decreases |arr| - i
  {
    if i < |arr| {
      assert (arr + [x])[i] == arr[i];
      LookupAppendMiss(arr, x, k, i + 1);
    }
  }

  /** Inserting fails, with the assertion's message, exactly when the key
      is already stored. */
  lemma {:induction false} InsertFails<T, V>(t: Tree<T, V>, key: seq<T>, v: V)
    requires WellFormed(t)
    ensures TreeInsert(t, key, v).Throw? <==> Lookup(t, key).Some?
    ensures TreeInsert(t, key, v).Throw? ==> TreeInsert(t, key, v).message == DuplicateKey
    decreases |key|
  {
    if key != [] {
      var arr := t.arr;
      if h :| 0 <= h < |arr| && arr[h].seg[0] == key[0] {
        var e := arr[h];
        InsertVia(t, key, v, h);
        SharesFirst(e, key);
        SplitShape(e, key);
        forall m | 0 <= m < |arr| && m != h
          ensures !Takes(arr[m], key)
        {
          Misses(arr[m], key);
        }
        LookupOnly(arr, key, h);
        var pl := SharedPrefix(e.seg, key);
        var s := SplitEdge(e, pl);
        InsertFails(s.nod, key[pl..], v);
        SplitKeeps(e, pl, key);
        if pl < |e.seg| && pl < |key| {
          MidLookup(e.seg[pl..], e.nod, key[pl..]);
        }
      } else {
        InsertMiss(t, key, v);
        forall m | 0 <= m < |arr|
          ensures !Takes(arr[m], key)
        {
          Misses(arr[m], key);
        }
        LookupNone(arr, key);
      }
    }
  }

  /** Insertion keeps labels non-empty and sibling labels apart. */
  lemma {:induction false} InsertWellFormed<T, V>(t: Tree<T, V>, key: seq<T>, v: V)
    requires WellFormed(t) && TreeInsert(t, key, v).Ok?
    ensures WellFormed(TreeInsert(t, key, v).value)
    decreases |key|
  {
    if key != [] {
      var arr := t.arr;
      if h :| 0 <= h < |arr| && arr[h].seg[0] == key[0] {
        var e := arr[h];
        InsertVia(t, key, v, h);
        SharesFirst(e, key);
        SplitShape(e, key);
        var pl := SharedPrefix(e.seg, key);
        var s := SplitEdge(e, pl);
        InsertWellFormed(s.nod, key[pl..], v);
        var arr' := arr[h := EdgeInsert(e, key, v).value.value];
        assert forall m :: 0 <= m < |arr| ==> arr'[m].seg != [] && arr'[m].seg[0] == arr[m].seg[0];
      } else {
        InsertMiss(t, key, v);
        assert WellFormed(Leaf<T, V>(v));
      }
    }
  }

  /** `nod.insert(key, v)` on a well-formed trie: it fails exactly on a key
      already stored; otherwise the trie stays well formed, stores `v` under
      `key` and keeps every other key's value. */
  lemma InsertStores<T, V>(t: Tree<T, V>, key: seq<T>, v: V)
    requires WellFormed(t)
    ensures TreeInsert(t, key, v).Throw? <==> Lookup(t, key).Some?
    ensures TreeInsert(t, key, v).Ok? ==>
              && WellFormed(TreeInsert(t, key, v).value)
              && forall k :: Lookup(TreeInsert(t, key, v).value, k) == if k == key then Some(v) else Lookup(t, k)
  {
    InsertFails(t, key, v);
    if TreeInsert(t, key, v).Ok? {
      InsertWellFormed(t, key, v);
      forall k
        ensures Lookup(TreeInsert(t, key, v).value, k) == if k == key then Some(v) else Lookup(t, k)
      {
        InsertLookup(t, key, v, k);
      }
    }
  }

  /** A split inside a label leaves a node that takes any rest of the key:
      the rest leaves the label where the split is. */
  lemma MidAccepts<T, V>(suffix: seq<T>, nod: Tree<T, V>, key: seq<T>, v: V)
    requires suffix != [] && (key == [] || key[0] != suffix[0])
    ensures TreeInsert(Node(None, [Edge(suffix, nod)]), key, v).Ok?
  {
    if key != [] {
      var e := Edge(suffix, nod);
      SharesFirst(e, key);
      assert EdgeInsert(e, key, v) == Ok(None);
      assert EdgesInsert([e], key, v, 0) == EdgesInsert([e], key, v, 1);
    }
  }

  // ---------------------------------------------------------------------------
  // Tries as objects

  /** `Nod`: a node updated in place. */
  class Nod<T(==), V> {
    var val: Option<V>
    var arr: seq<Arr<T, V>>
    ghost var Model: Tree<T, V>
    ghost var Repr: set<object>

    ghost predicate Valid()
      reads this, Repr
      decreases Repr
    {
      && this in Repr
      && Model.val == val && |Model.arr| == |arr|
      && (forall i :: 0 <= i < |arr| ==>
            arr[i] in Repr && arr[i].Repr <= Repr && this !in arr[i].Repr && arr[i].Valid() && Model.arr[i] == arr[i].Model)
      && (forall i, j :: 0 <= i < |arr| && 0 <= j < |arr| && i != j ==> arr[i].Repr !! arr[j].Repr)
    }

    /** `new Nod(null, [])`: an empty root, storing no key. */
    constructor Empty()
      ensures Valid() && fresh(Repr)
      ensures Model == Node(None, []) && forall key :: Lookup(Model, key) == None
    {
      val := None;
      arr := [];
      Model := Node(None, []);
      Repr := {this};
    }

    /** `new Nod(val, [])`. */
    constructor Holding(v: V)
      ensures Valid() && fresh(Repr)
      ensures Model == Leaf(v)
    {
      val := Some(v);
      arr := [];
      Model := Leaf(v);
      Repr := {this};
    }

    /** `new Nod(null, [a])`. */
    constructor Over(a: Arr<T, V>)
      requires a.Valid()
      ensures Valid() && fresh(Repr - a.Repr)
      ensures Model == Node(None, [a.Model])
    {
      val := None;
      arr := [a];
      Model := Node(None, [a.Model]);
      Repr := {this} + a.Repr;
    }

    /** `nod.insert(seg, val)`. */
    method Insert(key: seq<T>, v: V) returns (r: Result<()>)
      requires Valid()
      modifies Repr
      ensures Valid() && fresh(Repr - old(Repr))
      ensures var want := TreeInsert(old(Model), key, v);
              && (r.Ok? <==> want.Ok?)
              && (r.Throw? ==> r.message == want.message)
              && Model == (if want.Ok? then want.value else old(Model))
      decreases |key|, 2
    {
      if key == [] {
        if val.Some? {
          return Throw(DuplicateKey);
        }
        val := Some(v);
        Model := Node(val, Model.arr);
        return Ok(());
      }
      var i := 0;
      while i < |arr|
        invariant 0 <= i <= |arr|
        invariant Valid() && Repr == old(Repr) && Model == old(Model)
        invariant EdgesInsert(old(Model).arr, key, v, i) == EdgesInsert(old(Model).arr, key, v, 0)
        decreases |arr| - i
      {
        var shared := Offer(i, key, v);
        if shared.Throw? {
          return Throw(shared.message);
        }
        if shared.value {
          return Ok(());
        }
        i := i + 1;
      }
      var leaf := new Nod.Holding(v);
      var a := new Arr(key, leaf);
      Push(a);
      return Ok(());
    }

    /** `this.arr.push(a)` for an edge built apart from this node. */
    method Push(a: Arr<T, V>)
      requires Valid() && a.Valid() && a.Repr !! Repr
      modifies this
      ensures Valid() && Repr == old(Repr) + a.Repr
      ensures Model == Node(old(Model).val, old(Model).arr + [a.Model])
    {
      arr := arr + [a];
      Repr := Repr + a.Repr;
      Model := Node(val, Model.arr + [a.Model]);
    }

    /** One round of the loop in `nod.insert`: the `i`-th edge is asked to
        take the key. */
    method Offer(i: nat, key: seq<T>, v: V) returns (shared: Result<bool>)
      requires Valid() && i < |arr|
      modifies Repr
      ensures Valid() && fresh(Repr - old(Repr))
      ensures var want := EdgeInsert(old(Model).arr[i], key, v);
              && (shared.Ok? <==> want.Ok?)
              && (shared.Ok? ==> shared.value == want.value.Some?)
              && (shared.Throw? ==> shared.message == want.message)
              && Model == (if want.Ok? && want.value.Some? then Node(old(Model).val, old(Model).arr[i := want.value.value]) else old(Model))
              && (shared == Ok(false) ==> Repr == old(Repr))
      decreases |key|, 1
    {
      shared := arr[i].Insert(key, v);
      if shared != Ok(false) {
        Repr := Repr + arr[i].Repr;
      }
      if shared == Ok(true) {
        Model := Node(val, Model.arr[i := arr[i].Model]);
      }
    }
  }

  /** `Arr`: an edge updated in place. */
  class Arr<T(==), V> {
    var seg: seq<T>
    var nod: Nod<T, V>
    ghost var Model: Edge<T, V>
    ghost var Repr: set<object>

    ghost predicate Valid()
      reads this, Repr
      decreases Repr
    {
      && this in Repr
      && nod in Repr && nod.Repr <= Repr && this !in nod.Repr && nod.Valid()
      && Model == Edge(seg, nod.Model)
    }

    /** `new Arr(seg, nod)`. */
    constructor (seg: seq<T>, nod: Nod<T, V>)
      requires nod.Valid()
      ensures Valid() && fresh(Repr - nod.Repr)
      ensures Model == Edge(seg, nod.Model)
    {
      this.seg := seg;
      this.nod := nod;
      Model := Edge(seg, nod.Model);
      Repr := {this} + nod.Repr;
    }

    /** `arr.split(l)`. */
    method Split(l: nat) returns (n: Nod<T, V>)
      requires Valid() && l > 0
      modifies this
      ensures Valid() && fresh(Repr - old(Repr))
      ensures Model == SplitEdge(old(Model), l)
      ensures n == nod
    {
      if l == |seg| {
        return nod;
      }
      var cut := if l < |seg| then l else |seg|;
      var below := new Arr(seg[cut..], nod);
      n := new Nod.Over(below);
      seg := seg[..cut];
      nod := n;
      Repr := Repr + n.Repr;
      Model := Edge(seg, n.Model);
    }

    /** `arr.insert(seg, val)`: `false` when nothing is shared. */
    method Insert(key: seq<T>, v: V) returns (r: Result<bool>)
      requires Valid()
      modifies Repr
      ensures Valid() && fresh(Repr - old(Repr))
      ensures var want := EdgeInsert(old(Model), key, v);
              && (r.Ok? <==> want.Ok?)
              && (r.Ok? ==> r.value == want.value.Some?)
              && (r.Throw? ==> r.message == want.message)
              && Model == (if want.Ok? && want.value.Some? then want.value.value else old(Model))
              && (r == Ok(false) ==> Repr == old(Repr))
      decreases |key|, 0
    {
      var pl := PrefixLen(seg, key);
      if pl == 0 {
        return Ok(false);
      }
      ghost var before := Model;
      if pl < |seg| && pl < |key| {
        MidAccepts(seg[pl..], nod.Model, key[pl..], v);
      }
      var n := Split(pl);
      var inner := n.Insert(key[pl..], v);
      Repr := Repr + n.Repr;
      Model := Edge(seg, n.Model);
      if inner.Throw? {
        return Throw(inner.message);
      }
      return Ok(true);
    }
  }
}
