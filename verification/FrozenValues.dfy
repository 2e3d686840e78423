/** JSON-like values, their freezing and their nesting depth (backend/app/contracts/incident.py). */
module FrozenValues {
  import opened Wrappers
  import opened Seqs

  /** In Python `True == 1` and `1 == 1.0`. */
  datatype Scalar = Null | Bool(b: bool) | Number(n: real) | Text(s: string)

  /** A mapping lists its items in insertion order, each under the key at the same position. */
  datatype Value =
    | Leaf(scalar: Scalar)
    | Dict(keys: seq<string>, items: seq<Value>)
    | Frozen(keys: seq<string>, items: seq<Value>)
    | List(items: seq<Value>)
    | Tuple(items: seq<Value>)

  predicate IsMapping(v: Value) {
    v.Dict? || v.Frozen?
  }

  /** Nothing in it can be changed. */
  ghost predicate DeepFrozen(v: Value) {
    v.Leaf? || (!v.Dict? && !v.List? && forall i :: 0 <= i < |v.items| ==> DeepFrozen(v.items[i]))
  }

  /** Plain JSON-native containers only. */
  ghost predicate Plain(v: Value) {
    v.Leaf? || (!v.Frozen? && !v.Tuple? && forall i :: 0 <= i < |v.items| ==> Plain(v.items[i]))
  }

  /** A value the program can build: keys are unique, and a frozen mapping is frozen all through. */
  ghost predicate WellFormed(v: Value) {
    && (IsMapping(v) ==> |v.keys| == |v.items| && Distinct(v.keys))
    && (v.Frozen? ==> DeepFrozen(v))
    && (!v.Leaf? ==> forall i :: 0 <= i < |v.items| ==> WellFormed(v.items[i]))
  }

  // ------------------------------------------------ freezing and normalising

  function Freeze(v: Value): Value {
    match v
    case Leaf(_) => v
    case Frozen(_, _) => v
    case Dict(keys, items) => Frozen(keys, seq(|items|, i requires 0 <= i < |items| => Freeze(items[i])))
    case List(items) => Tuple(seq(|items|, i requires 0 <= i < |items| => Freeze(items[i])))
    case Tuple(items) => Tuple(seq(|items|, i requires 0 <= i < |items| => Freeze(items[i])))
  }

  function Normalize(v: Value): Value {
    match v
    case Leaf(_) => v
    case Frozen(keys, items) => Dict(keys, seq(|items|, i requires 0 <= i < |items| => Normalize(items[i])))
    case Dict(keys, items) => Dict(keys, seq(|items|, i requires 0 <= i < |items| => Normalize(items[i])))
    case List(items) => List(seq(|items|, i requires 0 <= i < |items| => Normalize(items[i])))
    case Tuple(items) => List(seq(|items|, i requires 0 <= i < |items| => Normalize(items[i])))
  }

  /** Freezing leaves nothing mutable behind, and the value still well formed. */
  lemma {:induction false} FreezeIsDeep(v: Value)
    requires WellFormed(v)
    ensures DeepFrozen(Freeze(v)) && WellFormed(Freeze(v))
  {
    if !v.Leaf? {
      forall i | 0 <= i < |v.items| ensures DeepFrozen(Freeze(v.items[i])) && WellFormed(Freeze(v.items[i])) {
        FreezeIsDeep(v.items[i]);
      }
    }
  }

  lemma {:induction false} NormalizeIsPlain(v: Value)
    requires WellFormed(v)
    ensures Plain(Normalize(v)) && WellFormed(Normalize(v))
  {
    if !v.Leaf? {
      forall i | 0 <= i < |v.items| ensures Plain(Normalize(v.items[i])) && WellFormed(Normalize(v.items[i])) {
        NormalizeIsPlain(v.items[i]);
      }
    }
  }

  /** Freezing loses no content. */
  lemma {:induction false} NormalizeFrozen(v: Value)
    ensures Normalize(Freeze(v)) == Normalize(v)
  {
    if !v.Leaf? && !v.Frozen? {
      forall i | 0 <= i < |v.items| ensures Normalize(Freeze(v.items[i])) == Normalize(v.items[i]) {
        NormalizeFrozen(v.items[i]);
      }
    }
  }

  /** A frozen value comes back from its plain rendering, which is how it is pickled. */
  lemma {:induction false} FreezeNormalized(v: Value)
    requires DeepFrozen(v)
    ensures Freeze(Normalize(v)) == v
  {
    if !v.Leaf? {
      forall i | 0 <= i < |v.items| ensures Freeze(Normalize(v.items[i])) == v.items[i] {
        FreezeNormalized(v.items[i]);
      }
      assert Freeze(Normalize(v)).items == v.items;
    }
  }

  // ------------------------------------------------ depth

  /** Containers on the longest way down. */
  function Depth(v: Value): nat
    decreases v
  {
    if v.Leaf? then 0 else 1 + DepthUpTo(v, |v.items|)
  }

  /** The deepest of the first `n` items. */
  function DepthUpTo(v: Value, n: nat): nat
    requires !v.Leaf? && n <= |v.items|
    decreases v, n
  {
    if n == 0 then 0 else Max(DepthUpTo(v, n - 1), Depth(v.items[n - 1]))
  }

  /** So many containers, each inside the one before. */
  ghost predicate Nests(v: Value, n: nat) {
    n == 0 || (!v.Leaf? && (n == 1 || exists i :: 0 <= i < |v.items| && Nests(v.items[i], n - 1)))
  }

  /** The depth is the greatest number of containers that lie inside each other. */
  lemma {:induction false} DepthExactly(v: Value, n: nat)
    ensures Nests(v, n) <==> n <= Depth(v)
  {
    if !v.Leaf? && n > 1 {
      forall i | 0 <= i < |v.items| ensures Nests(v.items[i], n - 1) <==> n - 1 <= Depth(v.items[i]) {
        DepthExactly(v.items[i], n - 1);
      }
      DepthBounds(v, |v.items|, n - 2);
    }
  }

  lemma {:induction false} SameDepths(v: Value, w: Value, n: nat)
    requires !v.Leaf? && !w.Leaf? && n <= |v.items| == |w.items|
    requires forall i :: 0 <= i < n ==> Depth(v.items[i]) == Depth(w.items[i])
    ensures DepthUpTo(v, n) == DepthUpTo(w, n)
  {
    if n > 0 {
      SameDepths(v, w, n - 1);
    }
  }

  /** The depth limit may be checked on the frozen value as well as on the original. */
  lemma {:induction false} FreezeKeepsDepth(v: Value)
    ensures Depth(Freeze(v)) == Depth(v)
  {
    if !v.Leaf? && !v.Frozen? {
      forall i | 0 <= i < |v.items| ensures Depth(Freeze(v.items[i])) == Depth(v.items[i]) {
        FreezeKeepsDepth(v.items[i]);
      }
      SameDepths(Freeze(v), v, |v.items|);
    }
  }

  function Size(v: Value): nat
    decreases v
  {
    if v.Leaf? then 1 else 1 + SizeUpTo(v, |v.items|)
  }

  function SizeUpTo(v: Value, n: nat): nat
    requires !v.Leaf? && n <= |v.items|
    decreases v, n
  {
    if n == 0 then 0 else SizeUpTo(v, n - 1) + Size(v.items[n - 1])
  }

  function StackSize(stack: seq<Value>): nat {
    if stack == [] then 0 else StackSize(stack[..|stack| - 1]) + Size(stack[|stack| - 1])
  }

  /** The deepest level that the values still on the stack reach. */
  function Reach(stack: seq<Value>, levels: seq<nat>): nat
    requires |stack| == |levels|
  {
    if stack == [] then 0
    else
      var k := |stack| - 1;
      Max(Reach(stack[..k], levels[..k]), levels[k] + Depth(stack[k]))
  }

  /** Pushing the next item of `v`. */
  lemma PushItem(v: Value, n: nat, stack: seq<Value>, levels: seq<nat>, d: nat)
    requires !v.Leaf? && n < |v.items| && |stack| == |levels|
    ensures StackSize(stack + [v.items[n]]) - StackSize(stack) == SizeUpTo(v, n + 1) - SizeUpTo(v, n)
    ensures Reach(stack + [v.items[n]], levels + [d]) == Max(Reach(stack, levels), d + Depth(v.items[n]))
    ensures DepthUpTo(v, n + 1) == Max(DepthUpTo(v, n), Depth(v.items[n]))
  {
    var s, l := stack + [v.items[n]], levels + [d];
    assert s[..|s| - 1] == stack && l[..|s| - 1] == levels;
  }

  /** Taking the last value off the stack. */
  lemma Popped(stack: seq<Value>, levels: seq<nat>)
    requires |stack| == |levels| > 0
    ensures var k := |stack| - 1;
      && Reach(stack, levels) == Max(Reach(stack[..k], levels[..k]), levels[k] + Depth(stack[k]))
      && StackSize(stack) == StackSize(stack[..k]) + Size(stack[k])
      && (if stack[k].Leaf? then Depth(stack[k]) == 0 && Size(stack[k]) == 1
          else && Depth(stack[k]) == 1 + DepthUpTo(stack[k], |stack[k].items|)
               && Size(stack[k]) == 1 + SizeUpTo(stack[k], |stack[k].items|)
               && DepthUpTo(stack[k], 0) == 0 && SizeUpTo(stack[k], 0) == 0)
  {
  }

  /** The inner loop: all items of `v` go on top, one level down. */
  method PushItems(v: Value, d: nat, under: seq<Value>, levelsUnder: seq<nat>, best: nat)
    returns (stack: seq<Value>, levels: seq<nat>)
    requires !v.Leaf? && |under| == |levelsUnder| && d <= best
    requires forall i :: 0 <= i < |levelsUnder| ==> levelsUnder[i] <= best
    ensures |stack| == |levels| && forall i :: 0 <= i < |levels| ==> levels[i] <= best
    ensures Max(best, Reach(stack, levels)) == Max(best, Max(Reach(under, levelsUnder), d + DepthUpTo(v, |v.items|)))
    ensures StackSize(stack) == StackSize(under) + SizeUpTo(v, |v.items|)
  {
    hide Depth, Size, StackSize, Reach;
    stack, levels := under, levelsUnder;
    var n := 0;
    while n < |v.items|
      invariant 0 <= n <= |v.items| && |stack| == |levels|
      invariant forall i :: 0 <= i < |levels| ==> levels[i] <= best
      invariant Max(best, Reach(stack, levels)) == Max(best, Max(Reach(under, levelsUnder), d + DepthUpTo(v, n)))
      invariant StackSize(stack) == StackSize(under) + SizeUpTo(v, n)
    {
      PushItem(v, n, stack, levels, d);
      stack, levels := stack + [v.items[n]], levels + [d];
      n := n + 1;
    }
  }

  /** The two-stack walk finds the depth, and ends because each turn takes a node off. */
  method NestedDepth(value: Value) returns (best: nat)
    ensures best == Depth(value)
  {
    best := 0;
    var stack: seq<Value>, levels: seq<nat> := [value], [0];
    assert stack[..0] == [] && levels[..0] == [];
    while stack != []
      invariant |stack| == |levels|
      invariant forall i :: 0 <= i < |levels| ==> levels[i] <= best
      invariant Max(best, Reach(stack, levels)) == Depth(value)
      decreases StackSize(stack)
    {
      hide Depth, DepthUpTo, Size, SizeUpTo, StackSize, Reach;
      Popped(stack, levels);
      var k := |stack| - 1;
      var v, d := stack[k], levels[k];
      stack, levels := stack[..k], levels[..k];
      if !v.Leaf? {
        best := Max(best, d + 1);
        stack, levels := PushItems(v, d + 1, stack, levels, best);
      }
    }
  }

  // ------------------------------------------------ equality

  function Canon(s: Scalar): Scalar {
    if s.Bool? then Number(if s.b then 1.0 else 0.0) else s
  }

  /** Python's `==` on plain values: mappings of equal size where every key of the one has an
      equal value in the other. */
  ghost predicate PyEq(a: Value, b: Value)
    decreases a, 0
  {
    match (a, b)
    case (Leaf(s), Leaf(t)) => Canon(s) == Canon(t)
    case (List(xs), List(ys)) => |xs| == |ys| && forall i :: 0 <= i < |xs| ==> PyEq(xs[i], ys[i])
    case (Dict(ks, xs), Dict(ls, ys)) =>
      |xs| == |ys| && forall i :: 0 <= i < |ks| && i < |xs| ==> HasEqual(ks[i], xs[i], ls, ys)
    case _ => false
  }

  ghost predicate HasEqual(k: string, x: Value, ls: seq<string>, ys: seq<Value>)
    decreases x, 1
  {
    exists j :: 0 <= j < |ls| && j < |ys| && ls[j] == k && PyEq(x, ys[j])
  }

  /** Scalars are equal as numbers, true and false being one and zero, or as what they are. */
  lemma ScalarsEqual(s: Scalar, t: Scalar)
    ensures PyEq(Leaf(s), Leaf(t)) <==>
      (if NumberOf(s).Some? && NumberOf(t).Some? then NumberOf(s) == NumberOf(t) else s == t)
  {
  }

  function NumberOf(s: Scalar): Option<real> {
    match s
    case Bool(true) => Some(1.0)
    case Bool(false) => Some(0.0)
    case Number(n) => Some(n)
    case _ => None
  }

  lemma {:induction false} PyEqReflexive(v: Value)
    requires Plain(v) && WellFormed(v)
    ensures PyEq(v, v)
  {
    if !v.Leaf? {
      forall i | 0 <= i < |v.items| ensures PyEq(v.items[i], v.items[i]) {
        PyEqReflexive(v.items[i]);
      }
    }
  }

  /** Two repetition-free key lists of one length, one inside the other, hold the same keys. */
  lemma SameKeys(ks: seq<string>, ls: seq<string>)
    requires Distinct(ks) && Distinct(ls) && |ks| == |ls|
    requires forall i :: 0 <= i < |ks| ==> ks[i] in ls
    ensures forall k :: k in ls ==> k in ks
  {
    DistinctLength(ks);
    DistinctLength(ls);
    var inner, outer := Elements(ks), Elements(ls);
    assert inner <= outer;
    if k :| k in ls && k !in ks {
      assert k in outer && inner <= outer - {k};
      SubsetSize(inner, outer - {k});
    }
  }

  lemma {:induction false} SubsetSize<T>(a: set<T>, b: set<T>)
    requires a <= b
    ensures |a| <= |b|
  {
    if a != {} {
      var x :| x in a;
      SubsetSize(a - {x}, b - {x});
    }
  }

  /** The one-sided check of mapping equality is two-sided, keys being unique. */
  lemma {:induction false} PyEqSymmetric(a: Value, b: Value)
    requires WellFormed(a) && WellFormed(b) && PyEq(a, b)
    ensures PyEq(b, a)
    decreases a
  {
    if a.List? {
      forall i | 0 <= i < |b.items| ensures PyEq(b.items[i], a.items[i]) {
        PyEqSymmetric(a.items[i], b.items[i]);
      }
    } else if a.Dict? {
      forall i | 0 <= i < |a.keys| ensures a.keys[i] in b.keys {
        assert HasEqual(a.keys[i], a.items[i], b.keys, b.items);
      }
      SameKeys(a.keys, b.keys);
      forall j | 0 <= j < |b.keys| ensures HasEqual(b.keys[j], b.items[j], a.keys, a.items) {
        assert b.keys[j] in a.keys;
        var i :| 0 <= i < |a.keys| && a.keys[i] == b.keys[j];
        assert HasEqual(a.keys[i], a.items[i], b.keys, b.items);
        PyEqSymmetric(a.items[i], b.items[j]);
      }
    }
  }

  lemma {:induction false} PyEqTransitive(a: Value, b: Value, c: Value)
    requires WellFormed(a) && WellFormed(b) && WellFormed(c) && PyEq(a, b) && PyEq(b, c)
    ensures PyEq(a, c)
    decreases a
  {
    if a.List? {
      forall i | 0 <= i < |a.items| ensures PyEq(a.items[i], c.items[i]) {
        PyEqTransitive(a.items[i], b.items[i], c.items[i]);
      }
    } else if a.Dict? {
      forall i | 0 <= i < |a.keys| ensures HasEqual(a.keys[i], a.items[i], c.keys, c.items) {
        assert HasEqual(a.keys[i], a.items[i], b.keys, b.items);
        var j :| 0 <= j < |b.keys| && b.keys[j] == a.keys[i] && PyEq(a.items[i], b.items[j]);
        assert HasEqual(b.keys[j], b.items[j], c.keys, c.items);
        var k :| 0 <= k < |c.keys| && c.keys[k] == b.keys[j] && PyEq(b.items[j], c.items[k]);
        PyEqTransitive(a.items[i], b.items[j], c.items[k]);
      }
    }
  }

  /** `FrozenDict.__eq__` against any mapping. */
  ghost predicate SameContent(a: Value, b: Value) {
    IsMapping(a) && IsMapping(b) && PyEq(Normalize(a), Normalize(b))
  }

  /** Content equality is an equivalence over frozen and plain mappings alike, and a frozen
      mapping equals what it was made from. */
  lemma ContentEquivalence(a: Value, b: Value, c: Value)
    requires WellFormed(a) && WellFormed(b) && WellFormed(c) && IsMapping(a)
    ensures SameContent(a, a) && SameContent(Freeze(a), a)
    ensures SameContent(a, b) ==> SameContent(b, a)
    ensures SameContent(a, b) && SameContent(b, c) ==> SameContent(a, c)
  {
    NormalizeIsPlain(a);
    NormalizeIsPlain(b);
    NormalizeIsPlain(c);
    PyEqReflexive(Normalize(a));
    NormalizeFrozen(a);
    if SameContent(a, b) {
      PyEqSymmetric(Normalize(a), Normalize(b));
      if SameContent(b, c) {
        PyEqTransitive(Normalize(a), Normalize(b), Normalize(c));
      }
    }
  }

  // ------------------------------------------------ equal values are equally deep

  lemma {:induction false} DepthBounds(v: Value, n: nat, bound: nat)
    requires !v.Leaf? && n <= |v.items|
    ensures DepthUpTo(v, n) <= bound <==> forall i :: 0 <= i < n ==> Depth(v.items[i]) <= bound
  {
    if n > 0 {
      DepthBounds(v, n - 1, bound);
    }
  }

  lemma {:induction false} EqualNotDeeper(a: Value, b: Value)
    requires WellFormed(a) && WellFormed(b) && PyEq(a, b)
    ensures Depth(a) <= Depth(b)
    decreases a
  {
    if !a.Leaf? {
      var bound := DepthUpTo(b, |b.items|);
      DepthBounds(b, |b.items|, bound);
      forall i | 0 <= i < |a.items| ensures Depth(a.items[i]) <= bound {
        if a.List? {
          EqualNotDeeper(a.items[i], b.items[i]);
        } else {
          assert HasEqual(a.keys[i], a.items[i], b.keys, b.items);
          var j :| 0 <= j < |b.keys| && b.keys[j] == a.keys[i] && PyEq(a.items[i], b.items[j]);
          EqualNotDeeper(a.items[i], b.items[j]);
        }
      }
      DepthBounds(a, |a.items|, bound);
    }
  }

  lemma {:induction false} NormalizeKeepsDepth(v: Value)
    ensures Depth(Normalize(v)) == Depth(v)
  {
    if !v.Leaf? {
      forall i | 0 <= i < |v.items| ensures Depth(Normalize(v.items[i])) == Depth(v.items[i]) {
        NormalizeKeepsDepth(v.items[i]);
      }
      SameDepths(Normalize(v), v, |v.items|);
    }
  }

  /** The depth limit cannot tell equal mappings apart. */
  lemma SameContentSameDepth(a: Value, b: Value)
    requires WellFormed(a) && WellFormed(b) && SameContent(a, b)
    ensures Depth(a) == Depth(b)
  {
    NormalizeIsPlain(a);
    NormalizeIsPlain(b);
    PyEqSymmetric(Normalize(a), Normalize(b));
    EqualNotDeeper(Normalize(a), Normalize(b));
    EqualNotDeeper(Normalize(b), Normalize(a));
    NormalizeKeepsDepth(a);
    NormalizeKeepsDepth(b);
  }
}
