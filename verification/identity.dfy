/** Equality and hashing of descriptors. Both look only at the type name and
    at the resolved element descriptors, so they resolve every child descriptor
    (and can fail with `MissingDescriptorException` while doing so). */
module DescIdentity {
  import opened Wrappers
  import opened SerialClassDesc

  /** Kotlin's `Int` arithmetic: the two's-complement value of `x` modulo 2^32. */
  function Int32(x: int): (r: int)
    ensures -0x8000_0000 <= r < 0x8000_0000
    ensures (r - x) % 0x1_0000_0000 == 0
  {
    (x + 0x8000_0000) % 0x1_0000_0000 - 0x8000_0000
  }

  /** `elementDescriptors()`: the descriptors of elements `0 .. elementsCount - 1`,
      resolved in index order; the first index that cannot be resolved fails the call. */
  function ElementDescriptors<A>(d: Desc<A>): (r: Result<seq<Desc<A>>, Error>)
    ensures r.Ok? <==> forall i :: 0 <= i < ElementsCount(d) ==> GetElementDescriptor(d, i).Ok?
    ensures r.Ok? ==> |r.value| == ElementsCount(d)
    ensures r.Ok? ==> forall i :: 0 <= i < |r.value| ==> GetElementDescriptor(d, i) == Ok(r.value[i])
    ensures r.Ok? ==> forall i :: 0 <= i < |r.value| ==> r.value[i] < d
    ensures r.Err? ==> exists i :: FirstMissing(d, i) && r.error == GetElementDescriptor(d, i).error
  {
    ResolvePrefix(d, ElementsCount(d))
  }

  /** `i` is the lowest element index whose descriptor cannot be resolved. */
  ghost predicate FirstMissing<A>(d: Desc<A>, i: int) {
    && 0 <= i < ElementsCount(d)
    && GetElementDescriptor(d, i).Err?
    && forall j :: 0 <= j < i ==> GetElementDescriptor(d, j).Ok?
  }

  /** The descriptors of elements `0 .. n - 1`, resolved in index order. */
  function ResolvePrefix<A>(d: Desc<A>, n: nat): (r: Result<seq<Desc<A>>, Error>)
    requires n <= ElementsCount(d)
    ensures r.Ok? <==> forall i :: 0 <= i < n ==> GetElementDescriptor(d, i).Ok?
    ensures r.Ok? ==> |r.value| == n
    ensures r.Ok? ==> forall i :: 0 <= i < n ==> GetElementDescriptor(d, i) == Ok(r.value[i])
    ensures r.Ok? ==> forall i :: 0 <= i < n ==> r.value[i] < d
    ensures r.Err? ==> exists i :: i < n && FirstMissing(d, i) && r.error == GetElementDescriptor(d, i).error
  {
    if n == 0 then Ok([])
    else match ResolvePrefix(d, n - 1)
      case Err(e) => Err(e)
      case Ok(prefix) =>
        match GetElementDescriptor(d, n - 1)
        case Err(e) => assert FirstMissing(d, n - 1); Err(e)
        case Ok(c) => Ok(prefix + [c])
  }

  /** `equals(other)` between two descriptors: equal names, then equal lists of
      resolved element descriptors, compared element by element with `equals`. */
  function Equals<A>(a: Desc<A>, b: Desc<A>): (r: Result<bool, Error>)
    ensures a.name != b.name ==> r == Ok(false)
    ensures r.Err? ==> a.name == b.name
    ensures a.name == b.name && ElementDescriptors(a).Err? ==> r == Err(ElementDescriptors(a).error)
    ensures r == Ok(true) ==> ElementsCount(a) == ElementsCount(b)
    decreases a, 1, 0
  {
    if a.name != b.name then Ok(false)
    else match ElementDescriptors(a)
      case Err(e) => Err(e)
      case Ok(xs) =>
        match ElementDescriptors(b)
        case Err(e) => Err(e)
        case Ok(ys) => ListEquals(xs, ys, a)
  }

  /** List equality over resolved descriptors: unequal lengths are unequal;
      otherwise pairs are compared in order and the first unequal pair decides. */
  function ListEquals<A>(xs: seq<Desc<A>>, ys: seq<Desc<A>>, ghost owner: Desc<A>): (r: Result<bool, Error>)
    requires forall k :: 0 <= k < |xs| ==> xs[k] < owner
    ensures r == Ok(true) ==> |xs| == |ys|
    ensures r == Ok(true) ==> forall k :: 0 <= k < |xs| ==> xs[k].name == ys[k].name
    ensures |xs| == |ys| && |xs| > 0 && xs[0].name != ys[0].name ==> r == Ok(false)
    decreases owner, 0, |xs|
  {
    if |xs| != |ys| then Ok(false)
    else if |xs| == 0 then Ok(true)
    else match Equals(xs[0], ys[0])
      case Err(e) => Err(e)
      case Ok(same) => if !same then Ok(false) else ListEquals(xs[1..], ys[1..], owner)
  }

  /** `hashCode()`: `31 * name.hashCode() + elementDescriptors().hashCode()` in
      `Int` arithmetic. `String.hashCode` is supplied as `strHash`. */
  function HashCode<A>(d: Desc<A>, strHash: string -> int): (r: Result<int, Error>)
    ensures r.Ok? ==> -0x8000_0000 <= r.value < 0x8000_0000
    decreases d, 1, 0
  {
    var h := strHash(d.name);
    match ElementDescriptors(d)
    case Err(e) => Err(e)
    case Ok(xs) =>
      match ListHashCode(1, xs, strHash, d)
      case Err(e) => Err(e)
      case Ok(lh) => Ok(Int32(31 * h + lh))
  }

  /** `List.hashCode()` continued from `acc` over `xs`: `acc = 31 * acc + e.hashCode()`. */
  function ListHashCode<A>(acc: int, xs: seq<Desc<A>>, strHash: string -> int, ghost owner: Desc<A>): (r: Result<int, Error>)
    requires forall k :: 0 <= k < |xs| ==> xs[k] < owner
    ensures |xs| > 0 && r.Ok? ==> -0x8000_0000 <= r.value < 0x8000_0000
    decreases owner, 0, |xs|
  {
    if |xs| == 0 then Ok(acc)
    else match HashCode(xs[0], strHash)
      case Err(e) => Err(e)
      case Ok(h) => ListHashCode(Int32(31 * acc + h), xs[1..], strHash, owner)
  }

  /** The fully resolved shape of a descriptor: its type name and the shapes of
      its element descriptors. Equality and hashing are functions of this alone. */
  datatype Shape = Shape(name: string, children: seq<Shape>)

  /** Resolves a descriptor to its shape, visiting descriptors in the order
      `equals` and `hashCode` resolve them. */
  function ShapeOf<A>(d: Desc<A>): Result<Shape, Error>
    decreases d, 1, 0
  {
    match ElementDescriptors(d)
    case Err(e) => Err(e)
    case Ok(xs) =>
      match ShapesOf(xs, d)
      case Err(e) => Err(e)
      case Ok(cs) => Ok(Shape(d.name, cs))
  }

  function ShapesOf<A>(xs: seq<Desc<A>>, ghost owner: Desc<A>): (r: Result<seq<Shape>, Error>)
    requires forall k :: 0 <= k < |xs| ==> xs[k] < owner
    ensures r.Ok? ==> |r.value| == |xs|
    decreases owner, 0, |xs|
  {
    if |xs| == 0 then Ok([])
    else match ShapeOf(xs[0])
      case Err(e) => Err(e)
      case Ok(c) =>
        match ShapesOf(xs[1..], owner)
        case Err(e) => Err(e)
        case Ok(cs) => Ok([c] + cs)
  }

  /** The hash of a resolved shape, by the same arithmetic as `hashCode`. */
  function ShapeHash(s: Shape, strHash: string -> int): int
    decreases s
  {
    Int32(31 * strHash(s.name) + FoldHash(1, seq(|s.children|, i requires 0 <= i < |s.children| => ShapeHash(s.children[i], strHash))))
  }

  /** The hashes of a list of shapes. */
  function ShapeHashes(cs: seq<Shape>, strHash: string -> int): (hs: seq<int>)
    ensures |hs| == |cs|
    ensures forall i :: 0 <= i < |cs| ==> hs[i] == ShapeHash(cs[i], strHash)
  {
    seq(|cs|, i requires 0 <= i < |cs| => ShapeHash(cs[i], strHash))
  }

  /** `List.hashCode()` over element hashes `hs`, continued from `acc`. */
  function FoldHash(acc: int, hs: seq<int>): int
    decreases |hs|
  {
    if |hs| == 0 then acc else FoldHash(Int32(31 * acc + hs[0]), hs[1..])
  }

  // ---------------------------------------------------------------------------
  // The ghost owner passed to the list functions only serves termination.

  lemma {:induction false} ListEqualsAnyOwner<A>(xs: seq<Desc<A>>, ys: seq<Desc<A>>, o1: Desc<A>, o2: Desc<A>)
    requires forall k :: 0 <= k < |xs| ==> xs[k] < o1 && xs[k] < o2
    ensures ListEquals(xs, ys, o1) == ListEquals(xs, ys, o2)
    decreases |xs|
  {
    if |xs| == |ys| && |xs| > 0 {
      ListEqualsAnyOwner(xs[1..], ys[1..], o1, o2);
    }
  }

  lemma {:induction false} ListHashCodeAnyOwner<A>(acc: int, xs: seq<Desc<A>>, strHash: string -> int, o1: Desc<A>, o2: Desc<A>)
    requires forall k :: 0 <= k < |xs| ==> xs[k] < o1 && xs[k] < o2
    ensures ListHashCode(acc, xs, strHash, o1) == ListHashCode(acc, xs, strHash, o2)
    decreases |xs|
  {
    if |xs| > 0 && HashCode(xs[0], strHash).Ok? {
      ListHashCodeAnyOwner(Int32(31 * acc + HashCode(xs[0], strHash).value), xs[1..], strHash, o1, o2);
    }
  }

  lemma {:induction false} ShapesOfAnyOwner<A>(xs: seq<Desc<A>>, o1: Desc<A>, o2: Desc<A>)
    requires forall k :: 0 <= k < |xs| ==> xs[k] < o1 && xs[k] < o2
    ensures ShapesOf(xs, o1) == ShapesOf(xs, o2)
    decreases |xs|
  {
    if |xs| > 0 {
      ShapesOfAnyOwner(xs[1..], o1, o2);
    }
  }

  // ---------------------------------------------------------------------------
  // Hashing agrees with the resolved shape.

  /** `hashCode` fails exactly where resolving the shape fails, with the same
      error, and otherwise is the hash of the shape. */
  lemma {:induction false} HashMatchesShape<A>(d: Desc<A>, strHash: string -> int)
    ensures ShapeOf(d).Err? ==> HashCode(d, strHash) == Err(ShapeOf(d).error)
    ensures ShapeOf(d).Ok? ==> HashCode(d, strHash) == Ok(ShapeHash(ShapeOf(d).value, strHash))
    decreases d, 1, 0
  {
    var eds := ElementDescriptors(d);
    if eds.Ok? {
      ListHashMatchesShapes(1, eds.value, strHash, d);
      if ShapeOf(d).Ok? {
        var s := ShapeOf(d).value;
        assert ShapeHashes(s.children, strHash)
            == seq(|s.children|, i requires 0 <= i < |s.children| => ShapeHash(s.children[i], strHash));
      }
    }
  }

  lemma {:induction false} ListHashMatchesShapes<A>(acc: int, xs: seq<Desc<A>>, strHash: string -> int, owner: Desc<A>)
    requires forall k :: 0 <= k < |xs| ==> xs[k] < owner
    ensures ShapesOf(xs, owner).Err? ==> ListHashCode(acc, xs, strHash, owner) == Err(ShapesOf(xs, owner).error)
    ensures ShapesOf(xs, owner).Ok? ==>
      ListHashCode(acc, xs, strHash, owner) == Ok(FoldHash(acc, ShapeHashes(ShapesOf(xs, owner).value, strHash)))
    decreases owner, 0, |xs|
  {
    if |xs| > 0 {
      var s0 := ShapeOf(xs[0]);
      HashMatchesShape(xs[0], strHash);
      if s0.Ok? {
        var acc' := Int32(31 * acc + ShapeHash(s0.value, strHash));
        ListHashMatchesShapes(acc', xs[1..], strHash, owner);
        var rest := ShapesOf(xs[1..], owner);
        if rest.Ok? {
          FoldHashCons(acc, s0.value, rest.value, strHash);
        }
      }
    }
  }

  /** Folding the hashes of `[c] + cs` first folds in the hash of `c`. */
  lemma {:induction false} FoldHashCons(acc: int, c: Shape, cs: seq<Shape>, strHash: string -> int)
    ensures FoldHash(acc, ShapeHashes([c] + cs, strHash))
         == FoldHash(Int32(31 * acc + ShapeHash(c, strHash)), ShapeHashes(cs, strHash))
  {
    var hs := ShapeHashes([c] + cs, strHash);
    assert hs[1..] == ShapeHashes(cs, strHash);
  }

  // ---------------------------------------------------------------------------
  // Equality agrees with the resolved shape.

  /** Between fully resolvable descriptors, `equals` is equality of shapes. */
  lemma {:induction false} EqualsMatchesShape<A>(a: Desc<A>, b: Desc<A>)
    requires ShapeOf(a).Ok? && ShapeOf(b).Ok?
    ensures Equals(a, b) == Ok(ShapeOf(a).value == ShapeOf(b).value)
    decreases a, 1, 0
  {
    if a.name == b.name {
      var xs := ElementDescriptors(a).value;
      var ys := ElementDescriptors(b).value;
      ListEqualsMatchesShapes(xs, ys, a, b);
    }
  }

  lemma {:induction false} ListEqualsMatchesShapes<A>(xs: seq<Desc<A>>, ys: seq<Desc<A>>, oa: Desc<A>, ob: Desc<A>)
    requires forall k :: 0 <= k < |xs| ==> xs[k] < oa
    requires forall k :: 0 <= k < |ys| ==> ys[k] < ob
    requires ShapesOf(xs, oa).Ok? && ShapesOf(ys, ob).Ok?
    ensures ListEquals(xs, ys, oa) == Ok(ShapesOf(xs, oa).value == ShapesOf(ys, ob).value)
    decreases oa, 0, |xs|
  {
    if |xs| == |ys| && |xs| > 0 {
      EqualsMatchesShape(xs[0], ys[0]);
      ListEqualsMatchesShapes(xs[1..], ys[1..], oa, ob);
      var cs := ShapesOf(xs, oa).value;
      var ds := ShapesOf(ys, ob).value;
      assert cs == [cs[0]] + cs[1..] && ds == [ds[0]] + ds[1..];
    }
  }

  /** `equals` answers `true` only after resolving both descriptors completely,
      and only when their shapes agree. */
  lemma {:induction false} EqualsTrueResolves<A>(a: Desc<A>, b: Desc<A>)
    requires Equals(a, b) == Ok(true)
    ensures ShapeOf(a).Ok? && ShapeOf(b).Ok? && ShapeOf(a) == ShapeOf(b)
    decreases a, 1, 0
  {
    var xs := ElementDescriptors(a).value;
    var ys := ElementDescriptors(b).value;
    ListEqualsTrueResolves(xs, ys, a, b);
  }

  lemma {:induction false} ListEqualsTrueResolves<A>(xs: seq<Desc<A>>, ys: seq<Desc<A>>, oa: Desc<A>, ob: Desc<A>)
    requires forall k :: 0 <= k < |xs| ==> xs[k] < oa
    requires forall k :: 0 <= k < |ys| ==> ys[k] < ob
    requires ListEquals(xs, ys, oa) == Ok(true)
    ensures ShapesOf(xs, oa).Ok? && ShapesOf(ys, ob).Ok? && ShapesOf(xs, oa) == ShapesOf(ys, ob)
    decreases oa, 0, |xs|
  {
    if |xs| > 0 {
      EqualsTrueResolves(xs[0], ys[0]);
      ListEqualsTrueResolves(xs[1..], ys[1..], oa, ob);
    }
  }

  // ---------------------------------------------------------------------------
  // The equality and hashing contract.

  /** Equal descriptors have equal hash codes, and hashing them does not fail. */
  lemma {:induction false} HashConsistentWithEquals<A>(a: Desc<A>, b: Desc<A>, strHash: string -> int)
    requires Equals(a, b) == Ok(true)
    ensures HashCode(a, strHash).Ok?
    ensures HashCode(a, strHash) == HashCode(b, strHash)
  {
    EqualsTrueResolves(a, b);
    HashMatchesShape(a, strHash);
    HashMatchesShape(b, strHash);
  }

  /** A fully resolvable descriptor equals itself. */
  lemma {:induction false} EqualsReflexive<A>(a: Desc<A>)
    requires ShapeOf(a).Ok?
    ensures Equals(a, a) == Ok(true)
  {
    EqualsMatchesShape(a, a);
  }

  /** Between fully resolvable descriptors, `equals` is symmetric. */
  lemma {:induction false} EqualsSymmetric<A>(a: Desc<A>, b: Desc<A>)
    requires ShapeOf(a).Ok? && ShapeOf(b).Ok?
    ensures Equals(a, b) == Equals(b, a)
  {
    EqualsMatchesShape(a, b);
    EqualsMatchesShape(b, a);
  }

  /** `equals` is transitive. */
  lemma {:induction false} EqualsTransitive<A>(a: Desc<A>, b: Desc<A>, c: Desc<A>)
    requires Equals(a, b) == Ok(true) && Equals(b, c) == Ok(true)
    ensures Equals(a, c) == Ok(true)
  {
    EqualsTrueResolves(a, b);
    EqualsTrueResolves(b, c);
    EqualsMatchesShape(a, c);
  }

  // ---------------------------------------------------------------------------
  // What equality and hashing ignore.

  /** `a` and `b` agree on everything `getElementDescriptor` and `elementsCount`
      read; they may differ in flags, element and class annotations, and the name cache. */
  ghost predicate SameIdentity<A>(a: Desc<A>, b: Desc<A>) {
    && a.name == b.name
    && a.names == b.names
    && a.generated == b.generated
    && a.descriptors == b.descriptors
    && ElementsCount(a) == ElementsCount(b)
  }

  lemma {:induction false} ResolvePrefixSameIdentity<A>(a: Desc<A>, b: Desc<A>, n: nat)
    requires SameIdentity(a, b) && n <= ElementsCount(a)
    ensures ResolvePrefix(a, n) == ResolvePrefix(b, n)
  {
    if n > 0 {
      ResolvePrefixSameIdentity(a, b, n - 1);
    }
  }

  /** Descriptors with the same identity resolve to the same element descriptors. */
  lemma {:induction false} SameIdentityResolvesAlike<A>(a: Desc<A>, b: Desc<A>)
    requires SameIdentity(a, b)
    ensures ElementDescriptors(a) == ElementDescriptors(b)
    ensures ElementDescriptors(a).Ok? ==>
      forall k :: 0 <= k < |ElementDescriptors(a).value| ==> ElementDescriptors(a).value[k] < b
  {
    ResolvePrefixSameIdentity(a, b, ElementsCount(a));
  }

  /** Descriptors that differ only in flags, annotations or the name cache
      compare and hash alike, against any third descriptor. */
  lemma {:induction false} IdentityIgnoresFlagsAndAnnotations<A>(a: Desc<A>, b: Desc<A>, c: Desc<A>, strHash: string -> int)
    requires SameIdentity(a, b)
    ensures Equals(a, c) == Equals(b, c)
    ensures Equals(c, a) == Equals(c, b)
    ensures HashCode(a, strHash) == HashCode(b, strHash)
    ensures ShapeOf(a) == ShapeOf(b)
  {
    SameIdentityResolvesAlike(a, b);
    var r := ElementDescriptors(a);
    if r.Ok? {
      var xs := r.value;
      var rc := ElementDescriptors(c);
      if rc.Ok? {
        ListEqualsAnyOwner(xs, rc.value, a, b);
      }
      ListHashCodeAnyOwner(1, xs, strHash, a, b);
      ShapesOfAnyOwner(xs, a, b);
    }
  }

  /** `pushAnnotation` changes neither equality nor hash. */
  lemma {:induction false} PushAnnotationKeepsIdentity<A>(d: Desc<A>, x: A, c: Desc<A>, strHash: string -> int)
    requires PushAnnotation(d, x).Ok?
    ensures Equals(PushAnnotation(d, x).value, c) == Equals(d, c)
    ensures HashCode(PushAnnotation(d, x).value, strHash) == HashCode(d, strHash)
  {
    IdentityIgnoresFlagsAndAnnotations(PushAnnotation(d, x).value, d, c, strHash);
  }

  /** `pushClassAnnotation` changes neither equality nor hash. */
  lemma {:induction false} PushClassAnnotationKeepsIdentity<A>(d: Desc<A>, x: A, c: Desc<A>, strHash: string -> int)
    ensures Equals(PushClassAnnotation(d, x), c) == Equals(d, c)
    ensures HashCode(PushClassAnnotation(d, x), strHash) == HashCode(d, strHash)
  {
    IdentityIgnoresFlagsAndAnnotations(PushClassAnnotation(d, x), d, c, strHash);
  }

  /** Two descriptors built from the same element names but with different
      optional flags are equal whenever either is fully resolvable. */
  lemma {:induction false} FlagsDoNotAffectEquality<A>(d: Desc<A>, flags: seq<bool>, strHash: string -> int)
    requires ShapeOf(d).Ok?
    ensures Equals(d.(flags := flags), d) == Ok(true)
    ensures HashCode(d.(flags := flags), strHash) == HashCode(d, strHash)
  {
    IdentityIgnoresFlagsAndAnnotations(d.(flags := flags), d, d, strHash);
    EqualsReflexive(d);
  }
}
