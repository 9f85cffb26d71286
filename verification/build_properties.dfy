/** Properties of whole build phases: a descriptor made by `addElement` and
    `push*` calls, then queried by index and by name. */
module BuildProperties {
  import opened Wrappers
  import opened SerialClassDesc
  import DescIdentity

  /** One `addElement(name, isOptional)` call. */
  datatype ElementSpec = ElementSpec(name: string, isOptional: bool)

  /** The names of the element specs from position `i` on, in order. */
  function SpecNamesFrom(es: seq<ElementSpec>, i: nat): (ns: seq<string>)
    requires i <= |es|
    ensures |ns| == |es| - i
    ensures forall j :: i <= j < |es| ==> ns[j - i] == es[j].name
    decreases |es| - i
  {
    if i == |es| then [] else [es[i].name] + SpecNamesFrom(es, i + 1)
  }

  /** The names of a list of element specs, in order. */
  function SpecNames(es: seq<ElementSpec>): (ns: seq<string>)
    ensures |ns| == |es|
    ensures forall i :: 0 <= i < |es| ==> ns[i] == es[i].name
  {
    SpecNamesFrom(es, 0)
  }

  lemma {:induction false} AppendAssociative<T>(a: seq<T>, b: seq<T>, c: seq<T>)
    ensures (a + b) + c == a + (b + c)
  {
  }

  /** `addElement` called once per spec from position `i` on, in order. */
  function AddFrom<A>(d: Desc<A>, es: seq<ElementSpec>, i: nat): (r: Desc<A>)
    requires Valid(d) && i <= |es|
    ensures Valid(r)
    ensures ElementsCount(r) == ElementsCount(d) + (|es| - i)
    decreases |es| - i
  {
    if i == |es| then d else AddFrom(AddElement(d, es[i].name, es[i].isOptional), es, i + 1)
  }

  /** The calls from position `i` on append their names in call order and touch
      nothing but the element lists. */
  lemma {:induction false} AddFromNames<A>(d: Desc<A>, es: seq<ElementSpec>, i: nat)
    requires Valid(d) && i <= |es|
    ensures AddFrom(d, es, i).names == d.names + SpecNamesFrom(es, i)
    ensures var r := AddFrom(d, es, i);
      r.name == d.name && r.generated == d.generated && r.indices == d.indices
    ensures var r := AddFrom(d, es, i);
      r.classAnnotations == d.classAnnotations && r.descriptors == d.descriptors
    decreases |es| - i
  {
    if i < |es| {
      var d' := AddElement(d, es[i].name, es[i].isOptional);
      AddFromNames(d', es, i + 1);
      AppendAssociative(d.names, [es[i].name], SpecNamesFrom(es, i + 1));
    }
  }

  /** `addElement` called once per spec, in order. */
  function AddAll<A>(d: Desc<A>, es: seq<ElementSpec>): (r: Desc<A>)
    requires Valid(d)
    ensures Valid(r)
    ensures ElementsCount(r) == ElementsCount(d) + |es|
    ensures r.names == d.names + SpecNames(es)
    ensures r.name == d.name && r.generated == d.generated && r.indices == d.indices
    ensures r.classAnnotations == d.classAnnotations && r.descriptors == d.descriptors
  {
    AddFromNames(d, es, 0);
    AddFrom(d, es, 0)
  }

  /** The calls from position `i` on leave the flags and annotations of the elements already there alone. */
  lemma {:induction false} AddFromKeepsEarlierElements<A>(d: Desc<A>, es: seq<ElementSpec>, i: nat, j: int)
    requires Valid(d) && i <= |es| && 0 <= j < ElementsCount(d)
    ensures AddFrom(d, es, i).flags[j] == d.flags[j]
    ensures AddFrom(d, es, i).annotations[j] == d.annotations[j]
    decreases |es| - i
  {
    if i < |es| {
      AddFromKeepsEarlierElements(AddElement(d, es[i].name, es[i].isOptional), es, i + 1, j);
    }
  }

  /** A build phase leaves the flags and annotations of earlier elements alone. */
  lemma {:induction false} AddAllKeepsEarlierElements<A>(d: Desc<A>, es: seq<ElementSpec>, i: int)
    requires Valid(d) && 0 <= i < ElementsCount(d)
    ensures AddAll(d, es).flags[i] == d.flags[i]
    ensures AddAll(d, es).annotations[i] == d.annotations[i]
  {
    AddFromKeepsEarlierElements(d, es, 0, i);
  }

  /** The call at position `k` adds an element, `k - i` places after the
      elements already there, with the flag of that call and no annotations. */
  lemma {:induction false} AddFromNewElements<A>(d: Desc<A>, es: seq<ElementSpec>, i: nat, k: int)
    requires Valid(d) && i <= k < |es|
    ensures AddFrom(d, es, i).flags[ElementsCount(d) + (k - i)] == es[k].isOptional
    ensures AddFrom(d, es, i).annotations[ElementsCount(d) + (k - i)] == []
    decreases |es| - i
  {
    var d' := AddElement(d, es[i].name, es[i].isOptional);
    var n := ElementsCount(d);
    assert AddFrom(d, es, i) == AddFrom(d', es, i + 1);
    if i == k {
      assert d'.flags[n] == es[k].isOptional && d'.annotations[n] == [];
      AddFromKeepsEarlierElements(d', es, i + 1, n);
    } else {
      assert ElementsCount(d') == n + 1;
      AddFromNewElements(d', es, i + 1, k);
    }
  }

  /** Each element added in a build phase carries the flag of its call and no annotations. */
  lemma {:induction false} AddAllNewElements<A>(d: Desc<A>, es: seq<ElementSpec>, k: int)
    requires Valid(d) && 0 <= k < |es|
    ensures AddAll(d, es).flags[ElementsCount(d) + k] == es[k].isOptional
    ensures AddAll(d, es).annotations[ElementsCount(d) + k] == []
  {
    AddFromNewElements(d, es, 0, k);
  }

  /** After a build phase from a fresh descriptor, element `i` has the name and
      the optional flag of the `i`-th `addElement` call and no annotations. */
  lemma {:induction false} BuildFromFresh<A>(typeName: string, es: seq<ElementSpec>, i: int)
    requires 0 <= i < |es|
    ensures var d := AddAll(New<A>(typeName), es);
      && ElementsCount(d) == |es|
      && GetElementName(d, i) == Ok(es[i].name)
      && IsElementOptional(d, i) == Ok(es[i].isOptional)
      && GetElementAnnotations(d, i) == Ok([])
  {
    var start := New<A>(typeName);
    var d := AddAll(start, es);
    AddAllNewElements(start, es, i);
    assert ElementsCount(start) == 0;
    assert d.flags[i] == es[i].isOptional && d.annotations[i] == [];
    assert d.names[i] == es[i].name;
  }

  /** `addElement(name)` without a flag adds a required element. */
  lemma {:induction false} AddElementDefaultsToRequired<A>(d: Desc<A>, name: string)
    requires Valid(d)
    ensures IsElementOptional(AddElement(d, name), ElementsCount(d)) == Ok(false)
    ensures GetElementName(AddElement(d, name), ElementsCount(d)) == Ok(name)
  {
  }

  // ---------------------------------------------------------------------------
  // Name lookup.

  /** No element name occurs twice. */
  ghost predicate UniqueNames(names: seq<string>) {
    forall i, j :: 0 <= i < j < |names| ==> names[i] != names[j]
  }

  /** With unique names, looking up element `i`'s name gives back `i`. */
  lemma {:induction false} ElementIndexOfElementName<A>(d: Desc<A>, i: int)
    requires CacheCoherent(d) && UniqueNames(d.names)
    requires 0 <= i < |d.names|
    ensures GetElementIndex(d, d.names[i]).0 == i
  {
  }

  /** A duplicated name resolves to its last position. */
  lemma {:induction false} DuplicateNameResolvesToLast<A>(d: Desc<A>, name: string, i: int, j: int)
    requires CacheCoherent(d)
    requires 0 <= i < j < |d.names| && d.names[i] == name && d.names[j] == name
    requires forall k :: j < k < |d.names| ==> d.names[k] != name
    ensures GetElementIndex(d, name).0 == j
    ensures GetElementIndex(d, name).0 != i
  {
  }

  /** The name map is built once: a second lookup answers from the cache of the first. */
  lemma {:induction false} LookupCachesOnce<A>(d: Desc<A>, n1: string, n2: string)
    requires CacheCoherent(d)
    ensures var d1 := GetElementIndex(d, n1).1;
      && d1.indices == Some(SerialClassDesc.BuildIndices(d.names))
      && GetElementIndex(d1, n2) == (GetElementIndex(d, n2).0, d1)
  {
  }

  /** The lifecycle hazard of the lazily built map: an element added after the first lookup
      is not in the cached map, so its name reads as unknown. */
  lemma {:induction false} StaleCacheAfterLateAdd<A>(d: Desc<A>, lookedUp: string, late: string)
    requires Valid(d) && CacheCoherent(d)
    requires late !in d.names
    ensures var sealed := GetElementIndex(d, lookedUp).1;
      var grown := AddElement(sealed, late);
      && GetElementName(grown, ElementsCount(d)) == Ok(late)
      && GetElementIndex(grown, late).0 == UnknownName
  {
  }

  // ---------------------------------------------------------------------------
  // Class annotations.

  /** `pushClassAnnotation` calls, in order. */
  function PushClassAnnotations<A>(d: Desc<A>, xs: seq<A>): (r: Desc<A>)
    decreases |xs|
  {
    if |xs| == 0 then d else PushClassAnnotations(PushClassAnnotation(d, xs[0]), xs[1..])
  }

  /** The type-level annotations read back are the pushed ones, in push order,
      after those already present; nothing else changes. */
  lemma {:induction false} EntityAnnotationsInCallOrder<A>(d: Desc<A>, xs: seq<A>)
    ensures GetEntityAnnotations(PushClassAnnotations(d, xs)) == GetEntityAnnotations(d) + xs
    ensures PushClassAnnotations(d, xs) == d.(classAnnotations := d.classAnnotations + xs)
    decreases |xs|
  {
    if |xs| > 0 {
      EntityAnnotationsInCallOrder(PushClassAnnotation(d, xs[0]), xs[1..]);
      assert d.classAnnotations + [xs[0]] + xs[1..] == d.classAnnotations + xs;
    }
  }

  // ---------------------------------------------------------------------------
  // Child-descriptor resolution.

  /** `pushDescriptor` calls, in order. */
  function PushAll<A>(d: Desc<A>, cs: seq<Desc<A>>): (r: Desc<A>)
    ensures r.descriptors == d.descriptors + cs
    ensures r == d.(descriptors := r.descriptors)
    decreases |cs|
  {
    if |cs| == 0 then d
    else
      var r := PushAll(PushDescriptor(d, cs[0]), cs[1..]);
      assert d.descriptors + cs == d.descriptors + [cs[0]] + cs[1..];
      r
  }

  /** Without a generated serializer, the `i`-th pushed descriptor is the
      descriptor of element `i`, and an index with nothing pushed is missing. */
  lemma {:induction false} PushedDescriptorsResolveInOrder<A>(typeName: string, cs: seq<Desc<A>>, i: int)
    ensures var d := PushAll(New<A>(typeName), cs);
      && (0 <= i < |cs| ==> GetElementDescriptor(d, i) == Ok(cs[i]))
      && (!(0 <= i < |cs|) ==> GetElementDescriptor(d, i) == Err(MissingDescriptor(i, typeName, [])))
  {
  }

  /** The generated serializer takes precedence over a pushed descriptor at the same index. */
  lemma {:induction false} GeneratedTakesPrecedence<A>(typeName: string, gen: seq<Desc<A>>, cs: seq<Desc<A>>, i: int)
    requires 0 <= i < |gen|
    ensures GetElementDescriptor(PushAll(New<A>(typeName, Serializer(gen)), cs), i) == Ok(gen[i])
  {
  }

  /** Every element's descriptor resolves exactly when the generated serializer
      or the pushed list reaches as far as the element count. */
  lemma {:induction false} ElementDescriptorsResolve<A>(d: Desc<A>)
    ensures DescIdentity.ElementDescriptors(d).Ok? <==>
      ElementsCount(d) <= GeneratedCount(d) || ElementsCount(d) <= |d.descriptors|
  {
  }
}
