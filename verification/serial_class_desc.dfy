/** The runtime descriptor of a class-like serializable type: the element list
    built by `addElement`/`push*` calls, and the index- and name-based queries
    encoders and decoders make of it afterwards. */
module SerialClassDesc {
  import opened Wrappers

  /** `CompositeDecoder.UNKNOWN_NAME`: the index returned for a name that is not an element. */
  const UnknownName: int := -3

  /** Capacity of the `BooleanArray` a fresh descriptor starts with. */
  const InitialCapacity: nat := 4

  /** The failures the descriptor raises. */
  datatype Error =
    /** `MissingDescriptorException`: no child descriptor for `index`; the
        origin is named by what its `toString` shows, its type name and element names. */
    | MissingDescriptor(index: int, originName: string, originElements: seq<string>)
    /** An index outside a list or an array (`IndexOutOfBoundsException`). */
    | IndexOutOfBounds(index: int)
    /** `last()` on an empty list (`NoSuchElementException`). */
    | EmptyList

  /** The optional `GeneratedSerializer` a descriptor is built with, seen only
      through the descriptors of its `childSerializers()`. */
  datatype GeneratedSerializer<A> = NoSerializer | Serializer(childDescriptors: seq<Desc<A>>)

  /** One descriptor. `A` stands for the annotation type, opaque here.
      - `generated`: the generated serializer, or `NoSerializer` when there is none;
      - `flags`: the whole backing `BooleanArray`, so `|flags|` is its capacity;
      - `indices`: the lazily built name-to-index map, `None` until the first lookup. */
  datatype Desc<A> = Desc(
    name: string,
    generated: GeneratedSerializer<A>,
    names: seq<string>,
    annotations: seq<seq<A>>,
    classAnnotations: seq<A>,
    flags: seq<bool>,
    descriptors: seq<Desc<A>>,
    indices: Option<map<string, int>>)

  /** The invariant every descriptor built through this API keeps: names and
      annotation lists are aligned, the flag array covers every element, its
      unused tail is `false`, and its capacity is the initial one or at most
      `2 * (count - 1)`, since it doubles only when an add finds it full. */
  ghost predicate Valid<A>(d: Desc<A>) {
    && |d.names| == |d.annotations| <= |d.flags|
    && |d.flags| >= InitialCapacity
    && (|d.flags| == InitialCapacity || |d.flags| <= 2 * (|d.names| - 1))
    && (forall i :: |d.names| <= i < |d.flags| ==> !d.flags[i])
  }

  /** The cached name map, when there is one, reflects the current element names. */
  ghost predicate CacheCoherent<A>(d: Desc<A>) {
    d.indices.Some? ==> d.indices.value == BuildIndices(d.names)
  }

  /** `i` is the position of the last occurrence of `n` in `names`. */
  ghost predicate IsLastIndex(names: seq<string>, n: string, i: int) {
    && 0 <= i < |names|
    && names[i] == n
    && forall j :: i < j < |names| ==> names[j] != n
  }

  /** The contents of a fresh `BooleanArray(n)`: `n` times `false`. */
  function Falses(n: nat): (r: seq<bool>)
    ensures |r| == n
    ensures forall k :: 0 <= k < n ==> !r[k]
  {
    if n == 0 then [] else Falses(n - 1) + [false]
  }

  /** The constructor: a type name and an optional generated serializer. */
  function New<A>(name: string, generated: GeneratedSerializer<A> := NoSerializer): (d: Desc<A>)
    ensures Valid(d)
    ensures d.indices == None
    ensures d.name == name && d.generated == generated
    ensures ElementsCount(d) == 0 && d.classAnnotations == [] && d.descriptors == []
    ensures |d.flags| == InitialCapacity
  {
    Desc(name, generated, [], [], [], Falses(InitialCapacity), [], None)
  }

  /** `elementsCount`, which the source reads off the annotation list. */
  function ElementsCount<A>(d: Desc<A>): nat {
    |d.annotations|
  }

  /** `elementsCount` reads the annotation list, yet on a valid descriptor it
      is the number of element names. */
  lemma ElementsCountIsNameCount<A>(d: Desc<A>)
    requires Valid(d)
    ensures ElementsCount(d) == |d.names|
    ensures forall i :: 0 <= i < ElementsCount(d) ==> GetElementName(d, i).Ok? && GetElementAnnotations(d, i).Ok?
  {
  }

  /** `ensureFlagsCapacity(i)`: doubles the flag array when index `i` does not
      fit, copying the old flags and padding with `false`. */
  function EnsureFlagsCapacity(flags: seq<bool>, i: int): (r: seq<bool>)
    ensures |flags| <= i ==> |r| == 2 * |flags|
    ensures |flags| > i ==> r == flags
    ensures 1 <= |flags| && i <= |flags| ==> |r| > i
    ensures |r| >= |flags| && forall k :: 0 <= k < |flags| ==> r[k] == flags[k]
    ensures forall k :: |flags| <= k < |r| ==> !r[k]
  {
    if |flags| <= i then flags + Falses(|flags|) else flags
  }

  /** `addElement(name, isOptional)`. */
  function AddElement<A>(d: Desc<A>, name: string, isOptional: bool := false): (r: Desc<A>)
    requires Valid(d)
    ensures Valid(r)
    ensures ElementsCount(r) == ElementsCount(d) + 1
    ensures r.names == d.names + [name]
    ensures r.annotations == d.annotations + [[]]
    ensures r.flags[ElementsCount(d)] == isOptional
    ensures forall i :: 0 <= i < ElementsCount(d) ==> r.flags[i] == d.flags[i]
    ensures r.name == d.name && r.generated == d.generated && r.indices == d.indices
    ensures r.classAnnotations == d.classAnnotations && r.descriptors == d.descriptors
  {
    var names := d.names + [name];
    var idx := |names| - 1;
    var flags := EnsureFlagsCapacity(d.flags, idx);
    d.(names := names, flags := flags[idx := isOptional], annotations := d.annotations + [[]])
  }

  /** `pushAnnotation(a)`: attaches `a` to the most recently added element;
      fails like `last()` on an empty list when there is none. */
  function PushAnnotation<A>(d: Desc<A>, a: A): (r: Result<Desc<A>, Error>)
    ensures r.Err? <==> ElementsCount(d) == 0
    ensures r.Err? ==> r.error == EmptyList
    ensures r.Ok? ==> var n := ElementsCount(d);
      && ElementsCount(r.value) == n
      && r.value.annotations[n - 1] == d.annotations[n - 1] + [a]
      && (forall j :: 0 <= j < n - 1 ==> r.value.annotations[j] == d.annotations[j])
      && r.value == d.(annotations := r.value.annotations)
  {
    if |d.annotations| == 0 then Err(EmptyList)
    else
      var last := |d.annotations| - 1;
      Ok(d.(annotations := d.annotations[last := d.annotations[last] + [a]]))
  }

  /** `pushDescriptor(desc)`: appends an explicit child descriptor. */
  function PushDescriptor<A>(d: Desc<A>, child: Desc<A>): (r: Desc<A>)
    ensures r.descriptors == d.descriptors + [child]
    ensures r == d.(descriptors := r.descriptors)
  {
    d.(descriptors := d.descriptors + [child])
  }

  /** `pushClassAnnotation(a)`: appends a type-level annotation. */
  function PushClassAnnotation<A>(d: Desc<A>, a: A): (r: Desc<A>)
    ensures r.classAnnotations == d.classAnnotations + [a]
    ensures r == d.(classAnnotations := r.classAnnotations)
  {
    d.(classAnnotations := d.classAnnotations + [a])
  }

  /** `getEntityAnnotations()`: the type-level annotations in push order. */
  function GetEntityAnnotations<A>(d: Desc<A>): (r: seq<A>)
    ensures |r| == |d.classAnnotations|
    ensures forall i :: 0 <= i < |r| ==> r[i] == d.classAnnotations[i]
  {
    d.classAnnotations
  }

  /** `getElementAnnotations(index)`. */
  function GetElementAnnotations<A>(d: Desc<A>, index: int): (r: Result<seq<A>, Error>)
    ensures r.Ok? <==> 0 <= index < ElementsCount(d)
    ensures r.Ok? ==> r.value == d.annotations[index]
    ensures r.Err? ==> r.error == IndexOutOfBounds(index)
  {
    if 0 <= index < |d.annotations| then Ok(d.annotations[index]) else Err(IndexOutOfBounds(index))
  }

  /** `getElementName(index)`. */
  function GetElementName<A>(d: Desc<A>, index: int): (r: Result<string, Error>)
    ensures r.Ok? <==> 0 <= index < |d.names|
    ensures r.Ok? ==> r.value == d.names[index]
    ensures r.Err? ==> r.error == IndexOutOfBounds(index)
  {
    if 0 <= index < |d.names| then Ok(d.names[index]) else Err(IndexOutOfBounds(index))
  }

  /** `isElementOptional(index)`: reads the raw flag array, so an index past the
      last element but inside the array's capacity answers `false` instead of failing. */
  function IsElementOptional<A>(d: Desc<A>, index: int): (r: Result<bool, Error>)
    requires Valid(d)
    ensures r.Ok? <==> 0 <= index < |d.flags|
    ensures 0 <= index < ElementsCount(d) ==> r == Ok(d.flags[index])
    ensures ElementsCount(d) <= index < |d.flags| ==> r == Ok(false)
    ensures r.Err? ==> r.error == IndexOutOfBounds(index)
  {
    if 0 <= index < |d.flags| then Ok(d.flags[index]) else Err(IndexOutOfBounds(index))
  }

  /** `buildIndices()`: puts `names[i] -> i` for `i` ascending, so a later
      occurrence of a name overwrites an earlier one. */
  function BuildIndices(names: seq<string>): (m: map<string, int>)
    ensures m.Keys == set i | 0 <= i < |names| :: names[i]
    ensures forall n :: n in m ==> IsLastIndex(names, n, m[n])
  {
    if |names| == 0 then map[]
    else
      var prefix := names[..|names| - 1];
      assert forall i :: 0 <= i < |prefix| ==> prefix[i] == names[i];
      BuildIndices(prefix)[names[|names| - 1] := |names| - 1]
  }

  /** `getElementIndex(name)`: consults the name map, building and caching it
      on the first lookup. Returns the index and the descriptor with its cache filled. */
  function GetElementIndex<A>(d: Desc<A>, name: string): (r: (int, Desc<A>))
    ensures CacheCoherent(d) ==>
      && (r.0 == UnknownName <==> name !in d.names)
      && (name in d.names ==> IsLastIndex(d.names, name, r.0))
    ensures r.1.indices.Some?
    ensures CacheCoherent(d) ==> CacheCoherent(r.1)
    ensures d.indices.Some? ==> r.1 == d
    ensures r.1 == d.(indices := r.1.indices)
  {
    var idx := if d.indices.Some? then d.indices.value else BuildIndices(d.names);
    var cached := d.(indices := Some(idx));
    assert CacheCoherent(d) && name in d.names ==> name in idx by {
      if CacheCoherent(d) && name in d.names {
        var i :| 0 <= i < |d.names| && d.names[i] == name;
        assert d.names[i] in idx;
      }
    }
    (if name in idx then idx[name] else UnknownName, cached)
  }

  /** `getElementDescriptor(index)`: the generated serializer's child descriptor
      when there is one at `index`, otherwise the explicitly pushed one, otherwise
      `MissingDescriptorException`. */
  function GetElementDescriptor<A>(d: Desc<A>, index: int): (r: Result<Desc<A>, Error>)
    ensures d.generated.Serializer? && 0 <= index < |d.generated.childDescriptors| ==>
      r == Ok(d.generated.childDescriptors[index])
    ensures !(0 <= index < GeneratedCount(d)) && 0 <= index < |d.descriptors| ==>
      r == Ok(d.descriptors[index])
    ensures r.Err? <==> !(0 <= index < GeneratedCount(d)) && !(0 <= index < |d.descriptors|)
    ensures r.Err? ==> r.error == MissingDescriptor(index, d.name, d.names)
    ensures r.Ok? ==> r.value < d
  {
    if d.generated.Serializer? && 0 <= index < |d.generated.childDescriptors| then
      Ok(d.generated.childDescriptors[index])
    else if 0 <= index < |d.descriptors| then Ok(d.descriptors[index])
    else Err(MissingDescriptor(index, d.name, d.names))
  }

  /** How many child descriptors the generated serializer supplies (none without one). */
  function GeneratedCount<A>(d: Desc<A>): nat {
    if d.generated.Serializer? then |d.generated.childDescriptors| else 0
  }
}
