/** The mutable descriptor as the source keeps it: lists that grow by appends,
    a `BooleanArray` of flags that doubles when full, and a name map built on
    the first lookup. Every operation is proved to act on `Model()` as the
    corresponding function of `SerialClassDesc` does. */
module DescBuilder {
  import opened Wrappers
  import opened SerialClassDesc

  /** `flags.copyOf(n)`: the first `n` flags of `a`, padded with `false`. */
  method CopyOf(a: array<bool>, n: nat) returns (b: array<bool>)
    ensures fresh(b)
    ensures b.Length == n
    ensures forall k :: 0 <= k < n ==> b[k] == (k < a.Length && a[k])
  {
    b := new bool[n];
    var k := 0;
    while k < n
      invariant 0 <= k <= n
      invariant forall j :: 0 <= j < k ==> b[j] == (j < a.Length && a[j])
    {
      b[k] := k < a.Length && a[k];
      k := k + 1;
    }
  }

  /** `buildIndices()` as the source writes it: one `put(names[i], i)` per
      element, in ascending order. */
  method BuildIndicesLoop(names: seq<string>) returns (m: map<string, int>)
    ensures m == BuildIndices(names)
    ensures forall n :: n in m ==> IsLastIndex(names, n, m[n])
  {
    m := map[];
    var i := 0;
    while i < |names|
      invariant 0 <= i <= |names|
      invariant m == BuildIndices(names[..i])
    {
      assert names[..i + 1][..i] == names[..i];
      m := m[names[i] := i];
      i := i + 1;
    }
    assert names[..i] == names;
  }

  class Builder<A> {
    const name: string
    const generated: GeneratedSerializer<A>
    var names: seq<string>
    var annotations: seq<seq<A>>
    var classAnnotations: seq<A>
    var flags: array<bool>
    var descriptors: seq<Desc<A>>
    var indices: Option<map<string, int>>

    /** The descriptor value this object currently stands for. */
    ghost function Model(): Desc<A>
      reads this, flags
    {
      Desc(name, generated, names, annotations, classAnnotations, flags[..], descriptors, indices)
    }

    ghost predicate Valid()
      reads this, flags
    {
      SerialClassDesc.Valid(Model())
    }

    constructor(name: string, generated: GeneratedSerializer<A> := NoSerializer)
      ensures Valid()
      ensures fresh(flags)
      ensures Model() == New(name, generated)
    {
      this.name := name;
      this.generated := generated;
      names := [];
      annotations := [];
      classAnnotations := [];
      flags := new bool[InitialCapacity](_ => false);
      descriptors := [];
      indices := None;
    }

    /** `ensureFlagsCapacity(i)`. */
    method EnsureFlagsCapacity(i: int)
      modifies this
      ensures flags[..] == SerialClassDesc.EnsureFlagsCapacity(old(flags[..]), i)
      ensures flags == old(flags) || fresh(flags)
      ensures names == old(names) && annotations == old(annotations) && indices == old(indices)
      ensures classAnnotations == old(classAnnotations) && descriptors == old(descriptors)
    {
      if flags.Length <= i {
        var grown := CopyOf(flags, flags.Length * 2);
        assert grown[..] == SerialClassDesc.EnsureFlagsCapacity(flags[..], i);
        flags := grown;
      }
    }

    /** `addElement(name, isOptional)`. */
    method AddElement(name: string, isOptional: bool := false)
      requires Valid()
      modifies this, flags
      ensures Valid()
      ensures flags == old(flags) || fresh(flags)
      ensures Model() == SerialClassDesc.AddElement(old(Model()), name, isOptional)
    {
      names := names + [name];
      var idx := |names| - 1;
      EnsureFlagsCapacity(idx);
      flags[idx] := isOptional;
      annotations := annotations + [[]];
    }

    /** `pushAnnotation(a)`; the error is what `last()` throws on an empty list. */
    method PushAnnotation(a: A) returns (failure: Option<Error>)
      modifies this
      ensures flags == old(flags)
      ensures old(Valid()) ==> Valid()
      ensures failure.Some? <==> SerialClassDesc.PushAnnotation(old(Model()), a).Err?
      ensures failure.Some? ==> failure.value == EmptyList && Model() == old(Model())
      ensures failure.None? ==> Model() == SerialClassDesc.PushAnnotation(old(Model()), a).value
    {
      if |annotations| == 0 {
        return Some(EmptyList);
      }
      var last := |annotations| - 1;
      annotations := annotations[last := annotations[last] + [a]];
      return None;
    }

    /** `pushDescriptor(desc)`. */
    method PushDescriptor(desc: Desc<A>)
      modifies this
      ensures flags == old(flags)
      ensures old(Valid()) ==> Valid()
      ensures Model() == SerialClassDesc.PushDescriptor(old(Model()), desc)
    {
      descriptors := descriptors + [desc];
    }

    /** `pushClassAnnotation(a)`. */
    method PushClassAnnotation(a: A)
      modifies this
      ensures flags == old(flags)
      ensures old(Valid()) ==> Valid()
      ensures Model() == SerialClassDesc.PushClassAnnotation(old(Model()), a)
    {
      classAnnotations := classAnnotations + [a];
    }

    /** `elementsCount`. */
    method ElementsCount() returns (n: nat)
      ensures n == SerialClassDesc.ElementsCount(Model())
    {
      n := |annotations|;
    }

    /** `getElementName(index)`. */
    method GetElementName(index: int) returns (r: Result<string, Error>)
      ensures r == SerialClassDesc.GetElementName(Model(), index)
    {
      if 0 <= index < |names| {
        r := Ok(names[index]);
      } else {
        r := Err(IndexOutOfBounds(index));
      }
    }

    /** `getElementAnnotations(index)`. */
    method GetElementAnnotations(index: int) returns (r: Result<seq<A>, Error>)
      ensures r == SerialClassDesc.GetElementAnnotations(Model(), index)
    {
      if 0 <= index < |annotations| {
        r := Ok(annotations[index]);
      } else {
        r := Err(IndexOutOfBounds(index));
      }
    }

    /** `getEntityAnnotations()`. */
    method GetEntityAnnotations() returns (r: seq<A>)
      ensures r == SerialClassDesc.GetEntityAnnotations(Model())
    {
      r := classAnnotations;
    }

    /** `isElementOptional(index)`: indexes the flag array itself. */
    method IsElementOptional(index: int) returns (r: Result<bool, Error>)
      requires Valid()
      ensures r == SerialClassDesc.IsElementOptional(Model(), index)
    {
      if 0 <= index < flags.Length {
        r := Ok(flags[index]);
      } else {
        r := Err(IndexOutOfBounds(index));
      }
    }

    /** `getElementIndex(name)`: builds the name map on the first call only. */
    method GetElementIndex(name: string) returns (index: int)
      modifies this
      ensures flags == old(flags)
      ensures old(Valid()) ==> Valid()
      ensures (index, Model()) == SerialClassDesc.GetElementIndex(old(Model()), name)
    {
      if indices.None? {
        var built := BuildIndicesLoop(names);
        indices := Some(built);
      }
      var m := indices.value;
      index := if name in m then m[name] else UnknownName;
    }

    /** `getElementDescriptor(index)`. */
    method GetElementDescriptor(index: int) returns (r: Result<Desc<A>, Error>)
      ensures r == SerialClassDesc.GetElementDescriptor(Model(), index)
    {
      if generated.Serializer? && 0 <= index < |generated.childDescriptors| {
        r := Ok(generated.childDescriptors[index]);
      } else if 0 <= index < |descriptors| {
        r := Ok(descriptors[index]);
      } else {
        r := Err(MissingDescriptor(index, name, names));
      }
    }
  }
}
