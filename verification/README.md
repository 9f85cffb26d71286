# SerialClassDescImpl in Dafny

This project models `SerialClassDescImpl` from kotlinx.serialization. It is the runtime
descriptor of a class-like serializable type. A generated serializer fills it once, in
a build phase:

- `addElement(name, isOptional)` appends an element;
- `pushAnnotation` attaches an annotation to the last element added;
- `pushClassAnnotation` attaches an annotation to the type;
- `pushDescriptor` appends an explicit child descriptor.

After that, encoders and decoders query it:

- by index: `getElementName`, `isElementOptional`, `getElementAnnotations`,
  `getElementDescriptor`;
- by name: `getElementIndex`, through a name-to-index map built on the first lookup.

Equality and hashing look only at the type name and the resolved element descriptors.

The files:

- `wrappers.dfy` (`Wrappers`): `Option` and `Result`. A `Result` stands for a call that
  either returns a value or throws.
- `serial_class_desc.dfy` (`SerialClassDesc`): the descriptor as an immutable value
  `Desc<A>` and every operation of the class as a pure function. `A` is the annotation
  type, kept opaque. `Valid` is the invariant the build phase keeps: names and
  annotation lists are aligned, the flag array covers every element, its unused tail
  is `false`, and its capacity is either the initial 4 or at most `2 * (count - 1)`.
- `identity.dfy` (`DescIdentity`): `equals` and `hashCode`. Both are proved to agree
  with an independent reference, the fully resolved `Shape` of a descriptor.
- `build_properties.dfy` (`BuildProperties`): properties of whole build phases, name
  lookup, and child-descriptor resolution.
- `builder.dfy` (`DescBuilder`): the mutable object as the source keeps it. Flags live
  in an `array<bool>` that doubles when full, and the name map sits in an `Option`
  cache. Each method is proved to act on `Model()` as the matching function of
  `SerialClassDesc` does.

Errors are values of `SerialClassDesc.Error`:

- `MissingDescriptor` is `MissingDescriptorException`;
- `IndexOutOfBounds` is a list or array index out of range;
- `EmptyList` is what `last()` throws on an empty list.

The model follows the code in these details:

- Element annotations are lists (`MutableList`): order and duplicates are kept.
- `isElementOptional` is bounded by the capacity of the flag array, not by the element
  count. An index past the last element but inside the capacity answers `false`.
- The flag array is at least as long as the element list. Only its first `elementsCount`
  entries are element flags.

## Model

| member | source | states |
|---|---|---|
| SerialClassDesc.New | runtime/common/src/main/kotlin/kotlinx/serialization/internal/SerialClassDescImpl.kt:26-41 | a fresh descriptor is valid, has no elements, no annotations, no pushed descriptors, a flag array of capacity 4 and no name map yet |
| SerialClassDesc.EnsureFlagsCapacity | runtime/common/src/main/kotlin/kotlinx/serialization/internal/SerialClassDescImpl.kt:83-86 | the array doubles exactly when index `i` does not fit; old flags are kept and the new slots are `false`; a single doubling of a non-empty array that covers every index below `i` covers `i` |
| SerialClassDesc.AddElement | runtime/common/src/main/kotlin/kotlinx/serialization/internal/SerialClassDescImpl.kt:43-50 | validity is kept; the element count grows by one; the name is appended; the new element has the given flag and an empty annotation list; earlier flags, annotations and every other part are unchanged |
| SerialClassDesc.PushAnnotation | runtime/common/src/main/kotlin/kotlinx/serialization/internal/SerialClassDescImpl.kt:52-54 | fails with `EmptyList` exactly when there is no element; otherwise appends to the last element's annotation list only and changes nothing else |
| SerialClassDesc.PushDescriptor | runtime/common/src/main/kotlin/kotlinx/serialization/internal/SerialClassDescImpl.kt:56-58 | appends the child descriptor to the pushed list; nothing else changes |
| SerialClassDesc.PushClassAnnotation | runtime/common/src/main/kotlin/kotlinx/serialization/internal/SerialClassDescImpl.kt:71-75 | appends the annotation to the class annotations; nothing else changes |
| SerialClassDesc.GetEntityAnnotations | runtime/common/src/main/kotlin/kotlinx/serialization/internal/SerialClassDescImpl.kt:75 | gives the class annotations, element by element, in the order they were pushed |
| SerialClassDesc.ElementsCountIsNameCount | runtime/common/src/main/kotlin/kotlinx/serialization/internal/SerialClassDescImpl.kt:77-78 | the element count, read from the annotation list, equals the number of names on a valid descriptor, and every index below it has a name and an annotation list |
| SerialClassDesc.GetElementAnnotations | runtime/common/src/main/kotlin/kotlinx/serialization/internal/SerialClassDescImpl.kt:76-78 | succeeds exactly for indices below the element count, with that element's annotation list; fails with `IndexOutOfBounds` otherwise |
| SerialClassDesc.GetElementName | runtime/common/src/main/kotlin/kotlinx/serialization/internal/SerialClassDescImpl.kt:80 | succeeds exactly for indices of the name list, with that name; fails with `IndexOutOfBounds` otherwise |
| SerialClassDesc.IsElementOptional | runtime/common/src/main/kotlin/kotlinx/serialization/internal/SerialClassDescImpl.kt:67-69 | succeeds exactly for indices inside the array's capacity; gives the element's flag below the element count and `false` between the element count and the capacity |
| SerialClassDesc.BuildIndices | runtime/common/src/main/kotlin/kotlinx/serialization/internal/SerialClassDescImpl.kt:88-93 | the map's keys are exactly the element names, and each name maps to its last position |
| SerialClassDesc.GetElementIndex | runtime/common/src/main/kotlin/kotlinx/serialization/internal/SerialClassDescImpl.kt:81 | with a coherent or absent cache: `UNKNOWN_NAME` exactly when the name is not an element, otherwise its last position; the cache is built on the first lookup and kept afterwards; nothing else changes |
| SerialClassDesc.GetElementDescriptor | runtime/common/src/main/kotlin/kotlinx/serialization/internal/SerialClassDescImpl.kt:60-65 | the generated serializer's child descriptor first, then the pushed descriptor at the same index; `MissingDescriptor` with index, type name and element names exactly when neither has one |
| DescIdentity.ElementDescriptors | runtime/common/src/main/kotlin/kotlinx/serialization/internal/SerialClassDescImpl.kt:100 | succeeds exactly when every element index resolves, giving the resolved descriptors in index order; otherwise fails with the error of the lowest index that does not resolve |
| DescIdentity.ResolvePrefix | runtime/common/src/main/kotlin/kotlinx/serialization/internal/SerialClassDescImpl.kt:60-65 | resolving the first `n` element descriptors succeeds exactly when each resolves, and otherwise surfaces the `MissingDescriptorException` of the first missing index |
| DescIdentity.Equals | runtime/common/src/main/kotlin/kotlinx/serialization/internal/SerialClassDescImpl.kt:95-103 | different type names compare unequal; with equal names, a failure to resolve the receiver's element descriptors is the error thrown; an error arises only when the names agree; `true` implies equal element counts |
| DescIdentity.ListEquals | runtime/common/src/main/kotlin/kotlinx/serialization/internal/SerialClassDescImpl.kt:100 | lists that compare equal have equal length and pairwise equal type names; equal-length lists whose first descriptors differ in name compare unequal |
| DescIdentity.HashCode | runtime/common/src/main/kotlin/kotlinx/serialization/internal/SerialClassDescImpl.kt:105-109 | a hash code that is computed lies in the 32-bit `Int` range, the wrap-around of `31 * result + …` included |
| DescIdentity.ListHashCode | runtime/common/src/main/kotlin/kotlinx/serialization/internal/SerialClassDescImpl.kt:107 | the list hash of a non-empty list, when computed, lies in the 32-bit `Int` range |
| DescIdentity.HashMatchesShape | runtime/common/src/main/kotlin/kotlinx/serialization/internal/SerialClassDescImpl.kt:105-109 | `hashCode` fails exactly where resolving the shape fails, with the same error; otherwise it is the hash of the shape |
| DescIdentity.ListHashMatchesShapes | runtime/common/src/main/kotlin/kotlinx/serialization/internal/SerialClassDescImpl.kt:107 | the list hash over resolved element descriptors agrees with the list hash over their shapes, failures included |
| DescIdentity.EqualsMatchesShape | runtime/common/src/main/kotlin/kotlinx/serialization/internal/SerialClassDescImpl.kt:95-103 | between fully resolvable descriptors, `equals` answers exactly whether the type names and resolved element descriptors agree, all the way down |
| DescIdentity.ListEqualsMatchesShapes | runtime/common/src/main/kotlin/kotlinx/serialization/internal/SerialClassDescImpl.kt:100 | comparing two lists of resolvable element descriptors answers exactly whether their shapes agree |
| DescIdentity.EqualsTrueResolves | runtime/common/src/main/kotlin/kotlinx/serialization/internal/SerialClassDescImpl.kt:99-102 | `equals` answers `true` only when both descriptors resolve completely and their shapes are equal |
| DescIdentity.ListEqualsTrueResolves | runtime/common/src/main/kotlin/kotlinx/serialization/internal/SerialClassDescImpl.kt:100 | two lists of element descriptors compare equal only when both resolve completely to equal shapes |
| DescIdentity.HashConsistentWithEquals | runtime/common/src/main/kotlin/kotlinx/serialization/internal/SerialClassDescImpl.kt:95-109 | equal descriptors have equal hash codes, and hashing them does not fail |
| DescIdentity.EqualsReflexive | runtime/common/src/main/kotlin/kotlinx/serialization/internal/SerialClassDescImpl.kt:95-103 | a fully resolvable descriptor equals itself |
| DescIdentity.EqualsSymmetric | runtime/common/src/main/kotlin/kotlinx/serialization/internal/SerialClassDescImpl.kt:95-103 | between fully resolvable descriptors, `equals` gives the same answer in both directions |
| DescIdentity.EqualsTransitive | runtime/common/src/main/kotlin/kotlinx/serialization/internal/SerialClassDescImpl.kt:95-103 | `equals` is transitive |
| DescIdentity.IdentityIgnoresFlagsAndAnnotations | runtime/common/src/main/kotlin/kotlinx/serialization/internal/SerialClassDescImpl.kt:95-109 | descriptors differing only in flags, element or class annotations, or the name cache compare and hash alike against any third descriptor, and have the same shape |
| DescIdentity.PushAnnotationKeepsIdentity | runtime/common/src/main/kotlin/kotlinx/serialization/internal/SerialClassDescImpl.kt:52-54 | `pushAnnotation` changes neither the answer of `equals` nor the hash code |
| DescIdentity.PushClassAnnotationKeepsIdentity | runtime/common/src/main/kotlin/kotlinx/serialization/internal/SerialClassDescImpl.kt:71-73 | `pushClassAnnotation` changes neither the answer of `equals` nor the hash code |
| DescIdentity.FlagsDoNotAffectEquality | runtime/common/src/main/kotlin/kotlinx/serialization/internal/SerialClassDescImpl.kt:36 | replacing the flag array of a resolvable descriptor gives a descriptor equal to it, with the same hash code |
| BuildProperties.AddAll | runtime/common/src/main/kotlin/kotlinx/serialization/internal/SerialClassDescImpl.kt:44-50 | any sequence of `addElement` calls keeps validity; the element count grows by the number of calls; the names are appended in call order; every other part is unchanged |
| BuildProperties.AddAllKeepsEarlierElements | runtime/common/src/main/kotlin/kotlinx/serialization/internal/SerialClassDescImpl.kt:47-49 | later `addElement` calls leave the flags and annotations of earlier elements unchanged, doubling included |
| BuildProperties.AddAllNewElements | runtime/common/src/main/kotlin/kotlinx/serialization/internal/SerialClassDescImpl.kt:48-49 | the `k`-th element added in a build phase carries the flag of the `k`-th call and no annotations |
| BuildProperties.BuildFromFresh | runtime/common/src/main/kotlin/kotlinx/serialization/internal/SerialClassDescImpl.kt:67-80 | after a build phase from a fresh descriptor, element `i` has the `i`-th name, the `i`-th optional flag and no annotations, and the element count is the number of calls |
| BuildProperties.AddElementDefaultsToRequired | runtime/common/src/main/kotlin/kotlinx/serialization/internal/SerialClassDescImpl.kt:43-44 | an element added without a flag is not optional |
| BuildProperties.ElementIndexOfElementName | runtime/common/src/main/kotlin/kotlinx/serialization/internal/SerialClassDescImpl.kt:80-81 | when names are unique, looking up the name of element `i` gives `i` |
| BuildProperties.DuplicateNameResolvesToLast | runtime/common/src/main/kotlin/kotlinx/serialization/internal/SerialClassDescImpl.kt:90-91 | a name that occurs twice resolves to its later position and not to the earlier one |
| BuildProperties.LookupCachesOnce | runtime/common/src/main/kotlin/kotlinx/serialization/internal/SerialClassDescImpl.kt:41 | the first lookup stores the map built from the current names, and a second lookup answers from it, as a fresh lookup would, leaving the descriptor unchanged |
| BuildProperties.StaleCacheAfterLateAdd | runtime/common/src/main/kotlin/kotlinx/serialization/internal/SerialClassDescImpl.kt:41-50 | an element added after the first lookup has its name recorded, yet its name looks up as `UNKNOWN_NAME`, because the map is never rebuilt |
| BuildProperties.PushAll | runtime/common/src/main/kotlin/kotlinx/serialization/internal/SerialClassDescImpl.kt:56-58 | a sequence of `pushDescriptor` calls appends the descriptors in call order and changes nothing else |
| BuildProperties.EntityAnnotationsInCallOrder | runtime/common/src/main/kotlin/kotlinx/serialization/internal/SerialClassDescImpl.kt:71-75 | after a sequence of `pushClassAnnotation` calls, `getEntityAnnotations` gives the earlier annotations followed by the pushed ones in call order, and nothing else changes |
| BuildProperties.PushedDescriptorsResolveInOrder | runtime/common/src/main/kotlin/kotlinx/serialization/internal/SerialClassDescImpl.kt:60-65 | without a generated serializer, the `i`-th pushed descriptor is the descriptor of element `i`, and any index with nothing pushed is missing |
| BuildProperties.GeneratedTakesPrecedence | runtime/common/src/main/kotlin/kotlinx/serialization/internal/SerialClassDescImpl.kt:62-63 | the generated serializer's child descriptor wins over a pushed descriptor at the same index |
| BuildProperties.ElementDescriptorsResolve | runtime/common/src/main/kotlin/kotlinx/serialization/internal/SerialClassDescImpl.kt:60-65 | every element descriptor resolves exactly when the generated serializer or the pushed list reaches the element count |
| DescBuilder.BuildIndicesLoop | runtime/common/src/main/kotlin/kotlinx/serialization/internal/SerialClassDescImpl.kt:88-93 | the loop of `put` calls builds the map that sends each element name to its last position |
| DescBuilder.CopyOf | runtime/common/src/main/kotlin/kotlinx/serialization/internal/SerialClassDescImpl.kt:85 | `copyOf(n)` gives a new array of length `n` holding the old flags and `false` past the old length |
| DescBuilder.Builder.constructor | runtime/common/src/main/kotlin/kotlinx/serialization/internal/SerialClassDescImpl.kt:26-41 | a new object owns a new flag array, is valid, and is the fresh descriptor `SerialClassDesc.New` |
| DescBuilder.Builder.EnsureFlagsCapacity | runtime/common/src/main/kotlin/kotlinx/serialization/internal/SerialClassDescImpl.kt:83-86 | the array after the call holds what `SerialClassDesc.EnsureFlagsCapacity` specifies; it is the same array or a new one, and no other field changes |
| DescBuilder.Builder.AddElement | runtime/common/src/main/kotlin/kotlinx/serialization/internal/SerialClassDescImpl.kt:44-50 | the in-place version, with the flag array reallocated when full, keeps validity, keeps the same array or allocates a new one, and acts as `SerialClassDesc.AddElement` |
| DescBuilder.Builder.PushAnnotation | runtime/common/src/main/kotlin/kotlinx/serialization/internal/SerialClassDescImpl.kt:52-54 | reports `EmptyList` exactly when `SerialClassDesc.PushAnnotation` fails, leaving the object unchanged, and otherwise acts as it; validity and the flag array are kept |
| DescBuilder.Builder.PushDescriptor | runtime/common/src/main/kotlin/kotlinx/serialization/internal/SerialClassDescImpl.kt:56-58 | acts as `SerialClassDesc.PushDescriptor`; validity and the flag array are kept |
| DescBuilder.Builder.PushClassAnnotation | runtime/common/src/main/kotlin/kotlinx/serialization/internal/SerialClassDescImpl.kt:71-73 | acts as `SerialClassDesc.PushClassAnnotation`; validity and the flag array are kept |
| DescBuilder.Builder.ElementsCount | runtime/common/src/main/kotlin/kotlinx/serialization/internal/SerialClassDescImpl.kt:77-78 | the size of the annotation list is the element count of `SerialClassDesc` |
| DescBuilder.Builder.GetElementName | runtime/common/src/main/kotlin/kotlinx/serialization/internal/SerialClassDescImpl.kt:80 | reads the name list as `SerialClassDesc.GetElementName` specifies, failing out of range |
| DescBuilder.Builder.GetElementAnnotations | runtime/common/src/main/kotlin/kotlinx/serialization/internal/SerialClassDescImpl.kt:76 | reads the annotation lists as `SerialClassDesc.GetElementAnnotations` specifies, failing out of range |
| DescBuilder.Builder.GetEntityAnnotations | runtime/common/src/main/kotlin/kotlinx/serialization/internal/SerialClassDescImpl.kt:75 | gives the class annotations as `SerialClassDesc.GetEntityAnnotations` specifies |
| DescBuilder.Builder.IsElementOptional | runtime/common/src/main/kotlin/kotlinx/serialization/internal/SerialClassDescImpl.kt:67-69 | reading the raw flag array gives what `SerialClassDesc.IsElementOptional` specifies |
| DescBuilder.Builder.GetElementIndex | runtime/common/src/main/kotlin/kotlinx/serialization/internal/SerialClassDescImpl.kt:41 | builds the map on the first call only, and answers and caches as `SerialClassDesc.GetElementIndex`; validity and the flag array are kept |
| DescBuilder.Builder.GetElementDescriptor | runtime/common/src/main/kotlin/kotlinx/serialization/internal/SerialClassDescImpl.kt:60-65 | resolves on the object's fields as `SerialClassDesc.GetElementDescriptor` does |

## Left out

- Thread safety of the `by lazy` name map (line 41). The model keeps only its semantics: the map is built once, from the names present at that moment.
- The field `_indices` (line 40). It is declared and never read or written.
- `toString`, the constant `kind` and `@JvmOverloads`. The default `isOptional = false` is a Dafny default parameter. A `MissingDescriptor` error carries what `toString` prints (type name and element names), not the formatted string.
- The reference-identity shortcut `this === other` (line 96) and the check `other !is SerialClassDescImpl` (line 97). The model has descriptor values, not objects, and only this one kind of descriptor.
- `elementDescriptors()` is not part of this model. It is taken to be the list of `getElementDescriptor(i)` for `i` from 0 to `elementsCount - 1`, resolved in index order.
- The equality of that list is taken as: sizes compared first, then pairs compared in order with `equals`, stopping at the first unequal pair. Its hash code is taken as `java.util.List.hashCode`.
- `GeneratedSerializer.childSerializers()` is not part of this model. It is represented by the sequence of the child serializers' descriptors, assumed the same on every call.
- `CompositeDecoder.UNKNOWN_NAME` is not part of this model. It is taken as -3; the proofs use only that it is not a valid index.
- `String.hashCode` is a parameter of `HashCode`. The `Int` wrap-around of `31 * result + …` is modelled.
- Annotation values are the opaque type parameter `A`.
- `getElementAnnotations` (line 76) and `getEntityAnnotations` (line 75) hand out the descriptor's own `MutableList`, so a list obtained earlier shows annotations pushed later. The model returns the list's contents at the time of the call.
- Descriptor trees are finite values, so self-referential descriptors cannot be expressed.
- SerialClassDesc.EnsureFlagsCapacity: does not model the `Int` overflow of `flags.size * 2` or of element counts beyond 2^31 - 1, because indices are unbounded integers.
- DescIdentity.EqualsReflexive: assumes every descriptor in the tree resolves, because the source's reflexivity comes from the identity shortcut, which is left out.
