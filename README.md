# DataIdentifier: save-game references to live entities

A model of SRML's `DataIdentifier`. It is a save-game reference that names a live Slime Rancher entity by a kind tag (`IdentifierType`) plus a numeric key (`longID`) and/or a string key (`stringID`). The model covers these parts:

- the value type with its hand-written equality and hash code (`Identifiers`);
- the kind registry: the two static tables and the first-match lookup `GetIdentifierType` (`Registry`);
- building an identifier from a live object and resolving one back (`Resolver`, over the game snapshot in `GameState`);
- the three-field binary codec, with a writer and a reader as classes and `Write`/`Read` as methods on them (`Codec`);
- the offer-type enum bridge `TranslateWithEnum` (`EnumBridge`).

`DotNet` holds the .NET conventions: `int`/`long` as bounded newtypes, unchecked wrap-around, and nullable strings as `Option<string>`. `Linq` holds `FirstOrDefault` as a recursive first-match search.

Some modelling choices:
- `IdentifierType` is an `int32` with named constants. The C# enum can hold any `int`, and `Read` casts whatever it reads without checking.
- A C# null is `None`.
- A thrown exception is a `Failure` of `Result`.
- `IsAssignableFrom`, `GetKeyOfValue`, `string.GetHashCode` and `EnumTranslator.TranslateEnum` are foreign. They appear as function parameters or fields with no body of ours.
- A stream is modelled field by field: `int32`, `int64` and string fields.

Two behaviours of the code that a reader might not expect, which the model keeps:
- Resolving an identifier of kind NONE (or of an unnamed ordinal) throws `NotImplementedException`. It does not report "not found".
- The EXCHANGEOFFER branch of resolution looks the offer up by the kind's own ordinal, not by `longID` (see Findings).

## Model

| member | source | states |
|---|---|---|
| `DotNet.Wrap32` | SRML/SR/SaveSystem/Data/DataIdentifier.cs:19 | the `(int)` cast keeps `x` modulo 2^32 and is the identity on values that fit in an `int` |
| `Linq.FirstIndex` | SRML/SR/SaveSystem/Data/DataIdentifier.cs:44 | the index found satisfies the predicate and every earlier element fails it; there is no index exactly when no element satisfies it |
| `Linq.FirstOrDefault` | SRML/SR/SaveSystem/Data/DataIdentifier.cs:76 | the default comes back exactly when no element matches; otherwise the result is a matching element of the sequence |
| `Linq.FirstOrDefaultIsFirst` | SRML/SR/SaveSystem/Data/DataIdentifier.cs:81 | when `s[i]` is the first match, `FirstOrDefault` returns `s[i]` |
| `Identifiers.Equals` | SRML/SR/SaveSystem/Data/DataIdentifier.cs:122-128 | no contract of its own; specified by `EqualsIffSameCanonical` and `EqualsIsEquivalence` (below) |
| `Identifiers.OperatorEquals` | SRML/SR/SaveSystem/Data/DataIdentifier.cs:139 | no contract of its own; `OperatorsAreEquals` states that it is `Equals` |
| `Identifiers.OperatorNotEquals` | SRML/SR/SaveSystem/Data/DataIdentifier.cs:140 | no contract of its own; `OperatorsAreEquals` states that it is the negation of `==` |
| `Identifiers.LongHashCode` | SRML/SR/SaveSystem/Data/DataIdentifier.cs:134 | no contract of its own; the low word xor the high word of the `long`, used by `GetHashCode` |
| `Identifiers.GetHashCode` | SRML/SR/SaveSystem/Data/DataIdentifier.cs:130-137 | no contract of its own; `EqualIdentifiersHashEqually` states that it agrees with `Equals` |
| `Identifiers.EqualsIffSameCanonical` | SRML/SR/SaveSystem/Data/DataIdentifier.cs:122-128 | two identifiers are `Equals` exactly when they agree after an empty string key is replaced by null |
| `Identifiers.EqualsIsEquivalence` | SRML/SR/SaveSystem/Data/DataIdentifier.cs:122-128 | `Equals` is reflexive, symmetric and transitive on identifiers, and false for null or for an object of another type |
| `Identifiers.NullKeyEqualsEmptyKey` | SRML/SR/SaveSystem/Data/DataIdentifier.cs:127 | GADGET/0/null equals GADGET/0/""; a non-empty key still tells identifiers apart |
| `Identifiers.OperatorsAreEquals` | SRML/SR/SaveSystem/Data/DataIdentifier.cs:139-140 | `==` is `Equals` and `!=` is its negation |
| `Identifiers.EqualIdentifiersHashEqually` | SRML/SR/SaveSystem/Data/DataIdentifier.cs:130-137 | equal identifiers have equal hash codes, for any string hash function |
| `Identifiers.GetActorIdentifier` | SRML/SR/SaveSystem/Data/DataIdentifier.cs:97-100 | the identifier has kind ACTOR, `longID` equal to the actor id and a null string key |
| `Registry.Invert` | SRML/SR/SaveSystem/Data/DataIdentifier.cs:43 | no contract of its own; the assumed behaviour of `Invert()` named under "Left out", specified by `InvertInvolutive` |
| `Registry.InvertInvolutive` | SRML/SR/SaveSystem/Data/DataIdentifier.cs:43 | documents the "Left out" assumption about `Invert()`: inverting twice gives the table back, so the assumed swap loses no entry; the order it keeps is spelled out by `DataSetsTableContents` |
| `Registry.RegistryTablesAgree` | SRML/SR/SaveSystem/Data/DataIdentifier.cs:22-43 | the data-set table lists each of the six kinds once, in order, never NONE, with distinct data-set types; each entry's data-set type wraps the record type that `IdentifierTypeToData` gives the same kind; `IdentifierTypeToData` covers exactly the six kinds and is injective |
| `Registry.GetIdentifierType` | SRML/SR/SaveSystem/Data/DataIdentifier.cs:44 | the result is NONE exactly when no data-set type is assignable from the argument; otherwise it is a registered entity kind |
| `Registry.GetIdentifierTypeIsFirstMatch` | SRML/SR/SaveSystem/Data/DataIdentifier.cs:44 | the tag returned is that of the first entry in table order whose type is assignable from the argument |
| `Registry.GetIdentifierTypeOfDataSet` | SRML/SR/SaveSystem/Data/DataIdentifier.cs:35-44 | with exact assignability among data-set types, the data set of a record type looks up the kind `IdentifierTypeToData` assigns that record type |
| `Registry.GetIdentifierTypeOfRecordIsNone` | SRML/SR/SaveSystem/Data/DataIdentifier.cs:44 | a record type, which derives from no data-set type, looks up NONE |
| `Registry.RecordIdentifierType` | SRML/SR/SaveSystem/Data/DataIdentifier.cs:22-31 | the kind found has the given record type in `IdentifierTypeToData`; NONE exactly when no kind has it |
| `Registry.RecordIdentifierTypeOfRecord` | SRML/SR/SaveSystem/Data/DataIdentifier.cs:22-31 | every registered record type is found, under an entity kind |
| `Resolver.IdentifierKey` | SRML/SR/SaveSystem/Data/DataIdentifier.cs:51-68 | no contract of its own; the type switch, whose keys `GetIdentifier` states per case |
| `Resolver.GetIdentifier` | SRML/SR/SaveSystem/Data/DataIdentifier.cs:46-69 | throws exactly for an object of none of the six record types, that is, exactly when its runtime type is not a record type; the kind is `GetIdentifierType` of the runtime type; an actor gives `longID` = actor id and a null string key; an offer gives `longID` = its reverse-looked-up offer type and a null string key; a gadget, gordo or treasure pod gives `longID` 0 and the key from its data set's reverse lookup; a plot gives `longID` 0 and its own id |
| `Resolver.ResolveWithOfferKey` | SRML/SR/SaveSystem/Data/DataIdentifier.cs:73-89 | no contract of its own; the switch shared by `ResolveIdentifier` and `ResolveIdentifierCorrected`, whose contracts state it per kind |
| `Resolver.ResolveIdentifier` | SRML/SR/SaveSystem/Data/DataIdentifier.cs:71-90 | throws exactly when the tag is NONE or no named kind; any object found is of the kind the tag names; a GADGET, GORDO or TREASUREPOD identifier resolves to the entry its data set stores under `stringID`, and to null when the key is absent; an EXCHANGEOFFER identifier resolves to the offer stored under offer type 6 (the kind's own ordinal), and to null when there is none |
| `Resolver.TryResolveIdentifier` | SRML/SR/SaveSystem/Data/DataIdentifier.cs:92-95 | propagates exactly `ResolveIdentifier`'s exception; otherwise returns its result and true exactly when that result is non-null |
| `Resolver.TryResolveFindsIffPresent` | SRML/SR/SaveSystem/Data/DataIdentifier.cs:71-95 | NONE and unnamed tags throw rather than report false; for the other kinds except EXCHANGEOFFER the result is true exactly when the world holds an entity under the identifier's key |
| `Resolver.ResolveActorIsFirstMatch` | SRML/SR/SaveSystem/Data/DataIdentifier.cs:75-76 | an ACTOR identifier resolves to the first actor in the list whose id is its `longID` |
| `Resolver.ResolvePlotIsFirstMatch` | SRML/SR/SaveSystem/Data/DataIdentifier.cs:80-81 | a LANDPLOT identifier resolves to the first plot whose (possibly null) id equals its `stringID` |
| `Resolver.ResolveActorIdentifier` | SRML/SR/SaveSystem/Data/DataIdentifier.cs:97-100 | `GetActorIdentifier(n)` never throws when resolved; it finds an actor exactly when some actor has id `n`, and the one found has that id |
| `Resolver.ResolveOfferIgnoresLongID` | SRML/SR/SaveSystem/Data/DataIdentifier.cs:86-87 | as written, an EXCHANGEOFFER identifier resolves the same whatever its `longID`; it finds something exactly when an offer is stored under ordinal 6 |
| `Resolver.GetIdentifierCorrected` | SRML/SR/SaveSystem/Data/DataIdentifier.cs:46-69 | throws exactly for unsupported objects, that is, exactly when the runtime type is not a record type; the kind is the entity kind whose record type is the object's runtime type |
| `Resolver.ResolveIdentifierCorrected` | SRML/SR/SaveSystem/Data/DataIdentifier.cs:71-90 | throws exactly for tags naming no kind; agrees with `ResolveIdentifier` except on EXCHANGEOFFER; finds something exactly when the world holds an entity under the identifier's key; an EXCHANGEOFFER identifier resolves to the offer stored under `(int)longID`, and to null when there is none |
| `Resolver.IdentifyThenResolve` | SRML/SR/SaveSystem/Data/DataIdentifier.cs:46-90 | resolving the (corrected) identifier of an object the world stores unambiguously gives back that object |
| `Resolver.GetIdentifierTagsNone` | SRML/SR/SaveSystem/Data/DataIdentifier.cs:48 | as written, every supported object gets kind NONE, and resolving its identifier throws |
| `Resolver.OfferLookupByKindOrdinal` | SRML/SR/SaveSystem/Data/DataIdentifier.cs:87 | an offer stored under offer type 3 is identified with `longID` 3; the as-written lookup finds nothing; the corrected lookup finds the offer |
| `EnumBridge.TranslateWithEnum` | SRML/SR/SaveSystem/Data/DataIdentifier.cs:16-20 | identity unless the kind is EXCHANGEOFFER; kind and string key are always kept; for an offer the new `longID` fits in an `int` and is the translator's image of the truncated old one |
| `EnumBridge.TranslateRoundTrip` | SRML/SR/SaveSystem/Data/DataIdentifier.cs:16-20 | translating with inverse modes there and back restores an identifier whose key fits in an `int` |
| `EnumBridge.TranslateTruncatesKey` | SRML/SR/SaveSystem/Data/DataIdentifier.cs:19 | the `(int)` cast drops the high word: the identity translation maps EXCHANGEOFFER key 2^32+5 to 5 |
| `Codec.Encode` | SRML/SR/SaveSystem/Data/DataIdentifier.cs:103-105 | three fields, all of which `Read` accepts; `Write` appends exactly these, and `ReadWriteRoundTrip` and `EncodeIffEquals` relate them to the identifier |
| `Codec.FieldsAvailable` | SRML/SR/SaveSystem/Data/DataIdentifier.cs:110-112 | every counted field is of the kind `Read` expects at its position; below three, the count is the position of the first missing or mistyped field; all three are available exactly when an `int`, a `long` and a string come first, in that order |
| `Codec.Decode` | SRML/SR/SaveSystem/Data/DataIdentifier.cs:108-120 | decoding succeeds exactly when the three fields are there in order; a decoded string key is never ""; the only failure is a malformed stream |
| `Codec.Write` | SRML/SR/SaveSystem/Data/DataIdentifier.cs:101-106 | appends exactly the kind as `int`, `longID` as `long` and `stringID ?? ""` as a string, and nothing else |
| `Codec.Read` | SRML/SR/SaveSystem/Data/DataIdentifier.cs:108-120 | returns the decoding of the unread fields and advances past exactly the fields it consumed |
| `Codec.ReadWriteRoundTrip` | SRML/SR/SaveSystem/Data/DataIdentifier.cs:101-120 | reading what `Write` emitted consumes three fields and gives an identifier `Equals` to the original (its canonical form) |
| `Codec.WriteReadRoundTrip` | SRML/SR/SaveSystem/Data/DataIdentifier.cs:101-120 | writing what `Read` decoded reproduces the three fields it read |
| `Codec.EncodeIffEquals` | SRML/SR/SaveSystem/Data/DataIdentifier.cs:101-128 | two identifiers are written identically exactly when they are `Equals` |
| `Codec.ActorFortyTwoOnTheWire` | SRML/SR/SaveSystem/Data/DataIdentifier.cs:97-106 | ACTOR 42 is written as int 1, long 42 and ""; reading that back gives the same identifier |

## Left out

- Reflection: `obj.GetType()` is a total map from objects to type descriptors. `IsAssignableFrom` is a relation given as a parameter. Subclasses of the record types are not modelled, so a type-switch case matches only its exact record type.
- `VersionedPersistedDataSet`: `GetKeyOfValue` is a given function (`keyOfValue`) and is not implemented. `Get` on a key the set does not hold, including a null `stringID`, returns null. What the real container does with a null key is not part of this model.
- Record types keep only their key fields. The other persisted fields are summarised by an integer `data`.
- `Invert()` is taken to swap key and value of each entry and keep the order. Dictionary enumeration is taken to follow insertion order. Neither method's code is part of this model.
- `string.GetHashCode` is a parameter, because the runtime defines it and may randomise it.
- `EnumTranslator.TranslateEnum` is a parameter. The translation mode is a type parameter.
- `BinaryWriter`/`BinaryReader`: the little-endian byte layout, the length prefix and text encoding of strings, and exceptions from the underlying stream are not modelled. A missing field or a field of the wrong kind is a `MalformedStream` failure, which a byte stream would show either as an exception or as misread bytes.
- A null `obj` passed to `GetIdentifier` takes the same throw path as an object of an unsupported type. It is not modelled as a separate case.
- `Equals(object)` is given `None` for null or for an object of another type.
- Records are values, so two distinct record objects with equal fields are one value here. The reference identity that `FirstOrDefault` and `GetKeyOfValue` see is not modelled. A null element of the actor list or the plot list, on which the source's lambdas throw `NullReferenceException`, cannot be expressed either.
- TryResolveFindsIffPresent: excludes EXCHANGEOFFER, because the as-written lookup ignores the key for that kind (see Findings). `Resolver.ResolveIdentifierCorrected` states the property for all kinds.

## Findings

| source | as written | input that shows it | evidently intended | confidence | as-written member | corrected member |
|---|---|---|---|---|---|---|
| SRML/SR/SaveSystem/Data/DataIdentifier.cs:48 | the kind tag is `GetIdentifierType(obj.GetType())`, which searches a table keyed by `VersionedPersistedDataSet<T>` types, and no record type is assignable to any of them | an `ActorDataV09` with actor id 42 gets kind NONE, and `ResolveIdentifier` on that identifier throws `NotImplementedException` | the tag of the kind whose record type the object is (`IdentifierTypeToData`), so that resolution finds the object again | medium, not executed | `Resolver.GetIdentifierTagsNone` | `Resolver.GetIdentifierCorrected` |
| SRML/SR/SaveSystem/Data/DataIdentifier.cs:87 | the EXCHANGEOFFER branch looks up `(OfferType)identifier.Type`, the constant ordinal 6 | an offer stored under offer type 3 is identified with `longID` 3; resolution looks under 6 and returns null | look the offer up by `(OfferType)longID` | high, not executed | `Resolver.OfferLookupByKindOrdinal` | `Resolver.ResolveIdentifierCorrected` |
