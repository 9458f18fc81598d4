/**
 * The `DataIdentifier` value type: a kind tag plus a numeric key and a
 * string key, with its hand-written equality and hash code, and the
 * `IdentifierType` enum.
 */
module Identifiers {
  import opened Wrappers
  import opened DotNet

  /**
   * `IdentifierType` is a C# enum over `int`, so it can hold any `int`
   * (a cast from a stream does not check it); the named members are below.
   */
  type IdentifierType = int32

  const NONE: IdentifierType := 0
  const ACTOR: IdentifierType := 1
  const GADGET: IdentifierType := 2
  const LANDPLOT: IdentifierType := 3
  const GORDO: IdentifierType := 4
  const TREASUREPOD: IdentifierType := 5
  const EXCHANGEOFFER: IdentifierType := 6

  /** The named members other than NONE: the kinds of entity an identifier can name. */
  predicate IsEntityKind(t: IdentifierType) {
    ACTOR <= t <= EXCHANGEOFFER
  }

  /** The struct: all three fields always exist; `stringID` may be null. */
  datatype DataIdentifier = DataIdentifier(Type: IdentifierType, longID: int64, stringID: NullableString)

  /**
   * `Equals(object obj)`. `obj` is `None` for null or for an object that is
   * not a `DataIdentifier`. A null string key compares as "".
   */
  predicate Equals(me: DataIdentifier, obj: Option<DataIdentifier>) {
    match obj
    case None => false
    case Some(other) =>
      && me.Type == other.Type
      && me.longID == other.longID
      && OrEmpty(me.stringID) == OrEmpty(other.stringID)
  }

  /** `operator ==` */
  predicate OperatorEquals(me: DataIdentifier, other: DataIdentifier) {
    Equals(me, Some(other))
  }

  /** `operator !=` */
  predicate OperatorNotEquals(me: DataIdentifier, other: DataIdentifier) {
    !Equals(me, Some(other))
  }

  /**
   * The representative of an identifier's equality class: an empty string
   * key becomes null, as `Read` does. Reference definition for `Equals`.
   */
  function Canonical(id: DataIdentifier): DataIdentifier {
    if id.stringID == Some("") then id.(stringID := None) else id
  }

  /** Two identifiers are equal exactly when their canonical forms are identical. */
  lemma EqualsIffSameCanonical(a: DataIdentifier, b: DataIdentifier)
    ensures Equals(a, Some(b)) <==> Canonical(a) == Canonical(b)
  {
  }

  /** `Equals` restricted to identifiers is an equivalence relation, and never holds of null. */
  lemma EqualsIsEquivalence(a: DataIdentifier, b: DataIdentifier, c: DataIdentifier)
    ensures Equals(a, Some(a))
    ensures Equals(a, Some(b)) ==> Equals(b, Some(a))
    ensures Equals(a, Some(b)) && Equals(b, Some(c)) ==> Equals(a, Some(c))
    ensures !Equals(a, None)
  {
  }

  /** The deliberate normalisation: a null and an empty string key compare equal. */
  lemma NullKeyEqualsEmptyKey()
    ensures Equals(DataIdentifier(GADGET, 0, None), Some(DataIdentifier(GADGET, 0, Some(""))))
    ensures !Equals(DataIdentifier(GADGET, 0, None), Some(DataIdentifier(GADGET, 0, Some("a"))))
  {
  }

  /** `==` is `Equals` and `!=` is its negation. */
  lemma OperatorsAreEquals(a: DataIdentifier, b: DataIdentifier)
    ensures OperatorEquals(a, b) <==> Equals(a, Some(b))
    ensures OperatorNotEquals(a, b) <==> !OperatorEquals(a, b)
  {
  }

  const HASH_SEED: int := -877822480
  const HASH_FACTOR: int := -1521134295

  /** `long.GetHashCode()`: the low word xor the high word. */
  function LongHashCode(v: int64): int32 {
    Xor32(Wrap32(v as int), Wrap32(v as int / TWO_32))
  }

  /**
   * `GetHashCode()`, with unchecked `int` arithmetic. An enum hashes as its
   * ordinal; `stringHash` is `string.GetHashCode`, which the runtime defines.
   */
  function GetHashCode(id: DataIdentifier, stringHash: string -> int32): int32 {
    var h1 := Wrap32(HASH_SEED * HASH_FACTOR + id.Type as int);
    var h2 := Wrap32(h1 as int * HASH_FACTOR + LongHashCode(id.longID) as int);
    Wrap32(h2 as int * HASH_FACTOR + stringHash(OrEmpty(id.stringID)) as int)
  }

  /** Equal identifiers have equal hash codes, whatever the string hash is. */
  lemma EqualIdentifiersHashEqually(a: DataIdentifier, b: DataIdentifier, stringHash: string -> int32)
    requires Equals(a, Some(b))
    ensures GetHashCode(a, stringHash) == GetHashCode(b, stringHash)
  {
  }

  /** `GetActorIdentifier(actorId)`: an ACTOR identifier keyed by the actor id, with a null string key. */
  function GetActorIdentifier(actorId: int64): (r: DataIdentifier)
    ensures r.Type == ACTOR && r.longID == actorId && r.stringID == None
  {
    DataIdentifier(ACTOR, actorId, None)
  }
}
