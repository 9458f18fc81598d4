/**
 * The kind registry: the two static tables that tie each kind tag to its
 * versioned record type and to the versioned data set holding such
 * records, and the first-match lookup from a runtime type to a tag.
 * Reflection is replaced by type descriptors and an assignability relation
 * given as a parameter.
 */
module Registry {
  import opened Wrappers
  import opened DotNet
  import opened Identifiers
  import Linq

  /** The versioned record types the registry names. */
  datatype RecordType =
    | ActorDataV09
    | PlacedGadgetV08
    | LandPlotV08
    | GordoV01
    | TreasurePodV01
    | ExchangeOfferV04

  /** A runtime type handle: a record type, `VersionedPersistedDataSet<T>` of one, or any other type. */
  datatype TypeDescriptor =
    | Record(record: RecordType)
    | VersionedPersistedDataSet(element: RecordType)
    | OtherType(name: string)

  /** `IdentifierTypeToData`: kind tag to record type. */
  const IdentifierTypeToData: map<IdentifierType, TypeDescriptor> := map[
    ACTOR := Record(ActorDataV09),
    GADGET := Record(PlacedGadgetV08),
    LANDPLOT := Record(LandPlotV08),
    GORDO := Record(GordoV01),
    TREASUREPOD := Record(TreasurePodV01),
    EXCHANGEOFFER := Record(ExchangeOfferV04)
  ]

  /** The dictionary literal that `PersistedDataSetsToIdentifiers` inverts, in insertion order. */
  const DataSetsByIdentifier: seq<(IdentifierType, TypeDescriptor)> := [
    (ACTOR, VersionedPersistedDataSet(ActorDataV09)),
    (GADGET, VersionedPersistedDataSet(PlacedGadgetV08)),
    (LANDPLOT, VersionedPersistedDataSet(LandPlotV08)),
    (GORDO, VersionedPersistedDataSet(GordoV01)),
    (TREASUREPOD, VersionedPersistedDataSet(TreasurePodV01)),
    (EXCHANGEOFFER, VersionedPersistedDataSet(ExchangeOfferV04))
  ]

  /** `Invert()`: swaps key and value of every entry and keeps the enumeration order. */
  function Invert<K, V>(table: seq<(K, V)>): seq<(V, K)> {
    seq(|table|, i requires 0 <= i < |table| => (table[i].1, table[i].0))
  }

  /** Inverting twice gives back the table. */
  lemma InvertInvolutive<K, V>(table: seq<(K, V)>)
    ensures Invert(Invert(table)) == table
  {
  }

  /** `PersistedDataSetsToIdentifiers`: data-set type to kind tag, in enumeration order. */
  const PersistedDataSetsToIdentifiers: seq<(TypeDescriptor, IdentifierType)> := Invert(DataSetsByIdentifier)

  /** The kinds in the order both tables list them. */
  const EntityKinds: seq<IdentifierType> := [ACTOR, GADGET, LANDPLOT, GORDO, TREASUREPOD, EXCHANGEOFFER]

  /** The data-set table spelled out: the literal with key and value swapped, order kept. */
  lemma DataSetsTableContents()
    ensures PersistedDataSetsToIdentifiers == [
      (VersionedPersistedDataSet(ActorDataV09), ACTOR),
      (VersionedPersistedDataSet(PlacedGadgetV08), GADGET),
      (VersionedPersistedDataSet(LandPlotV08), LANDPLOT),
      (VersionedPersistedDataSet(GordoV01), GORDO),
      (VersionedPersistedDataSet(TreasurePodV01), TREASUREPOD),
      (VersionedPersistedDataSet(ExchangeOfferV04), EXCHANGEOFFER)
    ]
  {
  }

  /** The keys of `IdentifierTypeToData` are the entity kinds, each listed once in `EntityKinds`. */
  lemma EntityKindsAreTheKeys()
    ensures forall k :: k in IdentifierTypeToData <==> k in EntityKinds
    ensures forall k :: k in EntityKinds <==> IsEntityKind(k)
    ensures forall i, j :: 0 <= i < j < |EntityKinds| ==> EntityKinds[i] != EntityKinds[j]
  {
  }

  /** The i-th entry of the data-set table is the i-th kind, keyed by the data set of that kind's record type. */
  lemma DataSetsFollowRecordTypes()
    ensures |PersistedDataSetsToIdentifiers| == |EntityKinds|
    ensures forall i :: 0 <= i < |PersistedDataSetsToIdentifiers| ==>
      && PersistedDataSetsToIdentifiers[i].1 == EntityKinds[i]
      && EntityKinds[i] in IdentifierTypeToData
      && IdentifierTypeToData[EntityKinds[i]].Record?
      && PersistedDataSetsToIdentifiers[i].0 == VersionedPersistedDataSet(IdentifierTypeToData[EntityKinds[i]].record)
  {
    DataSetsTableContents();
  }

  /** No two kinds share a record type, so no two data-set entries share a key. */
  lemma RecordTypesDistinct()
    ensures forall k1, k2 :: k1 in IdentifierTypeToData && k2 in IdentifierTypeToData && IdentifierTypeToData[k1] == IdentifierTypeToData[k2] ==> k1 == k2
    ensures forall i, j :: 0 <= i < j < |PersistedDataSetsToIdentifiers| ==>
      PersistedDataSetsToIdentifiers[i].0 != PersistedDataSetsToIdentifiers[j].0
  {
    DataSetsTableContents();
  }

  /**
   * The two tables agree: the data-set table lists every entity kind exactly
   * once, in order, each with the data set of that kind's record type; its
   * keys are distinct; the record-type table covers exactly the entity kinds
   * (never NONE) and gives no two kinds the same record type.
   */
  lemma RegistryTablesAgree()
    ensures |PersistedDataSetsToIdentifiers| == |EntityKinds|
    ensures forall i :: 0 <= i < |PersistedDataSetsToIdentifiers| ==> PersistedDataSetsToIdentifiers[i].1 == EntityKinds[i]
    ensures forall i, j :: 0 <= i < j < |PersistedDataSetsToIdentifiers| ==>
      PersistedDataSetsToIdentifiers[i].0 != PersistedDataSetsToIdentifiers[j].0
    ensures forall i, j :: 0 <= i < j < |EntityKinds| ==> EntityKinds[i] != EntityKinds[j]
    ensures forall k :: k in EntityKinds <==> IsEntityKind(k)
    ensures forall k :: k in IdentifierTypeToData <==> k in EntityKinds
    ensures forall i :: 0 <= i < |PersistedDataSetsToIdentifiers| ==>
      && IdentifierTypeToData[EntityKinds[i]].Record?
      && PersistedDataSetsToIdentifiers[i].0 == VersionedPersistedDataSet(IdentifierTypeToData[EntityKinds[i]].record)
    ensures forall k1, k2 :: k1 in IdentifierTypeToData && k2 in IdentifierTypeToData && IdentifierTypeToData[k1] == IdentifierTypeToData[k2] ==> k1 == k2
  {
    EntityKindsAreTheKeys();
    DataSetsFollowRecordTypes();
    RecordTypesDistinct();
  }

  /**
   * `GetIdentifierType(type)`: the tag of the first data-set entry whose type
   * is assignable from `t`, or NONE (the default) when none is.
   * `assignable(a, b)` stands for `a.IsAssignableFrom(b)`.
   */
  function GetIdentifierType(assignable: (TypeDescriptor, TypeDescriptor) -> bool, t: TypeDescriptor): (r: IdentifierType)
    ensures r == NONE <==> forall i :: 0 <= i < |PersistedDataSetsToIdentifiers| ==> !assignable(PersistedDataSetsToIdentifiers[i].0, t)
    ensures r != NONE ==> IsEntityKind(r) && r in IdentifierTypeToData
  {
    EntityKindsAreTheKeys();
    DataSetsFollowRecordTypes();
    match Linq.FirstOrDefault(PersistedDataSetsToIdentifiers, (entry: (TypeDescriptor, IdentifierType)) => assignable(entry.0, t))
    case Some(entry) => entry.1
    case None => NONE
  }

  /** The tag returned is that of the first entry assignable from `t`: table order breaks ties. */
  lemma GetIdentifierTypeIsFirstMatch(assignable: (TypeDescriptor, TypeDescriptor) -> bool, t: TypeDescriptor, i: nat)
    requires i < |PersistedDataSetsToIdentifiers| && assignable(PersistedDataSetsToIdentifiers[i].0, t)
    requires forall j :: 0 <= j < i ==> !assignable(PersistedDataSetsToIdentifiers[j].0, t)
    ensures GetIdentifierType(assignable, t) == PersistedDataSetsToIdentifiers[i].1
  {
    Linq.FirstOrDefaultIsFirst(PersistedDataSetsToIdentifiers, (entry: (TypeDescriptor, IdentifierType)) => assignable(entry.0, t), i);
  }

  /**
   * When assignability among data-set types is type identity, the data set
   * of a record type looks up the kind whose record type it is.
   */
  lemma GetIdentifierTypeOfDataSet(assignable: (TypeDescriptor, TypeDescriptor) -> bool, r: RecordType)
    requires forall e :: assignable(VersionedPersistedDataSet(e), VersionedPersistedDataSet(r)) <==> e == r
    ensures var k := GetIdentifierType(assignable, VersionedPersistedDataSet(r));
      k in IdentifierTypeToData && IdentifierTypeToData[k] == Record(r)
  {
    DataSetsTableContents();
    var i := match r
      case ActorDataV09 => 0
      case PlacedGadgetV08 => 1
      case LandPlotV08 => 2
      case GordoV01 => 3
      case TreasurePodV01 => 4
      case ExchangeOfferV04 => 5;
    GetIdentifierTypeIsFirstMatch(assignable, VersionedPersistedDataSet(r), i);
  }

  /**
   * A record type is not registered in the data-set table: unless a record
   * type derives from a data-set type, looking one up yields NONE.
   */
  lemma GetIdentifierTypeOfRecordIsNone(assignable: (TypeDescriptor, TypeDescriptor) -> bool, r: RecordType)
    requires forall e :: !assignable(VersionedPersistedDataSet(e), Record(r))
    ensures GetIdentifierType(assignable, Record(r)) == NONE
  {
    DataSetsFollowRecordTypes();
  }

  /**
   * The kind whose record type is exactly `t`, found in `IdentifierTypeToData`
   * (NONE when `t` is no registered record type).
   */
  function RecordIdentifierType(t: TypeDescriptor): (r: IdentifierType)
    ensures r != NONE ==> r in IdentifierTypeToData && IdentifierTypeToData[r] == t
    ensures r == NONE <==> t !in IdentifierTypeToData.Values
  {
    EntityKindsAreTheKeys();
    match Linq.FirstOrDefault(EntityKinds, (k: IdentifierType) => k in IdentifierTypeToData && IdentifierTypeToData[k] == t)
    case Some(k) => k
    case None => NONE
  }

  /** Each registered record type is found, under the kind that `IdentifierTypeToData` gives it. */
  lemma RecordIdentifierTypeOfRecord(r: RecordType)
    ensures var k := RecordIdentifierType(Record(r));
      && IsEntityKind(k) && k in IdentifierTypeToData && IdentifierTypeToData[k] == Record(r)
      && k == match r
        case ActorDataV09 => ACTOR
        case PlacedGadgetV08 => GADGET
        case LandPlotV08 => LANDPLOT
        case GordoV01 => GORDO
        case TreasurePodV01 => TREASUREPOD
        case ExchangeOfferV04 => EXCHANGEOFFER
  {
    var i := match r
      case ActorDataV09 => 0
      case PlacedGadgetV08 => 1
      case LandPlotV08 => 2
      case GordoV01 => 3
      case TreasurePodV01 => 4
      case ExchangeOfferV04 => 5;
    Linq.FirstOrDefaultIsFirst(EntityKinds, (k: IdentifierType) => k in IdentifierTypeToData && IdentifierTypeToData[k] == Record(r), i);
  }
}
