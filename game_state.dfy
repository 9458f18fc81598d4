/**
 * The live game a save is taken from, reduced to what identifiers reach:
 * the actor list, the ranch's plot list and the world's keyed data sets.
 * Each record keeps only its key field; the rest of its persisted fields are
 * summarised by `data`.
 */
module GameState {
  import opened Wrappers
  import opened DotNet
  import opened Registry

  /** `ExchangeDirector.OfferType`, an enum over `int`. */
  type OfferType = int32

  /** An `ActorDataV09` record. */
  datatype Actor = Actor(actorId: int64, data: int)

  /** A `PlacedGadgetV08` record. */
  datatype PlacedGadget = PlacedGadget(data: int)

  /** A `GordoV01` record. */
  datatype Gordo = Gordo(data: int)

  /** A `TreasurePodV01` record. */
  datatype TreasurePod = TreasurePod(data: int)

  /** An `ExchangeOfferV04` record. */
  datatype ExchangeOffer = ExchangeOffer(data: int)

  /** A `LandPlotV08` record; its `id` may be null. */
  datatype LandPlot = LandPlot(id: NullableString, data: int)

  /**
   * A `VersionedPersistedDataSet`: keyed storage with `Get` and the reverse
   * lookup `GetKeyOfValue`, which is given, not implemented here.
   */
  datatype PersistedSet<K(==), !V(==)> = PersistedSet(entries: map<K, V>, keyOfValue: V -> K) {

    /** `Get(key)`: the stored value, or null when the key is absent. */
    function Get(key: K): Option<V> {
      if key in entries then Some(entries[key]) else None
    }

    /** `GetKeyOfValue` is a partial inverse of `Get`: it finds a key of every stored value. */
    ghost predicate Valid() {
      forall v :: v in entries.Values ==> keyOfValue(v) in entries && entries[keyOfValue(v)] == v
    }
  }

  /** `game.world`: the data sets identifiers look things up in. */
  datatype WorldData = WorldData(
    placedGadgets: PersistedSet<NullableString, PlacedGadget>,
    gordos: PersistedSet<NullableString, Gordo>,
    treasurePods: PersistedSet<NullableString, TreasurePod>,
    offers: PersistedSet<OfferType, ExchangeOffer>)

  /** `game.ranch` */
  datatype RanchData = RanchData(plots: seq<LandPlot>)

  /** A `GameV12` snapshot. */
  datatype GameV12 = GameV12(actors: seq<Actor>, world: WorldData, ranch: RanchData)

  /** The runtime type of an object that is none of the six records: any type but a record type. */
  type ForeignType = t: TypeDescriptor | !t.Record? witness OtherType("")

  /** A non-null `object` as the identifier code sees it: one of the six records, or an object of any other type. */
  datatype Object =
    | ActorObject(actor: Actor)
    | GadgetObject(gadget: PlacedGadget)
    | GordoObject(gordo: Gordo)
    | PodObject(pod: TreasurePod)
    | OfferObject(offer: ExchangeOffer)
    | PlotObject(plot: LandPlot)
    | OtherObject(runtimeType: ForeignType)

  /** `obj.GetType()` */
  function RuntimeType(obj: Object): TypeDescriptor {
    match obj
    case ActorObject(_) => Record(ActorDataV09)
    case GadgetObject(_) => Record(PlacedGadgetV08)
    case GordoObject(_) => Record(GordoV01)
    case PodObject(_) => Record(TreasurePodV01)
    case OfferObject(_) => Record(ExchangeOfferV04)
    case PlotObject(_) => Record(LandPlotV08)
    case OtherObject(t) => t
  }
}
