/**
 * Identify and resolve: building an identifier from a live object
 * (`GetIdentifier`) and finding the live object an identifier names
 * (`ResolveIdentifier`, `TryResolveIdentifier`).
 */
module Resolver {
  import opened Wrappers
  import opened DotNet
  import opened Identifiers
  import opened Registry
  import opened GameState
  import Linq

  /**
   * The type switch of `GetIdentifier`: the (stringID, longID) pair each kind
   * of object is identified by; any other object throws.
   */
  function IdentifierKey(game: GameV12, obj: Object): Result<(NullableString, int64), Exception> {
    match obj
    case ActorObject(a) => Success((None, a.actorId))
    case GadgetObject(g) => Success((game.world.placedGadgets.keyOfValue(g), 0))
    case GordoObject(g) => Success((game.world.gordos.keyOfValue(g), 0))
    case PodObject(p) => Success((game.world.treasurePods.keyOfValue(p), 0))
    case OfferObject(o) => Success((None, game.world.offers.keyOfValue(o) as int64))
    case PlotObject(p) => Success((p.id, 0))
    case OtherObject(_) => Failure(NotImplemented)
  }

  /**
   * `GetIdentifier(game, obj)`: the kind tag comes from `GetIdentifierType`
   * applied to the object's runtime type, the key from the type switch.
   */
  function GetIdentifier(assignable: (TypeDescriptor, TypeDescriptor) -> bool, game: GameV12, obj: Object): (r: Result<DataIdentifier, Exception>)
    ensures r.Failure? <==> obj.OtherObject?
    ensures r.Failure? <==> !RuntimeType(obj).Record?
    ensures r.Success? ==> r.value.Type == GetIdentifierType(assignable, RuntimeType(obj))
    ensures obj.ActorObject? ==> r.Success? && r.value.longID == obj.actor.actorId && r.value.stringID == None
    ensures obj.OfferObject? ==> r.Success? && r.value.longID as int == game.world.offers.keyOfValue(obj.offer) as int && r.value.stringID == None
    ensures obj.GadgetObject? ==> r.Success? && r.value.longID == 0 && r.value.stringID == game.world.placedGadgets.keyOfValue(obj.gadget)
    ensures obj.GordoObject? ==> r.Success? && r.value.longID == 0 && r.value.stringID == game.world.gordos.keyOfValue(obj.gordo)
    ensures obj.PodObject? ==> r.Success? && r.value.longID == 0 && r.value.stringID == game.world.treasurePods.keyOfValue(obj.pod)
    ensures obj.PlotObject? ==> r.Success? && r.value.longID == 0 && r.value.stringID == obj.plot.id
  {
    match IdentifierKey(game, obj)
    case Failure(e) => Failure(e)
    case Success((stringId, longId)) => Success(DataIdentifier(GetIdentifierType(assignable, RuntimeType(obj)), longId, stringId))
  }

  /**
   * The switch of `ResolveIdentifier`, with the key the EXCHANGEOFFER branch
   * looks the offer up by passed in: a first-match scan for actors and plots,
   * a keyed `Get` for the other kinds, and an exception for NONE and for any
   * unnamed tag. A missing entity is null.
   */
  function ResolveWithOfferKey(game: GameV12, id: DataIdentifier, offerKey: OfferType): Result<Option<Object>, Exception> {
    if id.Type == ACTOR then
      Success(match Linq.FirstOrDefault(game.actors, (a: Actor) => a.actorId == id.longID)
              case Some(a) => Some(ActorObject(a))
              case None => None)
    else if id.Type == GADGET then
      Success(match game.world.placedGadgets.Get(id.stringID)
              case Some(g) => Some(GadgetObject(g))
              case None => None)
    else if id.Type == LANDPLOT then
      Success(match Linq.FirstOrDefault(game.ranch.plots, (p: LandPlot) => id.stringID == p.id)
              case Some(p) => Some(PlotObject(p))
              case None => None)
    else if id.Type == GORDO then
      Success(match game.world.gordos.Get(id.stringID)
              case Some(g) => Some(GordoObject(g))
              case None => None)
    else if id.Type == TREASUREPOD then
      Success(match game.world.treasurePods.Get(id.stringID)
              case Some(p) => Some(PodObject(p))
              case None => None)
    else if id.Type == EXCHANGEOFFER then
      Success(match game.world.offers.Get(offerKey)
              case Some(o) => Some(OfferObject(o))
              case None => None)
    else
      Failure(NotImplemented)
  }

  /**
   * `ResolveIdentifier(game, identifier)`, as written: the EXCHANGEOFFER
   * branch looks up the offer type whose ordinal is the kind tag itself.
   * It throws exactly for tags that name no entity kind, and whatever it
   * finds is an object of the kind the tag names; a gadget, gordo or
   * treasure pod is the entry its data set stores under `stringID`, and an
   * offer is the one stored under the offer type whose ordinal is
   * EXCHANGEOFFER's.
   */
  function ResolveIdentifier(game: GameV12, id: DataIdentifier): (r: Result<Option<Object>, Exception>)
    ensures r.Failure? <==> !IsEntityKind(id.Type)
    ensures r.Success? && r.value.Some? ==> RecordIdentifierType(RuntimeType(r.value.value)) == id.Type
    ensures id.Type == GADGET ==> r == Success(
      if id.stringID in game.world.placedGadgets.entries then Some(GadgetObject(game.world.placedGadgets.entries[id.stringID])) else None)
    ensures id.Type == GORDO ==> r == Success(
      if id.stringID in game.world.gordos.entries then Some(GordoObject(game.world.gordos.entries[id.stringID])) else None)
    ensures id.Type == TREASUREPOD ==> r == Success(
      if id.stringID in game.world.treasurePods.entries then Some(PodObject(game.world.treasurePods.entries[id.stringID])) else None)
    ensures id.Type == EXCHANGEOFFER ==> r == Success(
      if EXCHANGEOFFER in game.world.offers.entries then Some(OfferObject(game.world.offers.entries[EXCHANGEOFFER])) else None)
  {
    var r := ResolveWithOfferKey(game, id, id.Type);
    if r.Success? && r.value.Some? then
      RecordIdentifierTypeOfRecord(RuntimeType(r.value.value).record);
      r
    else
      r
  }

  /**
   * `TryResolveIdentifier(game, identifier, out obj)`: the result of
   * `ResolveIdentifier` and whether it is non-null; an exception propagates.
   */
  function TryResolveIdentifier(game: GameV12, id: DataIdentifier): (r: Result<(bool, Option<Object>), Exception>)
    ensures r.Failure? <==> !IsEntityKind(id.Type)
    ensures r.Success? ==> r.value.1 == ResolveIdentifier(game, id).value
    ensures r.Success? ==> (r.value.0 <==> r.value.1.Some?)
  {
    match ResolveIdentifier(game, id)
    case Failure(e) => Failure(e)
    case Success(obj) => Success((obj != None, obj))
  }

  /**
   * Whether the world holds an entity under the key an identifier of an
   * entity kind carries; offers are keyed by `longID` read as an offer type.
   */
  ghost predicate Present(game: GameV12, id: DataIdentifier) {
    || (id.Type == ACTOR && exists a :: a in game.actors && a.actorId == id.longID)
    || (id.Type == GADGET && id.stringID in game.world.placedGadgets.entries)
    || (id.Type == LANDPLOT && exists p :: p in game.ranch.plots && p.id == id.stringID)
    || (id.Type == GORDO && id.stringID in game.world.gordos.entries)
    || (id.Type == TREASUREPOD && id.stringID in game.world.treasurePods.entries)
    || (id.Type == EXCHANGEOFFER && Wrap32(id.longID as int) in game.world.offers.entries)
  }

  /**
   * Not found is not an error: for the kinds other than EXCHANGEOFFER,
   * `TryResolveIdentifier` succeeds and reports true exactly when the world
   * holds an entity under the identifier's key; for NONE and unnamed tags
   * it throws instead of reporting false.
   */
  lemma TryResolveFindsIffPresent(game: GameV12, id: DataIdentifier)
    ensures !IsEntityKind(id.Type) ==> TryResolveIdentifier(game, id) == Failure(NotImplemented)
    ensures IsEntityKind(id.Type) && id.Type != EXCHANGEOFFER ==>
      TryResolveIdentifier(game, id).Success? && (TryResolveIdentifier(game, id).value.0 <==> Present(game, id))
  {
    if id.Type == ACTOR {
      var p := (a: Actor) => a.actorId == id.longID;
      if exists a :: a in game.actors && a.actorId == id.longID {
        var a :| a in game.actors && a.actorId == id.longID;
        var i :| 0 <= i < |game.actors| && game.actors[i] == a;
        assert p(game.actors[i]);
      }
    } else if id.Type == LANDPLOT {
      var p := (q: LandPlot) => id.stringID == q.id;
      if exists q :: q in game.ranch.plots && q.id == id.stringID {
        var q :| q in game.ranch.plots && q.id == id.stringID;
        var i :| 0 <= i < |game.ranch.plots| && game.ranch.plots[i] == q;
        assert p(game.ranch.plots[i]);
      }
    }
  }

  /** An ACTOR identifier resolves to the first actor in the list whose id is its `longID`. */
  lemma ResolveActorIsFirstMatch(game: GameV12, id: DataIdentifier, i: nat)
    requires id.Type == ACTOR
    requires i < |game.actors| && game.actors[i].actorId == id.longID
    requires forall j :: 0 <= j < i ==> game.actors[j].actorId != id.longID
    ensures ResolveIdentifier(game, id) == Success(Some(ActorObject(game.actors[i])))
  {
    Linq.FirstOrDefaultIsFirst(game.actors, (a: Actor) => a.actorId == id.longID, i);
  }

  /** A LANDPLOT identifier resolves to the first plot in the ranch whose id is its `stringID`. */
  lemma ResolvePlotIsFirstMatch(game: GameV12, id: DataIdentifier, i: nat)
    requires id.Type == LANDPLOT
    requires i < |game.ranch.plots| && game.ranch.plots[i].id == id.stringID
    requires forall j :: 0 <= j < i ==> game.ranch.plots[j].id != id.stringID
    ensures ResolveIdentifier(game, id) == Success(Some(PlotObject(game.ranch.plots[i])))
  {
    Linq.FirstOrDefaultIsFirst(game.ranch.plots, (p: LandPlot) => id.stringID == p.id, i);
  }

  /** `GetActorIdentifier(n)` resolves to an actor exactly when some actor has id `n`, and that actor has id `n`. */
  lemma ResolveActorIdentifier(game: GameV12, n: int64)
    ensures ResolveIdentifier(game, GetActorIdentifier(n)).Success?
    ensures ResolveIdentifier(game, GetActorIdentifier(n)).value.Some? <==> exists a :: a in game.actors && a.actorId == n
    ensures ResolveIdentifier(game, GetActorIdentifier(n)).value.Some? ==>
      var obj := ResolveIdentifier(game, GetActorIdentifier(n)).value.value;
      obj.ActorObject? && obj.actor in game.actors && obj.actor.actorId == n
  {
    TryResolveFindsIffPresent(game, GetActorIdentifier(n));
  }

  /**
   * As written, an EXCHANGEOFFER identifier resolves to the offer stored
   * under the offer type whose ordinal is EXCHANGEOFFER's, whatever its
   * `longID` is.
   */
  lemma ResolveOfferIgnoresLongID(game: GameV12, id: DataIdentifier, n: int64)
    requires id.Type == EXCHANGEOFFER
    ensures ResolveIdentifier(game, id) == ResolveIdentifier(game, id.(longID := n))
    ensures ResolveIdentifier(game, id).value.Some? <==> EXCHANGEOFFER in game.world.offers.entries
  {
  }

  /**
   * The corrected `GetIdentifier`: the kind tag is the kind whose record
   * type is the object's runtime type, looked up in `IdentifierTypeToData`.
   */
  function GetIdentifierCorrected(game: GameV12, obj: Object): (r: Result<DataIdentifier, Exception>)
    ensures r.Failure? <==> obj.OtherObject?
    ensures r.Failure? <==> !RuntimeType(obj).Record?
    ensures r.Success? ==> IsEntityKind(r.value.Type) && IdentifierTypeToData[r.value.Type] == RuntimeType(obj)
  {
    match IdentifierKey(game, obj)
    case Failure(e) => Failure(e)
    case Success((stringId, longId)) =>
      RecordIdentifierTypeOfRecord(RuntimeType(obj).record);
      Success(DataIdentifier(RecordIdentifierType(RuntimeType(obj)), longId, stringId))
  }

  /**
   * The corrected `ResolveIdentifier`: an offer is looked up by `longID` cast
   * to an offer type, and the result is the offer stored under that type.
   */
  function ResolveIdentifierCorrected(game: GameV12, id: DataIdentifier): (r: Result<Option<Object>, Exception>)
    ensures r.Failure? <==> !IsEntityKind(id.Type)
    ensures id.Type != EXCHANGEOFFER ==> r == ResolveIdentifier(game, id)
    ensures IsEntityKind(id.Type) ==> (r.value.Some? <==> Present(game, id))
    ensures id.Type == EXCHANGEOFFER ==> r == Success(
      if Wrap32(id.longID as int) in game.world.offers.entries
      then Some(OfferObject(game.world.offers.entries[Wrap32(id.longID as int)]))
      else None)
  {
    TryResolveFindsIffPresent(game, id);
    ResolveWithOfferKey(game, id, Wrap32(id.longID as int))
  }

  /**
   * An object the world holds where resolution can find it: the only actor
   * with its id, a value of its data set (whose reverse lookup is a partial
   * inverse of `Get`), or the only plot with its id.
   */
  ghost predicate Stored(game: GameV12, obj: Object) {
    match obj
    case ActorObject(a) => a in game.actors && forall b :: b in game.actors && b.actorId == a.actorId ==> b == a
    case GadgetObject(g) => game.world.placedGadgets.Valid() && g in game.world.placedGadgets.entries.Values
    case GordoObject(g) => game.world.gordos.Valid() && g in game.world.gordos.entries.Values
    case PodObject(p) => game.world.treasurePods.Valid() && p in game.world.treasurePods.entries.Values
    case OfferObject(o) => game.world.offers.Valid() && o in game.world.offers.entries.Values
    case PlotObject(p) => p in game.ranch.plots && forall q :: q in game.ranch.plots && q.id == p.id ==> q == p
    case OtherObject(_) => false
  }

  /** The actor case of `IdentifyThenResolve`: the first actor with the stored actor's id is that actor. */
  lemma IdentifyThenResolveActor(game: GameV12, a: Actor)
    requires Stored(game, ActorObject(a))
    ensures GetIdentifierCorrected(game, ActorObject(a)) == Success(DataIdentifier(ACTOR, a.actorId, None))
    ensures ResolveIdentifierCorrected(game, DataIdentifier(ACTOR, a.actorId, None)) == Success(Some(ActorObject(a)))
  {
    RecordIdentifierTypeOfRecord(ActorDataV09);
    var id := DataIdentifier(ACTOR, a.actorId, None);
    var i :| 0 <= i < |game.actors| && game.actors[i] == a;
    var k := Linq.FirstIndex(game.actors, (b: Actor) => b.actorId == id.longID);
    assert k.Some? && game.actors[k.value] == a;
    ResolveActorIsFirstMatch(game, id, k.value);
  }

  /** The plot case of `IdentifyThenResolve`: the first plot with the stored plot's id is that plot. */
  lemma IdentifyThenResolvePlot(game: GameV12, p: LandPlot)
    requires Stored(game, PlotObject(p))
    ensures GetIdentifierCorrected(game, PlotObject(p)) == Success(DataIdentifier(LANDPLOT, 0, p.id))
    ensures ResolveIdentifierCorrected(game, DataIdentifier(LANDPLOT, 0, p.id)) == Success(Some(PlotObject(p)))
  {
    RecordIdentifierTypeOfRecord(LandPlotV08);
    var id := DataIdentifier(LANDPLOT, 0, p.id);
    var i :| 0 <= i < |game.ranch.plots| && game.ranch.plots[i] == p;
    var k := Linq.FirstIndex(game.ranch.plots, (q: LandPlot) => id.stringID == q.id);
    assert k.Some? && game.ranch.plots[k.value] == p;
    ResolvePlotIsFirstMatch(game, id, k.value);
  }

  /** Identify then resolve, corrected: resolving the identifier of a stored object gives back that object. */
  lemma IdentifyThenResolve(game: GameV12, obj: Object)
    requires Stored(game, obj)
    ensures GetIdentifierCorrected(game, obj).Success?
    ensures ResolveIdentifierCorrected(game, GetIdentifierCorrected(game, obj).value) == Success(Some(obj))
  {
    match obj
    case ActorObject(a) => IdentifyThenResolveActor(game, a);
    case PlotObject(p) => IdentifyThenResolvePlot(game, p);
    case GadgetObject(g) =>
      RecordIdentifierTypeOfRecord(PlacedGadgetV08);
      assert GetIdentifierCorrected(game, obj).value == DataIdentifier(GADGET, 0, game.world.placedGadgets.keyOfValue(g));
    case GordoObject(g) =>
      RecordIdentifierTypeOfRecord(GordoV01);
      assert GetIdentifierCorrected(game, obj).value == DataIdentifier(GORDO, 0, game.world.gordos.keyOfValue(g));
    case PodObject(p) =>
      RecordIdentifierTypeOfRecord(TreasurePodV01);
      assert GetIdentifierCorrected(game, obj).value == DataIdentifier(TREASUREPOD, 0, game.world.treasurePods.keyOfValue(p));
    case OfferObject(o) =>
      RecordIdentifierTypeOfRecord(ExchangeOfferV04);
      assert GetIdentifierCorrected(game, obj).value == DataIdentifier(EXCHANGEOFFER, game.world.offers.keyOfValue(o) as int64, None);
  }

  /**
   * As written, `GetIdentifier` asks the data-set table about a record type,
   * so, unless a record type derives from a data-set type, every identifier
   * it builds has kind NONE, and resolving that identifier throws.
   */
  lemma GetIdentifierTagsNone(assignable: (TypeDescriptor, TypeDescriptor) -> bool, game: GameV12, obj: Object)
    requires !obj.OtherObject?
    requires forall e, r :: !assignable(VersionedPersistedDataSet(e), Record(r))
    ensures GetIdentifier(assignable, game, obj).Success?
    ensures GetIdentifier(assignable, game, obj).value.Type == NONE
    ensures ResolveIdentifier(game, GetIdentifier(assignable, game, obj).value) == Failure(NotImplemented)
  {
    GetIdentifierTypeOfRecordIsNone(assignable, RuntimeType(obj).record);
  }

  /**
   * An offer stored under offer type 3 is identified with `longID` 3; the
   * as-written resolution looks under offer type 6 and finds nothing, the
   * corrected one finds the offer.
   */
  lemma OfferLookupByKindOrdinal()
    ensures
      var offer := ExchangeOffer(0);
      var game := GameV12([], WorldData(
          PersistedSet(map[], (g: PlacedGadget) => None),
          PersistedSet(map[], (g: Gordo) => None),
          PersistedSet(map[], (p: TreasurePod) => None),
          PersistedSet(map[3 := offer], (o: ExchangeOffer) => 3)),
        RanchData([]));
      var id := GetIdentifierCorrected(game, OfferObject(offer)).value;
      && id == DataIdentifier(EXCHANGEOFFER, 3, None)
      && ResolveIdentifier(game, id) == Success(None)
      && ResolveIdentifierCorrected(game, id) == Success(Some(OfferObject(offer)))
  {
    RecordIdentifierTypeOfRecord(ExchangeOfferV04);
  }
}
