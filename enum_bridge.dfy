/**
 * The enum bridge: the one place where a save-format change can alter the
 * integer inside an identifier. Only EXCHANGEOFFER keys are offer-type
 * ordinals, so only they are passed through the translator.
 */
module EnumBridge {
  import opened Wrappers
  import opened DotNet
  import opened Identifiers
  import opened GameState

  /**
   * `TranslateWithEnum(translator, mode)`. `translator(mode, t)` stands for
   * `translator.TranslateEnum(mode, t)`. The key goes through `(int)` on its
   * way to an offer type, so its high 32 bits are dropped.
   */
  function TranslateWithEnum<Mode>(id: DataIdentifier, translator: (Mode, OfferType) -> OfferType, mode: Mode): (r: DataIdentifier)
    ensures id.Type != EXCHANGEOFFER ==> r == id
    ensures r.Type == id.Type && r.stringID == id.stringID
    ensures id.Type == EXCHANGEOFFER ==> -0x8000_0000 <= r.longID < 0x8000_0000
    ensures id.Type == EXCHANGEOFFER ==> r.longID as int == translator(mode, Wrap32(id.longID as int)) as int
  {
    if id.Type != EXCHANGEOFFER then id
    else DataIdentifier(id.Type, translator(mode, Wrap32(id.longID as int)) as int64, id.stringID)
  }

  /**
   * Translating one way and then back with inverse modes restores the
   * identifier, provided its key fits in an `int`.
   */
  lemma TranslateRoundTrip<Mode>(id: DataIdentifier, translator: (Mode, OfferType) -> OfferType, there: Mode, back: Mode)
    requires forall t :: translator(back, translator(there, t)) == t
    requires -0x8000_0000 <= id.longID < 0x8000_0000
    ensures TranslateWithEnum(TranslateWithEnum(id, translator, there), translator, back) == id
  {
    if id.Type == EXCHANGEOFFER {
      var mid := TranslateWithEnum(id, translator, there);
      assert Wrap32(mid.longID as int) == translator(there, Wrap32(id.longID as int));
    }
  }

  /** The truncation: even the identity translation drops the high word of an EXCHANGEOFFER key. */
  lemma TranslateTruncatesKey()
    ensures TranslateWithEnum(DataIdentifier(EXCHANGEOFFER, 0x1_0000_0005, None), (mode: bool, t: OfferType) => t, true)
      == DataIdentifier(EXCHANGEOFFER, 5, None)
  {
  }
}
