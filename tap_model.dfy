/** Tap events as the reader hands them to the trip reconstruction. */
module TapModels {
  import opened Wrappers

  /** The placeholder text of the sentinel taps, and the destination of a trip that never closed. */
  const Unknown: string := "UNKNOWN"

  /** The tap types the engine compares against: the two real ones and the two sentinels. */
  datatype TapType = On | Off | GroupHead | GroupTail

  /**
   * One validator event. `dateTimeUtc` is in whole seconds; `None` stands for the
   * null timestamp of the sentinels. `id` is carried but never read by the core.
   */
  datatype Tap = Tap(
    id: int,
    dateTimeUtc: Option<int>,
    tapType: TapType,
    stopId: string,
    companyId: string,
    busId: string,
    pan: string)

  /** What the reader guarantees of every tap it delivers: ON or OFF, with a timestamp. */
  predicate IsRealTap(t: Tap) {
    (t.tapType == On || t.tapType == Off) && t.dateTimeUtc.Some?
  }

  /** Real taps carry a timestamp; sentinels may not. */
  predicate TimedIfReal(t: Tap) {
    (t.tapType == On || t.tapType == Off) ==> t.dateTimeUtc.Some?
  }

  predicate AllRealTaps(s: seq<Tap>) {
    forall t | t in s :: IsRealTap(t)
  }

  predicate AllTimedIfReal(s: seq<Tap>) {
    forall t | t in s :: TimedIfReal(t)
  }
}
