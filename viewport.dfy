/**
 * Classification of the viewport width into the three device tiers that
 * select a per-device image source (`getDeviceType`).
 */
module Viewport {

  datatype DeviceType = Desktop | Tablet | Mobile

  /** The smallest width, in CSS pixels, that counts as desktop. */
  const DesktopMinWidth: int := 1024
  /** The smallest width, in CSS pixels, that counts as tablet. */
  const TabletMinWidth: int := 576

  /** The tier of a viewport `width` pixels wide (`getDeviceType`, reading `window.innerWidth`). */
  function GetDeviceType(width: int): (t: DeviceType)
    ensures t == Desktop <==> width >= DesktopMinWidth
    ensures t == Tablet <==> TabletMinWidth <= width < DesktopMinWidth
    ensures t == Mobile <==> width < TabletMinWidth
  {
    if width >= DesktopMinWidth then Desktop
    else if width >= TabletMinWidth then Tablet
    else Mobile
  }

  /** The string the source returns for a tier; it also names the data attribute `src_<name>`. */
  function Name(t: DeviceType): string
  {
    match t
    case Desktop => "desktop"
    case Tablet => "tablet"
    case Mobile => "mobile"
  }

  /** Tiers ordered from the narrowest to the widest viewport. */
  function Rank(t: DeviceType): nat
  {
    match t
    case Mobile => 0
    case Tablet => 1
    case Desktop => 2
  }

  /** The classification is monotone: a wider viewport never yields a narrower tier. */
  lemma TierMonotone(w1: int, w2: int)
    requires w1 <= w2
    ensures Rank(GetDeviceType(w1)) <= Rank(GetDeviceType(w2))
  {
  }

  /** The boundaries sit between 575 and 576 and between 1023 and 1024. */
  lemma TierBoundaries()
    ensures GetDeviceType(575) == Mobile && GetDeviceType(576) == Tablet
    ensures GetDeviceType(1023) == Tablet && GetDeviceType(1024) == Desktop
  {
  }

  /** Distinct tiers have distinct names, so they read distinct data attributes. */
  lemma NamesDistinct(t1: DeviceType, t2: DeviceType)
    requires Name(t1) == Name(t2)
    ensures t1 == t2
  {
  }
}
