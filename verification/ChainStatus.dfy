/** The two-height chain view and the process-wide cache that holds it. */
module ChainStatus {
  import opened Types

  datatype View = View(visibleTip: Option<u64>, settledTip: Option<u64>)
  {
    /** The height sits at or below the settled tip; an unknown tip settles nothing. */
    predicate IsSettledAt(height: u64) {
      settledTip.Some? && height <= settledTip.value
    }

    /** The visible tip has reached the expiry height; an unknown tip lapses nothing. */
    predicate IsLapsedAt(expiryHeight: u64) {
      visibleTip.Some? && visibleTip.value >= expiryHeight
    }
  }

  const UNKNOWN_VIEW := View(None, None)

  /** The contents of the cache's atomic fields. */
  datatype Fields = Fields(visibleTip: u64, settledTip: u64, known: bool)
  {
    function AsView(): View {
      if known then View(Some(visibleTip), Some(settledTip)) else UNKNOWN_VIEW
    }
  }

  class ChainStatusCache {
    var visibleTip: u64
    var settledTip: u64
    var known: bool
    var refreshedAt: u64

    constructor ()
      ensures AsView() == UNKNOWN_VIEW
    {
      visibleTip, settledTip, known, refreshedAt := 0, 0, false, 0;
    }

    function AsView(): View
      reads this
    {
      Fields(visibleTip, settledTip, known).AsView()
    }

    /** The four fields are written one after another, `known` last. */
    method Store(visible: u64, settled: u64, now: u64)
      modifies this
      ensures AsView() == View(Some(visible), Some(settled))
      ensures refreshedAt == now
    {
      visibleTip := visible;
      settledTip := settled;
      refreshedAt := now;
      known := true;
    }

    method Load() returns (view: View)
      ensures view == AsView()
    {
      if !known {
        return UNKNOWN_VIEW;
      }
      view := View(Some(visibleTip), Some(settledTip));
    }

    method LastRefresh() returns (at: Option<u64>)
      ensures at.Some? <==> AsView() != UNKNOWN_VIEW
      ensures at.Some? ==> at.value == refreshedAt
    {
      if !known {
        return None;
      }
      at := Some(refreshedAt);
    }
  }
}
