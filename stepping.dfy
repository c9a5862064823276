/**
 * The step buttons of the slice panel: each moves the mid-level, interface-level or
 * time slider by `diff` positions and wraps around the ends of the list it indexes.
 */
module Stepping {

  /**
   * `(current + diff) % n`. Python's `%` floors; for a positive n that agrees with
   * Dafny's Euclidean `%`, so the result is never negative even when `current + diff` is.
   */
  function Wrap(current: int, diff: int, n: nat): (r: int)
    requires n > 0
    ensures 0 <= r < n
    ensures 0 <= current + diff < n ==> r == current + diff
    ensures current + diff == n ==> r == 0
    ensures current + diff == -1 ==> r == n - 1
  {
    (current + diff) % n
  }

  /** Stepping forward from the last position wraps to the first. */
  lemma WrapForward(n: nat)
    requires n > 0
    ensures Wrap(n - 1, 1, n) == 0
  {
  }

  /** Stepping back from the first position wraps to the last. */
  lemma WrapBackward(n: nat)
    requires n > 0
    ensures Wrap(0, -1, n) == n - 1
  {
  }

  /** From any position in range, one step forward and one back (or back, then forward) returns there. */
  lemma WrapRoundTrip(current: int, n: nat)
    requires 0 <= current < n
    ensures Wrap(Wrap(current, 1, n), -1, n) == current
    ensures Wrap(Wrap(current, -1, n), 1, n) == current
  {
    if current == n - 1 {
      assert Wrap(current, 1, n) == 0;
    } else {
      assert Wrap(current, 1, n) == current + 1;
    }
    if current == 0 {
      assert Wrap(current, -1, n) == n - 1;
    } else {
      assert Wrap(current, -1, n) == current - 1;
    }
  }

  /** The slider positions and the lists whose lengths bound them. */
  datatype Sliders = Sliders(vlev: int, vilev: int, tstamp: int, levCount: nat, ilevCount: nat, timeCount: nat)

  class SliceSelection {
    var vlev: int
    var vilev: int
    var tstamp: int
    /** The lengths of `state.lev`, `state.ilev` and `state.timesteps`. */
    var levCount: nat
    var ilevCount: nat
    var timeCount: nat

    function State(): Sliders
      reads this
    {
      Sliders(vlev, vilev, tstamp, levCount, ilevCount, timeCount)
    }

    constructor (levCount: nat, ilevCount: nat, timeCount: nat)
      ensures State() == Sliders(0, 0, 0, levCount, ilevCount, timeCount)
    {
      vlev, vilev, tstamp := 0, 0, 0;
      this.levCount, this.ilevCount, this.timeCount := levCount, ilevCount, timeCount;
    }

    /** `on_click_advance_middle`; `raised` marks the `ZeroDivisionError` of an empty level list. */
    method AdvanceMiddle(diff: int) returns (raised: bool)
      modifies this
      ensures raised <==> levCount == 0
      ensures raised ==> State() == old(State())
      ensures !raised ==> State() == old(State()).(vlev := Wrap(old(vlev), diff, levCount))
    {
      if levCount == 0 {
        return true;
      }
      vlev := (vlev + diff) % levCount;
      raised := false;
    }

    /** `on_click_advance_interface`, over the interface levels. */
    method AdvanceInterface(diff: int) returns (raised: bool)
      modifies this
      ensures raised <==> ilevCount == 0
      ensures raised ==> State() == old(State())
      ensures !raised ==> State() == old(State()).(vilev := Wrap(old(vilev), diff, ilevCount))
    {
      if ilevCount == 0 {
        return true;
      }
      vilev := (vilev + diff) % ilevCount;
      raised := false;
    }

    /** `on_click_advance_time`, over the time steps. */
    method AdvanceTime(diff: int) returns (raised: bool)
      modifies this
      ensures raised <==> timeCount == 0
      ensures raised ==> State() == old(State())
      ensures !raised ==> State() == old(State()).(tstamp := Wrap(old(tstamp), diff, timeCount))
    {
      if timeCount == 0 {
        return true;
      }
      tstamp := (tstamp + diff) % timeCount;
      raised := false;
    }
  }
}
