/**
 * The time field of the proposal forms: the value is always held in seconds,
 * and the chair may type it in seconds or in whole minutes. What the field
 * parses (`parseInt`) is given as an `Option<int>`: `None` for text that does
 * not parse.
 */
module TimeEntry {
  import opened Wrappers

  datatype TimeUnit = Seconds | Minutes

  const DefaultMin := 1
  const DefaultMax := 3600

  /** `handleValueChange`: the number of seconds reported for what was typed in the given unit;
      text that does not parse reports 0. */
  function ToSeconds(unit: TimeUnit, parsed: Option<int>): (r: int)
    ensures parsed.None? ==> r == 0
    ensures parsed.Some? && unit == Seconds ==> r == parsed.value
    ensures parsed.Some? && unit == Minutes ==> r == parsed.value * 60 && r % 60 == 0
  {
    match parsed
    case None => 0
    case Some(n) => if unit == Minutes then n * 60 else n
  }

  /** A whole number of minutes typed in minutes, or any number of seconds typed in seconds,
      reports the time it shows. */
  lemma ShownTimeReadsBack(seconds: int)
    ensures ToSeconds(Seconds, Some(seconds)) == seconds
    ensures seconds % 60 == 0 ==> ToSeconds(Minutes, Some(seconds / 60)) == seconds
  {
  }

  /** `Math.ceil(a / 60)`. */
  function CeilMinutes(a: int): (r: int)
    ensures 60 * (r - 1) < a <= 60 * r
  {
    -((-a) / 60)
  }

  /** `Math.floor(a / 60)`. */
  function FloorMinutes(a: int): (r: int)
    ensures 60 * r <= a < 60 * (r + 1)
  {
    a / 60
  }

  /** `getMinMaxForUnit`: in minutes the bounds shrink to the whole minutes inside them. */
  function Bounds(unit: TimeUnit, min: int, max: int): (int, int) {
    if unit == Minutes then (CeilMinutes(min), FloorMinutes(max)) else (min, max)
  }

  /** In either unit, a number lies within the bounds the field shows exactly when the time it
      reports lies within the bounds in seconds. */
  lemma BoundsMatchSeconds(unit: TimeUnit, min: int, max: int, n: int)
    ensures var (lo, hi) := Bounds(unit, min, max);
      lo <= n <= hi <==> min <= ToSeconds(unit, Some(n)) <= max
  {
    if unit == Minutes {
      var lo, hi := CeilMinutes(min), FloorMinutes(max);
      if lo <= n {
        assert 60 * lo <= 60 * n;
      }
      if min <= n * 60 {
        assert 60 * (lo - 1) < 60 * n;
      }
      if n <= hi {
        assert 60 * n <= 60 * hi;
      }
      if n * 60 <= max {
        assert 60 * n < 60 * (hi + 1);
      }
    }
  }

  /** With the default bounds, one second to one hour, minutes may be typed from 1 to 60. */
  lemma DefaultBounds()
    ensures Bounds(Seconds, DefaultMin, DefaultMax) == (1, 3600)
    ensures Bounds(Minutes, DefaultMin, DefaultMax) == (1, 60)
  {
  }

  class TimeInput {
    const min: int
    const max: int
    var unit: TimeUnit

    /** A new field reads seconds. */
    constructor (min: int, max: int)
      ensures this.min == min && this.max == max && unit == Seconds
    {
      this.min := min;
      this.max := max;
      unit := Seconds;
    }

    /** `handleValueChange`: what the field reports for the parsed text, in its current unit. */
    method ValueChange(parsed: Option<int>) returns (seconds: int)
      ensures seconds == ToSeconds(unit, parsed)
    {
      if parsed.Some? {
        seconds := if unit == Minutes then parsed.value * 60 else parsed.value;
      } else {
        seconds := 0;
      }
    }

    /** `handleUnitChange`: choosing the unit already in use does nothing. */
    method UnitChange(newUnit: TimeUnit)
      modifies this`unit
      ensures unit == newUnit
      ensures old(unit) == newUnit ==> unchanged(this)
    {
      if newUnit == unit {
        return;
      }
      unit := newUnit;
    }

    function CurrentBounds(): (int, int)
      reads this
    {
      Bounds(unit, min, max)
    }
  }
}
