/** The random delay added on top of a site's bump cooldown. Both bumpers carry the
    same `randomizeMinuteAndSecond` and the same bounds, so it is modelled once here. */
module Jitter {
  const MaxRandomMinute := 30
  const MinRandomMinute := 10

  /** Two results of `Math.random()`: one scales the minute, the other the second. */
  datatype Draw = Draw(minuteDraw: real, secondDraw: real)

  /** `Math.random()` returns a value in [0, 1). */
  predicate ValidDraw(d: Draw) {
    0.0 <= d.minuteDraw < 1.0 && 0.0 <= d.secondDraw < 1.0
  }

  datatype Offset = Offset(minute: int, second: int)

  /** The minute is `floor(max(10, u * 30))`, the second `floor(v * 59)`. */
  function RandomizeMinuteAndSecond(d: Draw): (o: Offset)
    requires ValidDraw(d)
    ensures MinRandomMinute <= o.minute < MaxRandomMinute
    ensures 0 <= o.second <= 58
  {
    var scaled := d.minuteDraw * MaxRandomMinute as real;
    var randomMinute := if scaled < MinRandomMinute as real then MinRandomMinute as real else scaled;
    var randomSecond := d.secondDraw * 59.0;
    Offset(randomMinute.Floor, randomSecond.Floor)
  }

  /** The offset as a number of seconds. */
  function OffsetSeconds(o: Offset): int {
    o.minute * 60 + o.second
  }

  /** Every drawn offset lies between 10 minutes and 29 minutes 58 seconds. */
  lemma OffsetSecondsBounds(d: Draw)
    requires ValidDraw(d)
    ensures 600 <= OffsetSeconds(RandomizeMinuteAndSecond(d)) <= 1798
  {
  }

  /** Conversely, every minute in [10, 29] and every second in [0, 58] is drawn by some pair of
      random values, so the bounds above are tight. */
  lemma EveryOffsetIsDrawn(minute: int, second: int)
    requires MinRandomMinute <= minute < MaxRandomMinute && 0 <= second <= 58
    ensures ValidDraw(Draw(minute as real / 30.0, second as real / 59.0))
    ensures RandomizeMinuteAndSecond(Draw(minute as real / 30.0, second as real / 59.0)) == Offset(minute, second)
  {
  }

  /** The `max` with the minimum makes minute 10 far likelier than the others: it is drawn
      exactly when the first random value is below 11/30. */
  lemma MinimumMinuteAbsorbsLowDraws(d: Draw)
    requires ValidDraw(d)
    ensures RandomizeMinuteAndSecond(d).minute == MinRandomMinute <==> d.minuteDraw < 11.0 / 30.0
  {
  }
}
