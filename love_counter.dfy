/** The elapsed-time display of the relationship counter
    (frontend/src/components/LoveCounter.tsx): a millisecond difference
    becomes whole days, hours, minutes and seconds with Portuguese
    singular or plural labels. The clock and the start date are outside
    the model; the difference is the input. */
module LoveCounter {

  /** One displayed unit: `{ value, label }` (`label` is a Dafny keyword). */
  datatype TimeUnit = TimeUnit(value: int, name: string)

  const MsPerSecond := 1000
  const MsPerMinute := 1000 * 60
  const MsPerHour := 1000 * 60 * 60
  const MsPerDay := 1000 * 60 * 60 * 24

  /** `n === 1 ? singular : plural`. */
  function Label(n: int, singular: string, plural: string): string {
    if n == 1 then singular else plural
  }

  /** `calculateTime` for a difference of `diff` milliseconds. The
      difference is never negative past the guard, so JavaScript's
      truncating `%` and `Math.floor` of a quotient agree with Dafny's
      division and remainder here. */
  function CalculateTime(diff: int): (units: seq<TimeUnit>)
    ensures |units| == 4
    ensures units[0].name in {"dia", "dias"} && units[1].name in {"hora", "horas"}
    ensures units[2].name in {"minuto", "minutos"} && units[3].name in {"segundo", "segundos"}
    ensures forall i :: 0 <= i < 4 ==> units[i].value >= 0
  {
    if diff < 0 then
      [TimeUnit(0, "dias"), TimeUnit(0, "horas"), TimeUnit(0, "minutos"), TimeUnit(0, "segundos")]
    else
      var days := diff / MsPerDay;
      var hours := (diff % MsPerDay) / MsPerHour;
      var minutes := (diff % MsPerHour) / MsPerMinute;
      var seconds := (diff % MsPerMinute) / MsPerSecond;
      [TimeUnit(days, Label(days, "dia", "dias")),
       TimeUnit(hours, Label(hours, "hora", "horas")),
       TimeUnit(minutes, Label(minutes, "minuto", "minutos")),
       TimeUnit(seconds, Label(seconds, "segundo", "segundos"))]
  }

  /** A difference before the start date shows four zeros, all plural. */
  lemma NegativeDiffIsZero(diff: int)
    requires diff < 0
    ensures forall i :: 0 <= i < 4 ==> CalculateTime(diff)[i].value == 0
    ensures CalculateTime(diff)[0].name == "dias" && CalculateTime(diff)[1].name == "horas"
    ensures CalculateTime(diff)[2].name == "minutos" && CalculateTime(diff)[3].name == "segundos"
  {
  }

  /** Hours, minutes and seconds stay below their next unit. */
  lemma UnitsInRange(diff: int)
    ensures CalculateTime(diff)[1].value < 24
    ensures CalculateTime(diff)[2].value < 60
    ensures CalculateTime(diff)[3].value < 60
  {
    if diff >= 0 {
      var r := diff % MsPerDay;
      assert r < MsPerDay;
      assert r / MsPerHour < 24;
    }
  }

  /** The four units reassemble `diff` up to the dropped milliseconds. */
  lemma Decomposition(diff: int)
    requires diff >= 0
    ensures var u := CalculateTime(diff);
            var total := u[0].value * MsPerDay + u[1].value * MsPerHour +
                         u[2].value * MsPerMinute + u[3].value * MsPerSecond;
            total <= diff < total + 1000
  {
    var days := diff / MsPerDay;
    var rd := diff % MsPerDay;
    var hours := rd / MsPerHour;
    var rh := diff % MsPerHour;
    var minutes := rh / MsPerMinute;
    var rm := diff % MsPerMinute;
    var seconds := rm / MsPerSecond;
    assert diff == days * MsPerDay + rd;
    // A day is 24 hours, so the remainder after whole hours is the same
    // whether taken from `diff` or from what is left after whole days.
    assert rd == hours * MsPerHour + rh by {
      assert diff == (days * 24 + hours) * MsPerHour + (rd % MsPerHour);
      RemainderOfMultiple(diff, days * 24 + hours, MsPerHour, rd % MsPerHour);
    }
    assert rh == minutes * MsPerMinute + rm by {
      assert rh == minutes * MsPerMinute + (rh % MsPerMinute);
      assert diff == ((diff / MsPerHour) * 60 + minutes) * MsPerMinute + (rh % MsPerMinute);
      RemainderOfMultiple(diff, (diff / MsPerHour) * 60 + minutes, MsPerMinute, rh % MsPerMinute);
    }
    assert rm == seconds * MsPerSecond + rm % MsPerSecond;
  }

  /** If `n == q * d + r` with `0 <= r < d`, then `n % d == r`. */
  lemma RemainderOfMultiple(n: int, q: int, d: int, r: int)
    requires d > 0 && 0 <= r < d && n == q * d + r
    ensures n % d == r && n / d == q
  {
    var q2 := n / d;
    var r2 := n % d;
    assert (q - q2) * d == r2 - r;
    if q > q2 {
      MultipleAtLeast(q - q2, d);
    } else if q < q2 {
      MultipleAtLeast(q2 - q, d);
    }
  }

  lemma MultipleAtLeast(k: int, d: int)
    requires k >= 1 && d > 0
    ensures k * d >= d
  {
  }

  /** Exactly one day reads "1 dia"; every other count is plural. */
  lemma LabelsAgreeWithValues(diff: int)
    ensures var u := CalculateTime(diff);
            (u[0].name == "dia" <==> u[0].value == 1) &&
            (u[1].name == "hora" <==> u[1].value == 1) &&
            (u[2].name == "minuto" <==> u[2].value == 1) &&
            (u[3].name == "segundo" <==> u[3].value == 1)
  {
  }
}
