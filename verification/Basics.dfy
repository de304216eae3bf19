// Small shared vocabulary: optional values, error results and wall-clock times.
module Basics {

  datatype Option<+T> = None | Some(value: T)

  // The source returns a value together with an error; the message text is not modelled.
  datatype Result<+T> = Ok(value: T) | Err

  function Min(a: int, b: int): int { if a <= b then a else b }

  function Max(a: int, b: int): int { if a <= b then b else a }

  // An instant counted in nanoseconds from Go's zero time (0001-01-01 00:00 UTC, a
  // Monday), together with the offset of the zone the value carries.
  datatype Time = Time(nanos: int, zone: int) {
    predicate IsZero() { nanos == 0 }

    function UTC(): Time { Time(nanos, 0) }
  }
}
