/** The source's `Option` and `Result`. */
module Wrappers {
  datatype Option<+T> = None | Some(value: T)

  datatype Result<+T, +E> = Ok(value: T) | Err(error: E)

  /** `value.clamp(low, high)`. */
  function Clamp(value: nat, low: nat, high: nat): (r: nat)
    requires low <= high
    ensures low <= r <= high
    ensures low <= value <= high ==> r == value
  {
    if value < low then low else if value > high then high else value
  }

  /** How many a request means: none asked for, `otherwise`; zero, one; more than `most`, `most`. */
  ghost function Asked(request: Option<nat>, otherwise: nat, most: nat): nat {
    match request
    case None => otherwise
    case Some(n) => if n == 0 then 1 else if n > most then most else n
  }
}
