/** Small value types shared by every module of the model. */
module Common {

  /** Swift's optional: `nil` or a wrapped value. */
  datatype Option<+T> = None | Some(value: T) {

    /** Swift's `??` operator. */
    function GetOr(default: T): T {
      match this
      case Some(v) => v
      case None => default
    }
  }

  /** One octet of a Foundation `Data` value. */
  type byte = x: int | 0 <= x < 256

  /** Concatenation regrouped: the one regrouping step the solver needs spelled out. */
  lemma Associative<X>(a: seq<X>, b: seq<X>, c: seq<X>)
    ensures a + (b + c) == a + b + c
  {
  }
}
