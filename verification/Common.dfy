/** Types shared by every module of the model. */
module Common {

  /** The largest integer every JSON reader keeps exact. */
  const MAX_SAFE_INTEGER: nat := 9007199254740991

  type Byte = x: int | 0 <= x < 256
  type Bytes = seq<Byte>

  datatype Option<+T> = None | Some(value: T) {
    predicate IsFailure() { None? }

    function PropagateFailure<U>(): Option<U>
      requires None?
    {
      None
    }

    function Extract(): T
      requires Some?
    {
      value
    }
  }

  /** Early exit from a chain of checks. */
  function Need(condition: bool): Option<()> {
    if condition then Some(()) else None
  }

  lemma {:induction false} Subset<T>(a: set<T>, b: set<T>)
    requires a <= b
    ensures |a| <= |b|
  {
    if a != {} {
      var x :| x in a;
      Subset(a - {x}, b - {x});
    }
  }
}
