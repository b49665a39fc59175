/** Three-valued truth: the connectives, and the order in which `Undecided` says less. */
module Kleene {
  datatype Truth = Yes | No | Undecided

  function FromBool(b: bool): Truth {
    if b then Yes else No
  }

  function Not3(a: Truth): Truth {
    match a
    case Yes => No
    case No => Yes
    case Undecided => Undecided
  }

  function And3(a: Truth, b: Truth): Truth {
    if a.No? || b.No? then No
    else if a.Yes? && b.Yes? then Yes
    else Undecided
  }

  function Or3(a: Truth, b: Truth): Truth {
    if a.Yes? || b.Yes? then Yes
    else if a.No? && b.No? then No
    else Undecided
  }

  /** `a` says no more than `b`: it is undecided, or the same answer. */
  predicate SaysLess(a: Truth, b: Truth) {
    a.Undecided? || a == b
  }
}
