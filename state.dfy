/** The device state enumeration and its fixed display strings. */
module DeviceStates {

  /** The three states a device can be in; the constructor names are the
      enumeration's constant names, which also appear in the JSON form. */
  datatype State = AVAILABLE | INUSE | INACTIVE

  /** A display character: a lower-case ASCII letter or a hyphen. */
  predicate IsDisplayChar(c: char) {
    'a' <= c <= 'z' || c == '-'
  }

  /** The display string each constant is constructed with. */
  function Display(s: State): (r: string)
    ensures |r| > 0
    ensures forall i :: 0 <= i < |r| ==> IsDisplayChar(r[i])
  {
    match s
    case AVAILABLE => "available"
    case INUSE => "in-use"
    case INACTIVE => "inactive"
  }

  /** Different states never share a display string, so a response that
      names the new state identifies it. */
  lemma DisplayInjective(a: State, b: State)
    ensures Display(a) == Display(b) ==> a == b
  {
  }

  /** Every state is one of the three constants. */
  lemma ExactlyThreeStates(s: State)
    ensures s == AVAILABLE || s == INUSE || s == INACTIVE
    ensures Display(s) in {"available", "in-use", "inactive"}
  {
  }
}
