module Options {
  datatype Option<+T> = None | Some(value: T)
}

module Sequences {
  ghost predicate Distinct<T>(s: seq<T>) { forall i, j | 0 <= i < j < |s| :: s[i] != s[j] }
}

/** The order on what one node believes about one member: an incarnation
    number first, and the strength of the claimed state second. */
module Views {
  import opened Options

  type Id = string

  datatype State = Alive | Suspect | Dead

  function Rank(s: State): nat {
    match s
    case Alive => 0
    case Suspect => 1
    case Dead => 2
  }

  datatype View = View(incarnation: nat, state: State)

  predicate Le(a: View, b: View) {
    a.incarnation < b.incarnation ||
    (a.incarnation == b.incarnation && Rank(a.state) <= Rank(b.state))
  }

  /** An unknown member lies below every view. */
  predicate Below(a: Option<View>, b: Option<View>) {
    a.None? || (b.Some? && Le(a.value, b.value))
  }

  function Join(a: Option<View>, b: Option<View>): Option<View> {
    if Below(a, b) then b else a
  }

  /** The position of a view in the total order, counted from an unknown member. */
  function Height(v: Option<View>): nat {
    match v
    case None => 0
    case Some(w) => 3 * w.incarnation + Rank(w.state) + 1
  }

  /** `top` is the least upper bound of `bottom` and all of `claims`. */
  ghost predicate IsSup(bottom: Option<View>, claims: set<View>, top: Option<View>) {
    && Below(bottom, top)
    && (forall v :: v in claims ==> Below(Some(v), top))
    && (top == bottom || (top.Some? && top.value in claims))
  }

  lemma SupIsUnique(bottom: Option<View>, claims: set<View>, a: Option<View>, b: Option<View>)
    requires IsSup(bottom, claims, a) && IsSup(bottom, claims, b)
    ensures a == b
  {
    assert Below(a, b) && Below(b, a);
  }
}
