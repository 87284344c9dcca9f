/** Shared vocabulary of the model: optional values and the time units
    used by every component. Instants are whole seconds on one local clock;
    the caller always supplies the current instant. */
module Common {

  /** A nullable column or an absent result. */
  datatype Option<+T> = None | Some(value: T) {

    /** The value, or `default` when there is none. */
    function GetOr(default: T): T {
      match this
      case Some(v) => v
      case None => default
    }
  }

  /** A point in time, in seconds. */
  type Instant = int

  const Minute: int := 60
  const Hour: int := 3600
  const Day: int := 86400

  /** Greatest element of a finite non-empty set of integers. */
  function MaxOf(s: set<int>): (m: int)
    requires s != {}
    ensures m in s
    ensures forall x :: x in s ==> x <= m
  {
    MaxExists(s);
    var m :| m in s && forall x :: x in s ==> x <= m;
    m
  }

  /** The elements of a finite set of integers in ascending order. */
  function Ascending(s: set<int>): (r: seq<int>)
    ensures forall i, j :: 0 <= i < j < |r| ==> r[i] < r[j]
    ensures forall k :: k in r <==> k in s
    decreases |s|
  {
    if s == {} then []
    else
      var m := MaxOf(s);
      Ascending(s - {m}) + [m]
  }

  lemma MaxExists(s: set<int>)
    requires s != {}
    ensures exists m :: m in s && forall x :: x in s ==> x <= m
    decreases |s|
  {
    var y := PickOne(s);
    if s == {y} {
      assert forall x :: x in s ==> x <= y;
    } else {
      var t := s - {y};
      MaxExists(t);
      var m :| m in t && forall x :: x in t ==> x <= m;
      var top := if y > m then y else m;
      forall x | x in s ensures x <= top {
        if x != y {
          assert x in t;
        }
      }
      assert top in s;
    }
  }

  /** Some element of a non-empty set. */
  ghost function PickOne(s: set<int>): (y: int)
    requires s != {}
    ensures y in s
  {
    NonEmptyHasElement(s);
    var y :| y in s; y
  }

  lemma NonEmptyHasElement(s: set<int>)
    requires s != {}
    ensures exists y :: y in s
  {
    if forall y :: y !in s {
      assert false;
    }
  }
}
