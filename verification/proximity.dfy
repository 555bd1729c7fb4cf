/** BaseEmulatorComponent.checkDistances: the two proximity flags. */
module Proximity {
  import opened EmulatorTypes

  const DefaultLoadDistance: real := 10.0
  const DefaultInteractDistance: real := 3.0

  /** JavaScript truthiness of a parsed number: `NaN` and 0 are falsy. */
  predicate Truthy(n: Option<real>) {
    n.Some? && n.value != 0.0
  }

  /** `parseFloat(field) || fallback`. */
  function OrDefault(parsed: Option<real>, fallback: real): (r: real)
    requires fallback != 0.0
    ensures Truthy(Some(r))
    ensures Truthy(parsed) ==> r == parsed.value
    ensures !Truthy(parsed) ==> r == fallback
  {
    if Truthy(parsed) then parsed.value else fallback
  }

  function LoadDistance(f: Fields): real {
    OrDefault(f.loadDistance, DefaultLoadDistance)
  }

  function InteractDistance(f: Fields): real {
    OrDefault(f.interactDistance, DefaultInteractDistance)
  }

  /** A configured 0 is falsy and so becomes the default, like an unset field. */
  lemma ZeroMeansDefault(f: Fields)
    ensures f.loadDistance == Some(0.0) ==> LoadDistance(f) == DefaultLoadDistance
    ensures f.interactDistance == Some(0.0) ==> InteractDistance(f) == DefaultInteractDistance
    ensures f.loadDistance.None? ==> LoadDistance(f) == DefaultLoadDistance
    ensures f.interactDistance.None? ==> InteractDistance(f) == DefaultInteractDistance
  {
  }

  /** `field || 0` for a coordinate. */
  function Coord(v: Option<real>): real {
    if v.Some? then v.value else 0.0
  }

  /** The anchor is (x, height, y): the object's height is the world y axis. */
  function Anchor(f: Fields): Vec3 {
    Vec3(Coord(f.x), Coord(f.height), Coord(f.y))
  }

  function SqDist(a: Vec3, b: Vec3): (d2: real)
    ensures d2 >= 0.0
  {
    (a.x - b.x) * (a.x - b.x) + (a.y - b.y) * (a.y - b.y) + (a.z - b.z) * (a.z - b.z)
  }

  /** `d` is the Euclidean distance between `a` and `b`: the non-negative
      square root of the squared distance. */
  predicate IsDistance(d: real, a: Vec3, b: Vec3) {
    d >= 0.0 && d * d == SqDist(a, b)
  }

  /** `Math.sqrt(d2) < limit`, without the square root. */
  predicate WithinRange(d2: real, limit: real) {
    limit > 0.0 && d2 < limit * limit
  }

  /** The squared comparison agrees with comparing the true distance. */
  lemma WithinRangeIsDistanceBelow(d: real, a: Vec3, b: Vec3, limit: real)
    requires IsDistance(d, a, b)
    ensures WithinRange(SqDist(a, b), limit) <==> d < limit
  {
    if d < limit {
      SquareLt(d, limit);
    } else if limit > 0.0 {
      SquareLe(limit, d);
    }
  }

  /** Squaring is strictly monotone on non-negative reals. */
  lemma SquareLt(x: real, y: real)
    requires 0.0 <= x < y
    ensures x * x < y * y
  {
    calc {
      x * x;
    <= { MulLe(x, y, x); }
      y * x;
    ==
      x * y;
    < { MulLt(x, y, y); }
      y * y;
    }
  }

  /** Squaring is monotone on non-negative reals. */
  lemma SquareLe(x: real, y: real)
    requires 0.0 <= x <= y
    ensures x * x <= y * y
  {
    calc {
      x * x;
    <= { MulLe(x, y, x); }
      y * x;
    ==
      x * y;
    <= { MulLe(x, y, y); }
      y * y;
    }
  }

  lemma MulLe(x: real, y: real, c: real)
    requires x <= y && c >= 0.0
    ensures x * c <= y * c
  {
    assert y * c == x * c + (y - x) * c;
  }

  lemma MulLt(x: real, y: real, c: real)
    requires x < y && c > 0.0
    ensures x * c < y * c
  {
    assert y * c == x * c + (y - x) * c;
  }

  /** checkDistances: reads the thresholds and the anchor afresh, asks the host
      for the user's position, and sets both flags. The interact flag uses
      `started` as it stands on entry. A rejected position lookup throws
      before either flag is written. */
  function CheckDistances(s: ComponentState, f: Fields, position: Option<Vec3>): (r: Result<ComponentState>)
    ensures position.None? <==> r.Err?
    ensures r.Err? ==> r.fault == PositionUnavailable
    ensures r.Ok? ==> forall d {:trigger IsDistance(d, Anchor(f), position.value)} ::
      IsDistance(d, Anchor(f), position.value) ==>
        && (r.value.userDistanceLoad <==> d < LoadDistance(f))
        && (r.value.userDistanceInteract <==> d < InteractDistance(f) && s.started)
    ensures r.Ok? ==> r.value == s.(userDistanceLoad := r.value.userDistanceLoad,
                                    userDistanceInteract := r.value.userDistanceInteract)
  {
    match position
    case None => Err(PositionUnavailable)
    case Some(p) =>
      var d2 := SqDist(Anchor(f), p);
      var r := s.(userDistanceLoad := WithinRange(d2, LoadDistance(f)),
                  userDistanceInteract := WithinRange(d2, InteractDistance(f)) && s.started);
      assert forall d {:trigger IsDistance(d, Anchor(f), p)} :: IsDistance(d, Anchor(f), p) ==>
        && (WithinRange(d2, LoadDistance(f)) <==> d < LoadDistance(f))
        && (WithinRange(d2, InteractDistance(f)) <==> d < InteractDistance(f))
      by {
        forall d | IsDistance(d, Anchor(f), p)
          ensures WithinRange(d2, LoadDistance(f)) <==> d < LoadDistance(f)
          ensures WithinRange(d2, InteractDistance(f)) <==> d < InteractDistance(f)
        {
          WithinRangeIsDistanceBelow(d, Anchor(f), p, LoadDistance(f));
          WithinRangeIsDistanceBelow(d, Anchor(f), p, InteractDistance(f));
        }
      }
      Ok(r)
  }
}
