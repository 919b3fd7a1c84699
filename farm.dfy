// The deterministic part of the farm animation (assignment 2): objects placed
// on a bounded field, the shared food queue and manure list that each hold at
// most 20 entries, and the sweep that clears old manure on every frame.
// Coordinates are exact reals; the wind's directions and the clock are
// parameters.

module Farm {

  /** A JavaFX colour, by name. */
  datatype Color = Named(name: string)

  const Orange: Color := Named("ORANGE")
  /** Color.BROWN.darker().darker(). */
  const DarkBrown: Color := Named("BROWN.darker().darker()")

  /** The bounds setCoordinates keeps a farm object in. */
  const MinX: real := 10.0
  const MaxX: real := 80.0
  const MinY: real := 10.0
  const MaxY: real := 100.0

  /** The most entries the food queue and the manure list hold. */
  const Capacity: nat := 20

  /** Manure this many milliseconds old or older is cleared. */
  const ManureLifetime: int := 10000

  /** v moved to the nearest point of [lo, hi]. */
  function Clamp(v: real, lo: real, hi: real): (r: real)
    requires lo <= hi
    ensures lo <= r <= hi
    ensures lo <= v <= hi ==> r == v
    ensures v < lo ==> r == lo
    ensures hi < v ==> r == hi
  {
    if v < lo then lo else if v > hi then hi else v
  }

  /** Clamping twice is clamping once. */
  lemma ClampIdempotent(v: real, lo: real, hi: real)
    requires lo <= hi
    ensures Clamp(Clamp(v, lo, hi), lo, hi) == Clamp(v, lo, hi)
  {
  }

  /** A clamped point is the in-bounds point nearest to the requested one. */
  lemma ClampNearest(v: real, lo: real, hi: real, w: real)
    requires lo <= hi && lo <= w <= hi
    ensures Dist(Clamp(v, lo, hi), v) <= Dist(w, v)
  {
  }

  function Dist(a: real, b: real): real
  {
    if a < b then b - a else a - b
  }

  class FarmObject {
    var appearance: string
    var color: Color
    var x: real
    var y: real

    /** The four-argument constructor: the point is stored as given, not clamped. */
    constructor (appearance: string, color: Color, x: real, y: real)
      ensures this.appearance == appearance && this.color == color
      ensures this.x == x && this.y == y
    {
      this.appearance := appearance;
      this.color := color;
      this.x := x;
      this.y := y;
    }

    /** The two-argument constructor: the object starts at (0, 0), outside the bounds. */
    constructor AtOrigin(appearance: string, color: Color)
      ensures this.appearance == appearance && this.color == color
      ensures x == 0.0 && y == 0.0
    {
      this.appearance := appearance;
      this.color := color;
      x := 0.0;
      y := 0.0;
    }

    predicate InBounds()
      reads this
    {
      MinX <= x <= MaxX && MinY <= y <= MaxY
    }

    /**
     * setCoordinates: x is clamped into [10, 80] and y into [10, 100]; the
     * appearance and colour are untouched.
     */
    method SetCoordinates(x: real, y: real)
      modifies this
      ensures this.x == Clamp(x, MinX, MaxX) && this.y == Clamp(y, MinY, MaxY)
      ensures appearance == old(appearance) && color == old(color)
      ensures InBounds()
    {
      var x, y := x, y;
      if x < MinX {
        x := MinX;
      } else if x > MaxX {
        x := MaxX;
      }
      if y < MinY {
        y := MinY;
      } else if y > MaxY {
        y := MaxY;
      }
      this.x := x;
      this.y := y;
    }
  }

  /** new Food(x, y): an orange "%" at the given point. */
  method NewFood(x: real, y: real) returns (food: FarmObject)
    ensures fresh(food)
    ensures food.appearance == "%" && food.color == Orange && food.x == x && food.y == y
  {
    food := new FarmObject("%", Orange, x, y);
  }

  /**
   * blowFoodVertical: y moves by the wind's forward direction; both
   * coordinates are then clamped, so food placed outside the bounds is
   * pulled in even along the axis the wind does not touch.
   */
  method BlowFoodVertical(food: FarmObject, blowingForward: int)
    modifies food
    ensures food.y == Clamp(old(food.y) + blowingForward as real, MinY, MaxY)
    ensures food.x == Clamp(old(food.x), MinX, MaxX)
    ensures food.appearance == old(food.appearance) && food.color == old(food.color)
  {
    food.SetCoordinates(food.x, food.y + blowingForward as real);
  }

  /** blowFoodHorizontal: x moves by the wind's right direction; both coordinates are then clamped. */
  method BlowFoodHorizontal(food: FarmObject, blowingRight: int)
    modifies food
    ensures food.x == Clamp(old(food.x) + blowingRight as real, MinX, MaxX)
    ensures food.y == Clamp(old(food.y), MinY, MaxY)
    ensures food.appearance == old(food.appearance) && food.color == old(food.color)
  {
    food.SetCoordinates(food.x + blowingRight as real, food.y);
  }

  /** Food already in bounds and a calm wind: blowing leaves it where it is. */
  lemma CalmWindKeepsPlace(x: real, y: real)
    requires MinX <= x <= MaxX && MinY <= y <= MaxY
    ensures Clamp(x + 0 as real, MinX, MaxX) == x && Clamp(y + 0 as real, MinY, MaxY) == y
  {
  }

  /** Manure: a farm object stamped with the clock reading when it was made. */
  class Manure {
    const body: FarmObject
    /** The clock reading, in milliseconds, at construction; it never changes. */
    const manureAge: int

    /** new Manure(x, y) at clock reading `now`: a dark brown "*" at the given point, not clamped. */
    constructor (x: real, y: real, now: int)
      ensures fresh(body)
      ensures body.appearance == "*" && body.color == DarkBrown && body.x == x && body.y == y
      ensures manureAge == now
    {
      body := new FarmObject("*", DarkBrown, x, y);
      manureAge := now;
    }
  }

  /** Manure at least ManureLifetime milliseconds old at clock reading `now`. */
  predicate Expired(m: Manure, now: int)
  {
    now - m.manureAge >= ManureLifetime
  }

  // ---------------------------------------------------------------------------
  // the capped collections

  /** What the capped add makes of a list: the item is appended only below the capacity. */
  function Added<T>(list: seq<T>, item: T): seq<T>
  {
    if |list| < Capacity then list + [item] else list
  }

  /** The cap holds: an add never takes a list past 20 entries, and never drops any. */
  lemma AddedBounded<T>(list: seq<T>, item: T)
    ensures |list| <= Capacity ==> |Added(list, item)| <= Capacity
    ensures list <= Added(list, item)
    ensures |Added(list, item)| == if |list| < Capacity then |list| + 1 else |list|
  {
  }

  /** The manure that survives the sweep as intended: every entry not expired, in order. */
  function Fresh(list: seq<Manure>, now: int): (r: seq<Manure>)
  {
    if list == [] then []
    else (if Expired(list[0], now) then [] else [list[0]]) + Fresh(list[1..], now)
  }

  /**
   * The manure that survives the sweep as written: after a removal the
   * entry that moves into the freed place is passed over, kept whether or
   * not it has expired.
   */
  function SweptAsWritten(list: seq<Manure>, now: int): (r: seq<Manure>)
  {
    if list == [] then []
    else if !Expired(list[0], now) then [list[0]] + SweptAsWritten(list[1..], now)
    else if |list| == 1 then []
    else [list[1]] + SweptAsWritten(list[2..], now)
  }

  /**
   * The static food queue and manure list, with the capacity both are
   * meant to respect.
   */
  class Field {
    var animalFood: seq<FarmObject>
    var manureList: seq<Manure>

    ghost predicate Valid()
      reads this
    {
      |animalFood| <= Capacity && |manureList| <= Capacity
    }

    constructor ()
      ensures animalFood == [] && manureList == [] && Valid()
    {
      animalFood := [];
      manureList := [];
    }

    /** Food.add: the food is queued only when fewer than 20 are queued. */
    method AddFood(food: FarmObject)
      requires Valid()
      modifies this
      ensures animalFood == Added(old(animalFood), food) && manureList == old(manureList)
      ensures Valid()
    {
      if |animalFood| < Capacity {
        animalFood := animalFood + [food];
      }
      AddedBounded(old(animalFood), food);
    }

    /** Manure.add: the manure is listed only when fewer than 20 are listed. */
    method AddManure(poop: Manure)
      requires Valid()
      modifies this
      ensures manureList == Added(old(manureList), poop) && animalFood == old(animalFood)
      ensures Valid()
    {
      if |manureList| < Capacity {
        manureList := manureList + [poop];
      }
      AddedBounded(old(manureList), poop);
    }

    /**
     * The manure loop of both frame handlers as written: walks the list by
     * index and removes each expired entry, moving on to the next index
     * even after a removal.
     */
    method SweepManureAsWritten(now: int)
      requires Valid()
      modifies this
      ensures manureList == SweptAsWritten(old(manureList), now) && animalFood == old(animalFood)
      ensures Valid()
    {
      var i := 0;
      while i < |manureList|
        invariant 0 <= i <= |manureList| + 1 && |manureList| <= |old(manureList)|
        invariant SweptAsWritten(old(manureList), now) == SweptFrom(manureList, i, now)
        invariant animalFood == old(animalFood)
      {
        AsWrittenStep(manureList, i, now);
        if Expired(manureList[i], now) {
          manureList := manureList[..i] + manureList[i + 1..];
        }
        i := i + 1;
      }
      AsWrittenDone(manureList, i, now);
    }

    /**
     * The sweep as intended: an expired entry is removed and the index stays
     * put, so the entry moving into its place is examined next.
     */
    method SweepManure(now: int)
      requires Valid()
      modifies this
      ensures manureList == Fresh(old(manureList), now) && animalFood == old(animalFood)
      ensures Valid()
    {
      var i := 0;
      while i < |manureList|
        invariant 0 <= i <= |manureList| <= |old(manureList)|
        invariant Fresh(old(manureList), now) == manureList[..i] + Fresh(manureList[i..], now)
        invariant animalFood == old(animalFood)
        decreases |manureList| - i
      {
        FreshStep(manureList, i, now);
        if Expired(manureList[i], now) {
          manureList := manureList[..i] + manureList[i + 1..];
        } else {
          i := i + 1;
        }
      }
      assert manureList[i..] == [];
      assert manureList[..i] == manureList;
    }
  }

  // ---------------------------------------------------------------------------
  // one step of each sweep

  /**
   * What the sweep as written will leave, with the entries before index i
   * already passed (index i may lie one past the end, after the last entry
   * was removed).
   */
  function SweptFrom(list: seq<Manure>, i: nat, now: int): seq<Manure>
  {
    if i <= |list| then list[..i] + SweptAsWritten(list[i..], now) else list
  }

  lemma AsWrittenStep(list: seq<Manure>, i: nat, now: int)
    requires i < |list|
    ensures Expired(list[i], now) ==> SweptFrom(list, i, now) == SweptFrom(list[..i] + list[i + 1..], i + 1, now)
    ensures !Expired(list[i], now) ==> SweptFrom(list, i, now) == SweptFrom(list, i + 1, now)
  {
    var rest := list[i..];
    if Expired(list[i], now) {
      var next := list[..i] + list[i + 1..];
      if i + 1 < |list| {
        assert rest[1] == list[i + 1] && rest[2..] == list[i + 2..];
        assert next[..i + 1] == list[..i] + [list[i + 1]];
        assert next[i + 1..] == list[i + 2..];
      } else {
        assert next == list[..i];
      }
    } else {
      assert rest[1..] == list[i + 1..];
      assert list[..i + 1] == list[..i] + [list[i]];
    }
  }

  lemma AsWrittenDone(list: seq<Manure>, i: nat, now: int)
    requires |list| <= i
    ensures SweptFrom(list, i, now) == list
  {
    if i == |list| {
      assert list[i..] == [];
      assert list[..i] == list;
    }
  }

  lemma FreshStep(list: seq<Manure>, i: nat, now: int)
    requires i < |list|
    ensures Expired(list[i], now) ==>
      list[..i] + Fresh(list[i..], now) == (list[..i] + list[i + 1..])[..i] + Fresh((list[..i] + list[i + 1..])[i..], now)
    ensures !Expired(list[i], now) ==>
      list[..i] + Fresh(list[i..], now) == list[..i + 1] + Fresh(list[i + 1..], now)
  {
    var rest := list[i..];
    assert rest[1..] == list[i + 1..];
    var next := list[..i] + list[i + 1..];
    assert next[..i] == list[..i];
    assert next[i..] == list[i + 1..];
    assert list[..i + 1] == list[..i] + [list[i]];
  }

  // ---------------------------------------------------------------------------
  // what the sweeps keep

  /** The intended sweep keeps exactly the entries that have not expired, in their order. */
  lemma {:induction false} FreshExact(list: seq<Manure>, now: int)
    ensures forall m :: m in Fresh(list, now) <==> m in list && !Expired(m, now)
    ensures |Fresh(list, now)| <= |list|
    ensures multiset(Fresh(list, now)) <= multiset(list)
  {
    if list != [] {
      var head := if Expired(list[0], now) then [] else [list[0]];
      var rest := Fresh(list[1..], now);
      FreshExact(list[1..], now);
      assert list == [list[0]] + list[1..];
      assert Fresh(list, now) == head + rest;
      assert multiset(head) <= multiset([list[0]]);
    }
  }

  /** Sweeping twice clears nothing more. */
  lemma {:induction false} FreshIdempotent(list: seq<Manure>, now: int)
    ensures Fresh(Fresh(list, now), now) == Fresh(list, now)
  {
    if list != [] {
      FreshIdempotent(list[1..], now);
      FreshAppend(if Expired(list[0], now) then [] else [list[0]], Fresh(list[1..], now), now);
    }
  }

  lemma {:induction false} FreshAppend(a: seq<Manure>, b: seq<Manure>, now: int)
    ensures Fresh(a + b, now) == Fresh(a, now) + Fresh(b, now)
  {
    if a == [] {
      assert a + b == b;
    } else {
      assert (a + b)[1..] == a[1..] + b;
      FreshAppend(a[1..], b, now);
    }
  }

  /**
   * The sweep as written never removes manure that has not expired, never
   * adds any, and keeps the order: the entries that have not expired are
   * the same before and after.
   */
  lemma {:induction false} SweptKeepsFresh(list: seq<Manure>, now: int)
    ensures Fresh(SweptAsWritten(list, now), now) == Fresh(list, now)
  {
    if list != [] && !Expired(list[0], now) {
      var rest := SweptAsWritten(list[1..], now);
      SweptKeepsFresh(list[1..], now);
      FreshAppend([list[0]], rest, now);
      assert Fresh([list[0]], now) == [list[0]];
    } else if |list| >= 2 {
      var x, rest := list[1], SweptAsWritten(list[2..], now);
      SweptKeepsFresh(list[2..], now);
      FreshAppend([x], rest, now);
      assert list[1..][1..] == list[2..];
      assert Fresh([x], now) == (if Expired(x, now) then [] else [x]) + Fresh([], now);
      assert Fresh(list[1..], now) == (if Expired(x, now) then [] else [x]) + Fresh(list[2..], now);
    }
  }

  /** The sweep as written only removes entries. */
  lemma {:induction false} SweptShrinks(list: seq<Manure>, now: int)
    ensures multiset(SweptAsWritten(list, now)) <= multiset(list)
    ensures |SweptAsWritten(list, now)| <= |list|
  {
    if list != [] && !Expired(list[0], now) {
      SweptShrinks(list[1..], now);
      assert list == [list[0]] + list[1..];
    } else if |list| >= 2 {
      SweptShrinks(list[2..], now);
      assert list == [list[0]] + ([list[1]] + list[2..]);
    }
  }

  /** Two expired entries in a row: the sweep as written leaves the second one. */
  lemma SweepSkipsExpired(m1: Manure, m2: Manure, now: int)
    requires Expired(m1, now) && Expired(m2, now)
    ensures SweptAsWritten([m1, m2], now) == [m2]
    ensures Fresh([m1, m2], now) == []
  {
    assert [m1, m2][2..] == [];
    assert [m1, m2][1..] == [m2];
    assert [m2][1..] == [];
    assert Fresh([m2], now) == [] + Fresh([], now);
  }

  /** When everything has expired, the sweep as written clears only half of it, rounded up. */
  lemma {:induction false} AllExpiredHalfSwept(list: seq<Manure>, now: int)
    requires forall k :: 0 <= k < |list| ==> Expired(list[k], now)
    ensures |SweptAsWritten(list, now)| == |list| / 2
  {
    if |list| >= 2 {
      AllExpiredHalfSwept(list[2..], now);
    }
  }
}
