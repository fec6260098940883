/**
  * The table store and the object operations of phylib.c.
  * A slot is `Option<Object>`: None is the NULL pointer. Objects are values, so a C function that
  * overwrites the fields of an object becomes a function returning the updated object, and the slot
  * methods of PhyTable store it back where the C code writes through the pointer.
  */
module Phylib {
  import opened Wrappers
  import opened PhylibTypes

  // ---------------------------------------------------------------------------------------------
  // Vectors

  /** phylib_sub */
  function Sub(c1: Coord, c2: Coord): Coord {
    Coord(c1.x - c2.x, c1.y - c2.y)
  }

  function SquaredLength(c: Coord): real {
    c.x * c.x + c.y * c.y
  }

  /** fabs */
  function Abs(r: real): real {
    if r < 0.0 then -r else r
  }

  /**
    * phylib_length is a square root, which Dafny cannot compute over the reals; every operation that
    * needs it takes the length function as a parameter `norm`. This is what makes `norm` a length.
    */
  ghost predicate IsLength(norm: Coord -> real) {
    forall c :: norm(c) >= 0.0 && norm(c) * norm(c) == SquaredLength(c)
  }

  /** For a non-negative length, being below a bound is the same as its square being below the bound's square. */
  lemma {:induction false} BelowBySquares(s: real, e: real)
    requires s >= 0.0 && e > 0.0
    ensures s < e <==> s * s < e * e
  {
    if s < e {
      calc {
        s * s;
      <= s * e;
      <  e * e;
      }
    } else {
      calc {
        s * s;
      >= e * s;
      >= e * e;
      }
    }
  }

  // ---------------------------------------------------------------------------------------------
  // Slot sequences

  /** The index phylib_add_object writes to: the lowest NULL slot, if there is one. */
  function FirstFree(s: seq<Option<Object>>): (r: Option<nat>)
    ensures r.Some? ==> r.value < |s| && s[r.value].None?
    ensures r.Some? ==> forall j :: 0 <= j < r.value ==> s[j].Some?
    ensures r.None? <==> forall j :: 0 <= j < |s| ==> s[j].Some?
  {
    FreeFrom(s, 0)
  }

  /** The scan of phylib_add_object's loop from slot `i` on. */
  function FreeFrom(s: seq<Option<Object>>, i: nat): (r: Option<nat>)
    requires i <= |s|
    ensures r.Some? ==> i <= r.value < |s| && s[r.value].None?
    ensures r.Some? ==> forall j :: i <= j < r.value ==> s[j].Some?
    ensures r.None? <==> forall j :: i <= j < |s| ==> s[j].Some?
    decreases |s| - i
  {
    if i == |s| then None
    else if s[i].None? then Some(i)
    else FreeFrom(s, i + 1)
  }

  /** The slots after phylib_add_object(o). */
  function AddTo(s: seq<Option<Object>>, o: Option<Object>): (r: seq<Option<Object>>)
    ensures |r| == |s|
  {
    match FirstFree(s)
    case None => s
    case Some(k) => s[k := o]
  }

  /**
    * phylib_add_object never overwrites: occupied slots are kept, the lowest NULL slot gets `o`, the
    * other NULL slots stay NULL, and a table with no NULL slot is left as it was.
    */
  lemma AddToSlots(s: seq<Option<Object>>, o: Option<Object>)
    ensures forall j :: 0 <= j < |s| && s[j].Some? ==> AddTo(s, o)[j] == s[j]
    ensures forall j :: 0 <= j < |s| && s[j].None? ==>
      AddTo(s, o)[j] == if forall i :: 0 <= i < j ==> s[i].Some? then o else None
  {
    match FirstFree(s)
    case None =>
    case Some(k) =>
      forall j | 0 <= j < |s| && s[j].None?
        ensures AddTo(s, o)[j] == if forall i :: 0 <= i < j ==> s[i].Some? then o else None
      {
        if j > k {
          assert !(forall i :: 0 <= i < j ==> s[i].Some?) by { assert s[k].None?; }
        }
      }
  }

  /** The slots after adding the objects of `xs` one after the other. */
  function AddAll(s: seq<Option<Object>>, xs: seq<Object>): (r: seq<Option<Object>>)
    ensures |r| == |s|
    decreases |xs|
  {
    if xs == [] then s else AddTo(AddAll(s, xs[..|xs| - 1]), Some(xs[|xs| - 1]))
  }

  /** The first `f` slots are occupied and all the others are NULL. */
  ghost predicate Packed(s: seq<Option<Object>>, f: nat) {
    f <= |s| && (forall j :: 0 <= j < f ==> s[j].Some?) && (forall j :: f <= j < |s| ==> s[j].None?)
  }

  lemma {:induction false} FirstFreePacked(s: seq<Option<Object>>, f: nat)
    requires Packed(s, f)
    ensures FirstFree(s) == if f < |s| then Some(f) else None
  {
    if f < |s| {
      assert s[f].None?;
    } else {
      assert forall j :: 0 <= j < |s| ==> s[j].Some?;
    }
  }

  /**
    * Adding objects to a packed table fills the free slots in order: the occupied prefix stays, the
    * i-th added object lands in slot f + i, and what does not fit is dropped.
    */
  lemma {:induction false} AddAllPacked(s: seq<Option<Object>>, f: nat, xs: seq<Object>)
    requires Packed(s, f)
    ensures forall j :: 0 <= j < |s| ==>
      AddAll(s, xs)[j] == if j < f then s[j] else if j - f < |xs| then Some(xs[j - f]) else None
  {
    if xs != [] {
      var ys := xs[..|xs| - 1];
      AddAllPacked(s, f, ys);
      var t := AddAll(s, ys);
      var g := if f + |ys| < |s| then f + |ys| else |s|;
      assert Packed(t, g);
      FirstFreePacked(t, g);
    }
  }

  /** phylib_rolling's count over a sequence of slots. */
  function RollingCount(s: seq<Option<Object>>): (n: nat)
    ensures n <= |s|
    ensures n == 0 <==> forall j :: 0 <= j < |s| ==> !IsRolling(s[j])
  {
    if s == [] then 0
    else RollingCount(s[..|s| - 1]) + (if IsRolling(s[|s| - 1]) then 1 else 0)
  }

  /** Replacing one slot changes the rolling count only by what that slot held and now holds. */
  lemma {:induction false} RollingCountUpdate(s: seq<Option<Object>>, i: nat, x: Option<Object>)
    requires i < |s|
    ensures RollingCount(s[i := x]) ==
      RollingCount(s) - (if IsRolling(s[i]) then 1 else 0) + (if IsRolling(x) then 1 else 0)
  {
    var n := |s|;
    if i == n - 1 {
      assert s[i := x][..n - 1] == s[..n - 1];
    } else {
      RollingCountUpdate(s[..n - 1], i, x);
      assert s[i := x][..n - 1] == s[..n - 1][i := x];
    }
  }

  /** The table phylib_new_table builds: the fixtures in slots 0..9, every other slot NULL. */
  function Standard(): (r: TableValue)
    ensures r.time == 0.0
  {
    TableValue(0.0, seq(MAX_OBJECTS, j => if j < 10 then Some(Fixture(j)) else None))
  }

  /** The cushions and holes of a new table, by slot. */
  function Fixture(j: int): (r: Object)
    ensures r.HCushion? <==> j == 0 || j == 1
    ensures r.VCushion? <==> j == 2 || j == 3
    ensures r.Hole? <==> !(0 <= j < 4)
    ensures r.HCushion? ==> r.y == 0.0 || r.y == TABLE_LENGTH
    ensures r.VCushion? ==> r.x == 0.0 || r.x == TABLE_WIDTH
    ensures r.Hole? ==>
      (r.pos.x == 0.0 || r.pos.x == TABLE_WIDTH) &&
      (r.pos.y == 0.0 || r.pos.y == TABLE_LENGTH / 2.0 || r.pos.y == TABLE_LENGTH)
  {
    if j == 0 then HCushion(0.0)
    else if j == 1 then HCushion(TABLE_LENGTH)
    else if j == 2 then VCushion(0.0)
    else if j == 3 then VCushion(TABLE_WIDTH)
    else if j == 4 then Hole(Coord(0.0, 0.0))
    else if j == 5 then Hole(Coord(0.0, TABLE_LENGTH / 2.0))
    else if j == 6 then Hole(Coord(0.0, TABLE_LENGTH))
    else if j == 7 then Hole(Coord(TABLE_WIDTH, 0.0))
    else if j == 8 then Hole(Coord(TABLE_WIDTH, TABLE_LENGTH / 2.0))
    else Hole(Coord(TABLE_WIDTH, TABLE_LENGTH))
  }

  /**
    * The ten fixtures are ten different objects, with the first cushion of each direction at 0. With
    * Fixture's ensures this fixes the layout: slot 0 is the cushion at y = 0 and slot 1 the one at
    * y = TABLE_LENGTH, slot 2 the cushion at x = 0 and slot 3 the one at x = TABLE_WIDTH, and the six
    * holes occupy the six candidate positions, one each.
    */
  lemma FixturesDistinct()
    ensures forall i, j :: 0 <= i < 10 && 0 <= j < 10 && i != j ==> Fixture(i) != Fixture(j)
    ensures Fixture(0).y == 0.0 && Fixture(2).x == 0.0
  {
    forall i, j | 0 <= i < 10 && 0 <= j < 10 && i != j
      ensures Fixture(i) != Fixture(j)
    {
      if 4 <= i && 4 <= j {
        assert Fixture(i).pos != Fixture(j).pos;
      }
    }
  }

  /**
    * The 26 slots hold the ten fixtures of a new table and sixteen balls, fifteen and the cue ball:
    * adding sixteen balls puts them in slots 10..25 in order and leaves no NULL slot, so that any
    * further phylib_add_object is dropped.
    */
  lemma StandardHoldsSixteenBalls(xs: seq<Object>)
    requires |xs| == 15 + 1
    ensures forall j :: 0 <= j < |xs| ==> AddAll(Standard().objects, xs)[10 + j] == Some(xs[j])
    ensures FirstFree(AddAll(Standard().objects, xs)).None?
  {
    StandardLayout();
    AddAllPacked(Standard().objects, 10, xs);
    assert forall j :: 0 <= j < MAX_OBJECTS ==> AddAll(Standard().objects, xs)[j].Some?;
  }

  /** Slots holding the fixtures, in order, and then NULLs are the standard table's slots. */
  lemma StandardSlots(s: seq<Option<Object>>)
    requires |s| == MAX_OBJECTS
    requires forall j :: 0 <= j < 10 ==> s[j] == Some(Fixture(j))
    requires forall j :: 10 <= j < MAX_OBJECTS ==> s[j] == None
    ensures s == Standard().objects
  {
  }

  /** The new table holds four cushions and six holes in its first ten slots and no ball. */
  lemma StandardLayout()
    ensures Packed(Standard().objects, 10)
    ensures forall j :: 0 <= j < 10 ==> !IsBall(Standard().objects[j])
    ensures RollingCount(Standard().objects) == 0
    ensures FirstFree(Standard().objects) == Some(10)
  {
    assert Packed(Standard().objects, 10);
    assert RollingCount(Standard().objects) == 0 by {
      assert forall j :: 0 <= j < MAX_OBJECTS ==> !IsRolling(Standard().objects[j]);
    }
    FirstFreePacked(Standard().objects, 10);
  }

  // ---------------------------------------------------------------------------------------------
  // Object operations

  /**
    * phylib_stopped on the object a slot holds: the object afterwards and the returned flag.
    * The C function may assume its object is a rolling ball.
    */
  function Stopped(slot: Option<Object>, norm: Coord -> real): (r: (Option<Object>, Byte))
    requires slot.Some? ==> slot.value.RollingBall?
    ensures slot.None? ==> r == (None, 0)
    ensures r.1 <= 1
    ensures r.1 == 1 <==> slot.Some? && norm(slot.value.vel) < VEL_EPSILON
    ensures r.1 == 1 ==> r.0 == Some(StillBall(slot.value.number, slot.value.pos))
    ensures r.1 == 0 ==> r.0 == slot
  {
    match slot
    case None => (None, 0)
    case Some(o) =>
      if norm(o.vel) < VEL_EPSILON then (Some(StillBall(o.number, o.pos)), 1) else (slot, 0)
  }

  /** With a true length, a ball stops exactly when its squared speed is below VEL_EPSILON squared. */
  lemma StoppedBySquaredSpeed(o: Object, norm: Coord -> real)
    requires IsLength(norm) && o.RollingBall?
    ensures Stopped(Some(o), norm).1 == 1 <==> SquaredLength(o.vel) < VEL_EPSILON * VEL_EPSILON
  {
    BelowBySquares(norm(o.vel), VEL_EPSILON);
  }

  /** Stopping a ball of a table takes exactly one ball out of the rolling count. */
  lemma StoppingReducesRolling(s: seq<Option<Object>>, i: nat, norm: Coord -> real)
    requires i < |s| && IsRolling(s[i]) && Stopped(s[i], norm).1 == 1
    ensures RollingCount(s[i := Stopped(s[i], norm).0]) == RollingCount(s) - 1
  {
    RollingCountUpdate(s, i, Stopped(s[i], norm).0);
  }

  /**
    * phylib_bounce for a rolling ball `a` that touches `b`: the new content of a's slot and the new b.
    * The elastic collision of two balls is the parameter `collide`; a still ball `b` is first
    * upgraded to a rolling ball at rest.
    */
  function Bounce(a: Object, b: Object, collide: (Object, Object) -> (Object, Object)): (r: (Option<Object>, Object))
    requires a.RollingBall?
    ensures b.HCushion? ==> (r.1 == b && r.0.Some? && r.0.value.RollingBall? &&
      r.0.value.number == a.number && r.0.value.pos == a.pos &&
      r.0.value.vel == Coord(a.vel.x, -a.vel.y) && r.0.value.acc == Coord(a.acc.x, -a.acc.y))
    ensures b.VCushion? ==> (r.1 == b && r.0.Some? && r.0.value.RollingBall? &&
      r.0.value.number == a.number && r.0.value.pos == a.pos &&
      r.0.value.vel == Coord(-a.vel.x, a.vel.y) && r.0.value.acc == Coord(-a.acc.x, a.acc.y))
    ensures b.Hole? ==> r == (None, b)
    ensures b.StillBall? ==> r == (var (a', b') := collide(a, Upgraded(b)); (Some(a'), b'))
    ensures b.RollingBall? ==> r == (var (a', b') := collide(a, b); (Some(a'), b'))
  {
    match b
    case HCushion(_) =>
      (Some(a.(vel := Coord(a.vel.x, -1.0 * a.vel.y), acc := Coord(a.acc.x, -1.0 * a.acc.y))), b)
    case VCushion(_) =>
      (Some(a.(vel := Coord(-1.0 * a.vel.x, a.vel.y), acc := Coord(-1.0 * a.acc.x, a.acc.y))), b)
    case Hole(_) => (None, b)
    case StillBall(_, _) => var (a', b') := collide(a, Upgraded(b)); (Some(a'), b')
    case RollingBall(_, _, _, _) => var (a', b') := collide(a, b); (Some(a'), b')
  }

  /** The still ball of phylib_bounce's fall-through case, retyped as a rolling ball at rest. */
  function Upgraded(b: Object): (r: Object)
    requires b.StillBall?
    ensures r.RollingBall? && r.number == b.number && r.pos == b.pos
    ensures r.vel == Coord(0.0, 0.0) && r.acc == Coord(0.0, 0.0)
  {
    RollingBall(b.number, b.pos, Coord(0.0, 0.0), Coord(0.0, 0.0))
  }

  /** Bouncing twice off the same cushion restores the ball. */
  lemma CushionBounceTwice(a: Object, b: Object, collide: (Object, Object) -> (Object, Object))
    requires a.RollingBall? && (b.HCushion? || b.VCushion?)
    ensures Bounce(Bounce(a, b, collide).0.value, b, collide).0 == Some(a)
  {
  }

  /** Falling into a hole takes the ball out of the rolling count. */
  lemma HoleRemovesBall(s: seq<Option<Object>>, i: nat, b: Object, collide: (Object, Object) -> (Object, Object))
    requires i < |s| && IsRolling(s[i]) && b.Hole?
    ensures RollingCount(s[i := Bounce(s[i].value, b, collide).0]) == RollingCount(s) - 1
  {
    RollingCountUpdate(s, i, None);
  }

  /** (old < 0) != (new < 0) in phylib_roll: the velocity component changed sign. */
  predicate SignChanged(prev: real, next: real) {
    (prev < 0.0) != (next < 0.0)
  }

  /**
    * phylib_roll(new, old, time): `next` (new) takes the position and velocity `prev` (old) reaches after `time`
    * under constant acceleration; a velocity component whose sign changed is set to zero together
    * with new's acceleration in that direction. Anything but two rolling balls leaves `next` alone.
    */
  function Roll(next: Object, prev: Object, time: real): (r: Object)
    ensures !(next.RollingBall? && prev.RollingBall?) ==> r == next
    ensures next.RollingBall? && prev.RollingBall? ==>
      r.RollingBall? && r.number == next.number &&
      r.pos == Coord(prev.pos.x + prev.vel.x * time + 0.5 * prev.acc.x * time * time,
                     prev.pos.y + prev.vel.y * time + 0.5 * prev.acc.y * time * time)
    // a velocity component never reverses direction: a negative one at most reaches zero ...
    ensures next.RollingBall? && prev.RollingBall? ==>
      (prev.vel.x < 0.0 ==> r.vel.x <= 0.0) && (prev.vel.y < 0.0 ==> r.vel.y <= 0.0)
    // ... and a non-negative one stays non-negative
    ensures next.RollingBall? && prev.RollingBall? ==>
      (prev.vel.x >= 0.0 ==> r.vel.x >= 0.0) && (prev.vel.y >= 0.0 ==> r.vel.y >= 0.0)
    ensures next.RollingBall? && prev.RollingBall? ==>
      (if SignChanged(prev.vel.x, prev.vel.x + prev.acc.x * time)
       then r.vel.x == 0.0 && r.acc.x == 0.0
       else r.vel.x == prev.vel.x + prev.acc.x * time && r.acc.x == next.acc.x) &&
      (if SignChanged(prev.vel.y, prev.vel.y + prev.acc.y * time)
       then r.vel.y == 0.0 && r.acc.y == 0.0
       else r.vel.y == prev.vel.y + prev.acc.y * time && r.acc.y == next.acc.y)
  {
    if next.RollingBall? && prev.RollingBall? then
      var pos := Coord(prev.pos.x + prev.vel.x * time + 0.5 * prev.acc.x * time * time,
                       prev.pos.y + prev.vel.y * time + 0.5 * prev.acc.y * time * time);
      var vx := prev.vel.x + prev.acc.x * time;
      var vy := prev.vel.y + prev.acc.y * time;
      var (vx', ax') := if SignChanged(prev.vel.x, vx) then (0.0, 0.0) else (vx, next.acc.x);
      var (vy', ay') := if SignChanged(prev.vel.y, vy) then (0.0, 0.0) else (vy, next.acc.y);
      next.(pos := pos, vel := Coord(vx', vy'), acc := Coord(ax', ay'))
    else
      next
  }

  /** phylib_distance; `norm` is phylib_length. */
  function Distance(o1: Object, o2: Object, norm: Coord -> real): (d: real)
    ensures !o1.RollingBall? ==> d == -1.0
    ensures o1.RollingBall? && (o2.StillBall? || o2.RollingBall?) ==>
      d == norm(Sub(o1.pos, o2.pos)) - BALL_DIAMETER
    ensures o1.RollingBall? && o2.Hole? ==> d == norm(Sub(o1.pos, o2.pos)) - HOLE_RADIUS
    ensures o1.RollingBall? && o2.HCushion? ==> d == Abs(o1.pos.y - o2.y) - BALL_RADIUS
    ensures o1.RollingBall? && o2.VCushion? ==> d == Abs(o1.pos.x - o2.x) - BALL_RADIUS
  {
    if !o1.RollingBall? then -1.0
    else match o2
      case StillBall(_, p) => norm(Sub(o1.pos, p)) - BALL_DIAMETER
      case RollingBall(_, p, _, _) => norm(Sub(o1.pos, p)) - BALL_DIAMETER
      case Hole(p) => norm(Sub(o1.pos, p)) - HOLE_RADIUS
      case HCushion(y) => Abs(o1.pos.y - y) - BALL_RADIUS
      case VCushion(x) => Abs(o1.pos.x - x) - BALL_RADIUS
  }

  /** Two non-negative reals with the same square are equal. */
  lemma {:induction false} SameSquare(a: real, b: real)
    requires a >= 0.0 && b >= 0.0 && a * a == b * b
    ensures a == b
  {
    if a < b {
      calc {
        a * a;
      <= a * b;
      <  b * b;
      }
    } else if b < a {
      calc {
        b * b;
      <= b * a;
      <  a * a;
      }
    }
  }

  /** The distance between two rolling balls does not depend on which one is asked, and no cushion is
      ever further than BALL_RADIUS on the wrong side. */
  lemma DistanceBetweenBalls(a: Object, b: Object, norm: Coord -> real)
    requires IsLength(norm) && a.RollingBall? && b.RollingBall?
    ensures Distance(a, b, norm) == Distance(b, a, norm)
    ensures Distance(a, b, norm) >= -BALL_DIAMETER
  {
    var u, v := Sub(a.pos, b.pos), Sub(b.pos, a.pos);
    assert SquaredLength(u) == SquaredLength(v);
    SameSquare(norm(u), norm(v));
  }

  /** phylib_segment's result as a value: NULL when no ball rolls, else what the time-stepping search
      (the parameter `kernel`) makes of the copy. */
  function SegmentValue(v: TableValue, kernel: TableValue -> TableValue): (r: Option<TableValue>)
    ensures r.None? <==> forall j :: 0 <= j < MAX_OBJECTS ==> !IsRolling(v.objects[j])
    ensures r.Some? ==> r.value == kernel(v)
  {
    if RollingCount(v.objects) == 0 then None else Some(kernel(v))
  }

  // ---------------------------------------------------------------------------------------------
  // The table

  /** phylib_table: a time and MAX_OBJECTS slots. */
  class PhyTable {
    var time: real
    const objects: array<Option<Object>>

    ghost predicate Valid()
      reads this
    {
      objects.Length == MAX_OBJECTS
    }

    function Value(): TableValue
      reads this, objects
      requires Valid()
    {
      TableValue(time, objects[..])
    }

    /** phylib_new_table */
    constructor ()
      ensures Valid() && fresh(objects)
      ensures Value() == Standard()
    {
      var a := new Option<Object>[MAX_OBJECTS];
      PlaceFixtures(a);
      for i := 10 to MAX_OBJECTS
        invariant forall j :: 0 <= j < 10 ==> a[j] == Some(Fixture(j))
        invariant forall j :: 10 <= j < i ==> a[j] == None
      {
        a[i] := None;
      }
      StandardSlots(a[..]);
      time := 0.0;
      objects := a;
    }

    /** The four cushions and six holes phylib_new_table stores in slots 0 to 9. */
    static method PlaceFixtures(a: array<Option<Object>>)
      requires a.Length == MAX_OBJECTS
      modifies a
      ensures forall j :: 0 <= j < 10 ==> a[j] == Some(Fixture(j))
    {
      a[0] := Some(HCushion(0.0));
      a[1] := Some(HCushion(TABLE_LENGTH));
      a[2] := Some(VCushion(0.0));
      a[3] := Some(VCushion(TABLE_WIDTH));
      a[4] := Some(Hole(Coord(0.0, 0.0)));
      a[5] := Some(Hole(Coord(0.0, TABLE_LENGTH / 2.0)));
      a[6] := Some(Hole(Coord(0.0, TABLE_LENGTH)));
      a[7] := Some(Hole(Coord(TABLE_WIDTH, 0.0)));
      a[8] := Some(Hole(Coord(TABLE_WIDTH, TABLE_LENGTH / 2.0)));
      a[9] := Some(Hole(Coord(TABLE_WIDTH, TABLE_LENGTH)));
    }

    /** The table memory phylib_copy_table allocates, before its slots are copied. */
    constructor Allocate(time: real)
      ensures Valid() && fresh(objects) && this.time == time
    {
      this.time := time;
      objects := new Option<Object>[MAX_OBJECTS];
    }

    /** phylib_copy_table: NULL for NULL, otherwise a fresh table with the same time and slot contents
        (phylib_copy_object on each slot copies NULL as NULL and an object as an equal object). */
    static method CopyTable(t: PhyTable?) returns (c: PhyTable?)
      requires t != null ==> t.Valid()
      ensures (c == null) == (t == null)
      ensures c != null ==> fresh(c) && fresh(c.objects) && c.Valid() && c.Value() == t.Value()
    {
      if t == null {
        return null;
      }
      c := new PhyTable.Allocate(t.time);
      for i := 0 to MAX_OBJECTS
        invariant c.time == t.time && c.Valid()
        invariant forall j :: 0 <= j < i ==> c.objects[j] == t.objects[j]
      {
        c.objects[i] := t.objects[i];
      }
      assert c.objects[..] == t.objects[..];
    }

    /** phylib_add_object: store `o` in the lowest NULL slot; with no NULL slot nothing changes. */
    method AddObject(o: Option<Object>)
      requires Valid()
      modifies objects
      ensures Valid()
      ensures objects[..] == AddTo(old(objects[..]), o)
      ensures FirstFree(old(objects[..])).None? ==> objects[..] == old(objects[..])
      ensures FirstFree(old(objects[..])).Some? ==>
        var k := FirstFree(old(objects[..])).value;
        objects[k] == o && forall j :: 0 <= j < MAX_OBJECTS && j != k ==> objects[j] == old(objects[j])
    {
      for i := 0 to MAX_OBJECTS
        invariant forall j :: 0 <= j < i ==> objects[j].Some?
        invariant objects[..] == old(objects[..])
      {
        if objects[i] == None {
          objects[i] := o;
          assert FirstFree(old(objects[..])) == Some(i);
          return;
        }
      }
    }

    /** phylib_free_table: every slot is released and set to NULL (the memory itself is not modelled). */
    method Free()
      requires Valid()
      modifies objects
      ensures Valid()
      ensures forall j :: 0 <= j < MAX_OBJECTS ==> objects[j] == None
    {
      for i := 0 to MAX_OBJECTS
        invariant forall j :: 0 <= j < i ==> objects[j] == None
      {
        objects[i] := None;
      }
    }

    /** phylib_rolling: the number of slots holding a rolling ball; 0 for a NULL table. */
    static method Rolling(t: PhyTable?) returns (n: nat)
      requires t != null ==> t.Valid()
      ensures t == null ==> n == 0
      ensures t != null ==> n == RollingCount(t.objects[..])
      ensures n <= MAX_OBJECTS
    {
      n := 0;
      if t != null {
        for i := 0 to MAX_OBJECTS
          invariant n == RollingCount(t.objects[..i])
        {
          assert t.objects[..i + 1][..i] == t.objects[..i];
          if t.objects[i] != None && t.objects[i].value.RollingBall? {
            n := n + 1;
          }
        }
        assert t.objects[..MAX_OBJECTS] == t.objects[..];
      }
    }

    /** phylib_stopped on the object in slot i, updated in place. */
    method StoppedAt(i: nat, norm: Coord -> real) returns (r: Byte)
      requires Valid() && i < MAX_OBJECTS
      requires objects[i].Some? ==> objects[i].value.RollingBall?
      modifies objects
      ensures Valid()
      ensures (objects[i], r) == Stopped(old(objects[i]), norm)
      ensures forall j :: 0 <= j < MAX_OBJECTS && j != i ==> objects[j] == old(objects[j])
    {
      r := 0;
      if objects[i] != None {
        var o := objects[i].value;
        if norm(o.vel) < VEL_EPSILON {
          objects[i] := Some(StillBall(o.number, o.pos));
          r := 1;
        }
      }
    }

    /** phylib_bounce(&object[i], &obj2) where obj2 is the pointer in slot j: slot i is overwritten or
        set to NULL, and the object slot j points to is updated through obj2. */
    method BounceAt(i: nat, j: nat, collide: (Object, Object) -> (Object, Object))
      requires Valid() && i < MAX_OBJECTS && j < MAX_OBJECTS && i != j
      requires IsRolling(objects[i]) && objects[j].Some?
      modifies objects
      ensures Valid()
      ensures var (a', b') := Bounce(old(objects[i]).value, old(objects[j]).value, collide);
        objects[i] == a' && objects[j] == Some(b')
      ensures forall k :: 0 <= k < MAX_OBJECTS && k != i && k != j ==> objects[k] == old(objects[k])
    {
      var (a', b') := Bounce(objects[i].value, objects[j].value, collide);
      objects[i] := a';
      objects[j] := Some(b');
    }

    /** phylib_roll(object[i], prev, time) in place. */
    method RollAt(i: nat, prev: Object, time: real)
      requires Valid() && i < MAX_OBJECTS && objects[i].Some?
      modifies objects
      ensures Valid()
      ensures objects[..] == old(objects[..])[i := Some(Roll(old(objects[i]).value, prev, time))]
    {
      objects[i] := Some(Roll(objects[i].value, prev, time));
    }

    /** The time-stepping search of phylib_segment, run on this copy; its outcome is `kernel`. */
    method Advance(kernel: TableValue -> TableValue)
      requires Valid()
      modifies this, objects
      ensures Valid() && Value() == kernel(old(Value()))
    {
      var v := kernel(Value());
      forall k | 0 <= k < MAX_OBJECTS {
        objects[k] := v.objects[k];
      }
      time := v.time;
      assert objects[..] == v.objects;
    }

    /** phylib_segment: NULL exactly when no ball rolls (or the table is NULL); otherwise a fresh copy
        advanced by the time-stepping search. */
    static method Segment(t: PhyTable?, kernel: TableValue -> TableValue) returns (r: PhyTable?)
      requires t != null ==> t.Valid()
      ensures r == null <==> t == null || forall j :: 0 <= j < MAX_OBJECTS ==> !IsRolling(t.objects[j])
      ensures r != null ==> (fresh(r) && fresh(r.objects) && r.Valid() &&
        Some(r.Value()) == SegmentValue(t.Value(), kernel))
    {
      var n := Rolling(t);
      if n == 0 {
        return null;
      }
      r := CopyTable(t);
      r.Advance(kernel);
    }
  }
}
