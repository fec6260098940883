/**
  * The Python Table wrapper of Physics.py: type dispatch on indexing, the iteration cursor `current`,
  * `+=`, `segment` and `roll`, together with the drag rule the Python layer uses for accelerations.
  */
module Physics {
  import opened Wrappers
  import opened PhylibTypes
  import opened Phylib

  const FRAME_RATE: real := 0.01

  /**
    * The drag rule used wherever Physics.py recomputes an acceleration: against the velocity with
    * magnitude DRAG while the speed exceeds VEL_EPSILON, zero otherwise. `norm` is phylib_length.
    */
  function DragAcc(vel: Coord, norm: Coord -> real): (a: Coord)
    ensures norm(vel) <= VEL_EPSILON ==> a == Coord(0.0, 0.0)
    ensures norm(vel) > VEL_EPSILON ==> a == Coord(-(DRAG / norm(vel)) * vel.x, -(DRAG / norm(vel)) * vel.y)
  {
    var speed := norm(vel);
    if speed > VEL_EPSILON then Coord((-vel.x / speed) * DRAG, (-vel.y / speed) * DRAG) else Coord(0.0, 0.0)
  }

  /** With a true length, a moving ball's drag has magnitude DRAG, is parallel to the velocity and
      points against it. */
  lemma DragOpposesMotion(vel: Coord, norm: Coord -> real)
    requires IsLength(norm) && norm(vel) > VEL_EPSILON
    ensures SquaredLength(DragAcc(vel, norm)) == DRAG * DRAG
    ensures DragAcc(vel, norm).x * vel.y == DragAcc(vel, norm).y * vel.x
    ensures DragAcc(vel, norm).x * vel.x + DragAcc(vel, norm).y * vel.y == -DRAG * norm(vel)
  {
    var s := norm(vel);
    var k := DRAG / s;
    var a := DragAcc(vel, norm);
    assert a == Coord(-k * vel.x, -k * vel.y);
    assert s * s == vel.x * vel.x + vel.y * vel.y;
    calc {
      a.x * vel.x + a.y * vel.y;
    == -k * (vel.x * vel.x + vel.y * vel.y);
    == -k * (s * s);
    == -(k * s) * s;
    == { assert k * s == DRAG; }
      -DRAG * s;
    }
    calc {
      SquaredLength(a);
    == k * k * (vel.x * vel.x + vel.y * vel.y);
    == k * k * (s * s);
    == (k * s) * (k * s);
    == { assert k * s == DRAG; }
      DRAG * DRAG;
    }
  }

  /** The Python classes __getitem__ assigns to a phylib_object. */
  datatype PyClass = StillBallClass | RollingBallClass | HoleClass | HCushionClass | VCushionClass

  /** The phylib_obj value each class stands for. */
  function ClassTag(c: PyClass): nat {
    match c
    case StillBallClass => STILL_BALL
    case RollingBallClass => ROLLING_BALL
    case HoleClass => HOLE
    case HCushionClass => HCUSHION
    case VCushionClass => VCUSHION
  }

  /** __getitem__'s dispatch on the `type` field. */
  function ClassOf(o: Object): (c: PyClass)
    ensures ClassTag(c) == Tag(o)
    ensures c == StillBallClass <==> o.StillBall?
    ensures c == RollingBallClass <==> o.RollingBall?
  {
    var t := Tag(o);
    if t == STILL_BALL then StillBallClass
    else if t == ROLLING_BALL then RollingBallClass
    else if t == HOLE then HoleClass
    else if t == HCUSHION then HCushionClass
    else VCushionClass
  }

  /** An object as Python sees it: the class __getitem__ gave it, and the object itself. */
  datatype TypedObject = Item(cls: PyClass, obj: Object)

  /** __getitem__ only hands out objects whose class matches their tag. */
  type Item = i: TypedObject | ClassTag(i.cls) == Tag(i.obj) witness Item(HoleClass, Hole(Coord(0.0, 0.0)))

  function AsItem(slot: Option<Object>): Option<Item> {
    match slot
    case None => None
    case Some(o) => Some(Item(ClassOf(o), o))
  }

  function ItemsOf(s: seq<Option<Object>>): (r: seq<Option<Item>>)
    ensures |r| == |s| && forall j :: 0 <= j < |s| ==> r[j] == AsItem(s[j])
  {
    seq(|s|, j requires 0 <= j < |s| => AsItem(s[j]))
  }

  /** The balls among the items, in order: what `isinstance(ball, StillBall)` or
      `isinstance(ball, RollingBall)` select. */
  function Balls(items: seq<Option<Item>>): (bs: seq<Object>)
    ensures |bs| <= |items|
    ensures forall j :: 0 <= j < |bs| ==> bs[j].StillBall? || bs[j].RollingBall?
    decreases |items|
  {
    if items == [] then []
    else
      var rest := Balls(items[..|items| - 1]);
      var last := items[|items| - 1];
      if last.Some? && (last.value.cls == StillBallClass || last.value.cls == RollingBallClass)
      then rest + [last.value.obj] else rest
  }

  lemma {:induction false} BallsAppend(a: seq<Option<Item>>, b: seq<Option<Item>>)
    ensures Balls(a + b) == Balls(a) + Balls(b)
    decreases |b|
  {
    if b == [] {
      assert a + b == a;
    } else {
      assert (a + b)[..|a + b| - 1] == a + b[..|b| - 1];
      BallsAppend(a, b[..|b| - 1]);
    }
  }

  /** After the objects `xs` are added to a new table, the balls a loop over it finds are `xs`, in
      order: the fixtures add none. */
  lemma BallsOfStandardPlus(xs: seq<Object>)
    requires |xs| <= MAX_OBJECTS - 10
    requires forall j :: 0 <= j < |xs| ==> xs[j].StillBall? || xs[j].RollingBall?
    ensures Balls(ItemsOf(AddAll(Standard().objects, xs))) == xs
  {
    StandardLayout();
    BallsOfPacked(Standard().objects, xs);
  }

  /** The same for any table whose ten occupied slots hold no ball and whose other slots are NULL. */
  lemma BallsOfPacked(base: seq<Option<Object>>, xs: seq<Object>)
    requires |base| == MAX_OBJECTS && Packed(base, 10)
    requires forall j :: 0 <= j < 10 ==> !IsBall(base[j])
    requires |xs| <= MAX_OBJECTS - 10
    requires forall j :: 0 <= j < |xs| ==> xs[j].StillBall? || xs[j].RollingBall?
    ensures Balls(ItemsOf(AddAll(base, xs))) == xs
  {
    var items := ItemsOf(AddAll(base, xs));
    AddAllPacked(base, 10, xs);
    BallsOfPrefix(items, xs, MAX_OBJECTS);
    assert items[..MAX_OBJECTS] == items;
  }

  /** The balls of the first `k` items, when items 0 to 9 hold no ball and the balls `xs` follow. */
  lemma {:induction false} BallsOfPrefix(items: seq<Option<Item>>, xs: seq<Object>, k: nat)
    requires |items| == MAX_OBJECTS && |xs| <= MAX_OBJECTS - 10 && k <= MAX_OBJECTS
    requires forall j :: 0 <= j < 10 ==>
      items[j].Some? ==> items[j].value.cls != StillBallClass && items[j].value.cls != RollingBallClass
    requires forall j :: 10 <= j < MAX_OBJECTS ==>
      items[j] == if j - 10 < |xs| then Some(Item(ClassOf(xs[j - 10]), xs[j - 10])) else None
    requires forall j :: 0 <= j < |xs| ==> xs[j].StillBall? || xs[j].RollingBall?
    ensures Balls(items[..k]) == xs[..if k <= 10 then 0 else if k - 10 <= |xs| then k - 10 else |xs|]
  {
    if k == 0 {
      assert items[..0] == [];
    } else {
      BallsOfPrefix(items, xs, k - 1);
      assert items[..k][..k - 1] == items[..k - 1];
      if k - 1 < 10 {
      } else if k - 1 - 10 < |xs| {
        assert items[k - 1] == Some(Item(ClassOf(xs[k - 11]), xs[k - 11]));
        SliceSnoc(xs, 0, k - 10);
      } else {
        assert items[k - 1] == None;
      }
    }
  }

  /** What one loop step of Table.roll adds for a ball: a rolling ball is rolled by phylib_roll from a
      fresh ball at the origin with zero velocity and acceleration, a still ball is copied. */
  function RollBall(o: Object, t: real): (r: Object)
    requires o.StillBall? || o.RollingBall?
    ensures o.StillBall? ==> r == o
    ensures o.RollingBall? ==> r.RollingBall?
    ensures r.number == o.number
  {
    if o.RollingBall? then Roll(RollingBall(o.number, Coord(0.0, 0.0), Coord(0.0, 0.0), Coord(0.0, 0.0)), o, t)
    else StillBall(o.number, Coord(o.pos.x, o.pos.y))
  }

  function RollBalls(bs: seq<Object>, t: real): (r: seq<Object>)
    requires forall j :: 0 <= j < |bs| ==> bs[j].StillBall? || bs[j].RollingBall?
    ensures |r| == |bs| && forall j :: 0 <= j < |bs| ==> r[j] == RollBall(bs[j], t)
  {
    seq(|bs|, j requires 0 <= j < |bs| => RollBall(bs[j], t))
  }

  /** One step of Table.roll's loop: a ball item adds its rolled ball at the end, anything else nothing. */
  lemma RollStep(items: seq<Option<Item>>, k: nat, t: real)
    requires k < |items|
    ensures var before := AddAll(Standard().objects, RollBalls(Balls(items[..k]), t));
      AddAll(Standard().objects, RollBalls(Balls(items[..k + 1]), t)) ==
      if items[k].Some? && (items[k].value.cls == StillBallClass || items[k].value.cls == RollingBallClass)
      then AddTo(before, Some(RollBall(items[k].value.obj, t))) else before
  {
    assert items[..k + 1][..k] == items[..k];
    var bs := Balls(items[..k]);
    if items[k].Some? && (items[k].value.cls == StillBallClass || items[k].value.cls == RollingBallClass) {
      assert RollBalls(Balls(items[..k + 1]), t) == RollBalls(bs, t) + [RollBall(items[k].value.obj, t)];
      AddAllSnoc(Standard().objects, RollBalls(bs, t), RollBall(items[k].value.obj, t));
    }
  }

  lemma AddAllSnoc(s: seq<Option<Object>>, xs: seq<Object>, x: Object)
    ensures AddAll(s, xs + [x]) == AddTo(AddAll(s, xs), Some(x))
  {
    assert (xs + [x])[..|xs|] == xs;
  }

  /** The table Table.roll(t) returns for the items its loop visits. */
  function Rolled(items: seq<Option<Item>>, t: real): (r: TableValue)
    ensures r.time == 0.0
    ensures forall j :: 0 <= j < 10 ==> r.objects[j] == Standard().objects[j]
  {
    StandardLayout();
    AddAllPacked(Standard().objects, 10, RollBalls(Balls(items), t));
    TableValue(0.0, AddAll(Standard().objects, RollBalls(Balls(items), t)))
  }

  /**
    * Table.roll keeps the four cushions and six holes of the fresh Table() in slots 0..9 and puts the
    * rolled balls, in the order visited and with their numbers, into the following slots; balls that
    * do not fit are dropped by phylib_add_object. A rolled ball's acceleration is zero, because
    * phylib_roll only clears, never copies, the acceleration of the new ball.
    */
  lemma RolledLayout(items: seq<Option<Item>>, t: real)
    ensures var bs := Balls(items); var s := Rolled(items, t).objects;
      (forall j :: 0 <= j < 10 ==> s[j] == Standard().objects[j]) &&
      (forall j :: 10 <= j < MAX_OBJECTS ==>
        s[j] == if j - 10 < |bs| then Some(RollBall(bs[j - 10], t)) else None)
    ensures forall j :: 0 <= j < |Balls(items)| ==>
      RollBall(Balls(items)[j], t).number == Balls(items)[j].number &&
      (Balls(items)[j].StillBall? ==> RollBall(Balls(items)[j], t) == Balls(items)[j]) &&
      (Balls(items)[j].RollingBall? ==> RollBall(Balls(items)[j], t).acc == Coord(0.0, 0.0))
  {
    StandardLayout();
    AddAllPacked(Standard().objects, 10, RollBalls(Balls(items), t));
  }

  /** The value of one step of the `for ... in table` protocol. */
  datatype Step = Yield(item: Option<Item>) | StopIteration

  /** Physics.Table: a phylib_table together with the iteration cursor `current`. */
  class Table {
    const tab: PhyTable
    var current: int

    ghost predicate Valid()
      reads this, tab
    {
      tab.Valid() && -1 <= current < MAX_OBJECTS
    }

    function Value(): TableValue
      reads tab, tab.objects
      requires tab.Valid()
    {
      tab.Value()
    }

    /** The items a `for` loop over this table still visits. */
    function Remaining(): seq<Option<Item>>
      reads this, tab, tab.objects
      requires Valid()
    {
      ItemsOf(tab.objects[current + 1..])
    }

    /** Table(): phylib_new_table with the cursor at -1. */
    constructor ()
      ensures Valid() && fresh(tab) && fresh(tab.objects)
      ensures Value() == Standard() && current == -1
    {
      tab := new PhyTable();
      current := -1;
    }

    /** The `__class__ = Table; current = -1` that turns a phylib_table into a Table. */
    constructor Wrap(t: PhyTable)
      requires t.Valid()
      ensures Valid() && tab == t && current == -1
    {
      tab := t;
      current := -1;
    }

    /** __getitem__: None for an empty slot, otherwise the object with the class its tag selects. */
    function GetItem(index: int): (r: Option<Item>)
      reads this, tab, tab.objects
      requires Valid() && 0 <= index < MAX_OBJECTS
      ensures r.None? <==> tab.objects[index].None?
      ensures r.Some? ==> r.value.obj == tab.objects[index].value && ClassTag(r.value.cls) == Tag(r.value.obj)
    {
      AsItem(tab.objects[index])
    }

    /** __next__: advance the cursor and yield that slot, or reset the cursor to -1 and stop. */
    method Next() returns (r: Step)
      requires Valid()
      modifies this`current
      ensures Valid()
      ensures old(current) + 1 < MAX_OBJECTS ==> current == old(current) + 1 && r == Yield(GetItem(current))
      ensures old(current) + 1 >= MAX_OBJECTS ==> current == -1 && r == StopIteration
    {
      current := current + 1;
      if current < MAX_OBJECTS {
        return Yield(GetItem(current));
      }
      current := -1;
      return StopIteration;
    }

    /** A complete `for` loop over the table: the remaining slots in order, and the cursor reset, so
        the next loop starts again at slot 0. */
    method Iterate() returns (items: seq<Option<Item>>)
      requires Valid()
      modifies this`current
      ensures Valid() && current == -1
      ensures items == old(Remaining())
    {
      ghost var from := current + 1;
      items := [];
      var step := Next();
      while step.Yield?
        invariant Valid()
        invariant step.Yield? ==> (from <= current < MAX_OBJECTS && step.item == GetItem(current) &&
          items == ItemsOf(tab.objects[from..current]))
        invariant step.StopIteration? ==> current == -1 && items == ItemsOf(tab.objects[from..])
        decreases if step.Yield? then MAX_OBJECTS - current else 0
      {
        items := items + [step.item];
        assert ItemsOf(tab.objects[from..current + 1]) == ItemsOf(tab.objects[from..current]) + [step.item];
        step := Next();
      }
    }

    /** `table += obj`: phylib_add_object. */
    method Add(o: Object)
      requires Valid()
      modifies tab.objects
      ensures Valid()
      ensures tab.objects[..] == AddTo(old(tab.objects[..]), Some(o))
    {
      tab.AddObject(Some(o));
    }

    /** Table.segment: phylib_segment wrapped as a fresh Table, or None. */
    method Segment(kernel: TableValue -> TableValue) returns (r: Table?)
      requires Valid()
      ensures r == null <==> SegmentValue(Value(), kernel).None?
      ensures r != null ==> (fresh(r) && fresh(r.tab) && fresh(r.tab.objects) && r.Valid() &&
        r.current == -1 && Some(r.Value()) == SegmentValue(Value(), kernel))
    {
      var t := PhyTable.Segment(tab, kernel);
      if t == null {
        return null;
      }
      r := new Table.Wrap(t);
    }

    /** Table.roll(t): a fresh table holding this table's balls, still balls copied and rolling balls
        rolled by `t` seconds. */
    method Roll(t: real) returns (r: Table)
      requires Valid()
      modifies this`current
      ensures Valid() && current == -1
      ensures fresh(r) && fresh(r.tab) && fresh(r.tab.objects) && r.Valid() && r.current == -1
      ensures r.Value() == Rolled(old(Remaining()), t)
    {
      r := new Table();
      var items := Iterate();
      for k := 0 to |items|
        invariant Valid() && current == -1
        invariant r.Valid() && r.current == -1
        invariant r.Value() == TableValue(0.0, AddAll(Standard().objects, RollBalls(Balls(items[..k]), t)))
      {
        RollStep(items, k, t);
        var ball := items[k];
        if ball.Some? && ball.value.cls == RollingBallClass {
          var o := ball.value.obj;
          var newBall := RollingBall(o.number, Coord(0.0, 0.0), Coord(0.0, 0.0), Coord(0.0, 0.0));
          newBall := Phylib.Roll(newBall, o, t);
          r.Add(newBall);
        }
        if ball.Some? && ball.value.cls == StillBallClass {
          var o := ball.value.obj;
          r.Add(StillBall(o.number, Coord(o.pos.x, o.pos.y)));
        }
      }
      assert items[..|items|] == items;
    }

    /**
      * HCushion.svg / VCushion.svg on the cushion in slot `index`: the coordinate drawn. The method
      * moves a cushion at 0 to -25 in place; its else branch compares instead of assigning, so any
      * other cushion keeps, and is drawn at, its own coordinate.
      */
    method CushionSvg(index: int) returns (coord: real)
      requires Valid() && 0 <= index < MAX_OBJECTS && tab.objects[index].Some?
      requires tab.objects[index].value.HCushion? || tab.objects[index].value.VCushion?
      modifies tab.objects
      ensures Valid()
      ensures coord == SvgCoordinate(old(tab.objects[index].value))
      ensures tab.objects[..] == old(tab.objects[..])[index := Some(SvgMoved(old(tab.objects[index].value)))]
    {
      var o := tab.objects[index].value;
      if o.HCushion? {
        if o.y == 0.0 {
          tab.objects[index] := Some(HCushion(-25.0));
        }
        coord := tab.objects[index].value.y;
      } else {
        if o.x == 0.0 {
          tab.objects[index] := Some(VCushion(-25.0));
        }
        coord := tab.objects[index].value.x;
      }
    }
  }

  /** The cushion after its svg method: a cushion at 0 is moved to -25. */
  function SvgMoved(o: Object): (r: Object)
    requires o.HCushion? || o.VCushion?
    ensures o.HCushion? ==> r.HCushion? && r.y == (if o.y == 0.0 then -25.0 else o.y)
    ensures o.VCushion? ==> r.VCushion? && r.x == (if o.x == 0.0 then -25.0 else o.x)
  {
    match o
    case HCushion(y) => if y == 0.0 then HCushion(-25.0) else o
    case VCushion(x) => if x == 0.0 then VCushion(-25.0) else o
  }

  function SvgCoordinate(o: Object): real
    requires o.HCushion? || o.VCushion?
  {
    var m := SvgMoved(o);
    if m.HCushion? then m.y else m.x
  }

  /**
    * Example, the cushions of a new table: the svg methods as written still draw where their documentation
    * says (-25 and 2700 for the horizontal ones, -25 and 1350 for the vertical ones): the far cushions
    * already lie at those coordinates, so the missing assignment does not show there.
    */
  lemma StandardCushionsSvg()
    ensures SvgCoordinate(Standard().objects[0].value) == -25.0
    ensures SvgCoordinate(Standard().objects[1].value) == 2700.0
    ensures SvgCoordinate(Standard().objects[2].value) == -25.0
    ensures SvgCoordinate(Standard().objects[3].value) == 1350.0
  {
  }
}
