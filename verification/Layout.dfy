// The guillotine split layout of the browser: panes in a unit square, in exact reals.
module Layout {
  import opened Common

  const MAX_PANES := 4
  const MIN_RATIO := 0.15
  const MAX_RATIO := 0.85
  const EPSILON := 0.000000001

  datatype Axis = Row | Column

  // A ratio that is missing or not finite is None.
  datatype Tree =
    | Pane(id: string)
    | Split(axis: Axis, ratio: Option<real>, first: Tree, second: Tree)

  function Ratio(value: Option<real>): (f: real)
    ensures MIN_RATIO <= f <= MAX_RATIO
    ensures value.Some? && MIN_RATIO <= value.value <= MAX_RATIO ==> f == value.value
    ensures value.Some? && value.value < MIN_RATIO ==> f == MIN_RATIO
    ensures value.Some? && value.value > MAX_RATIO ==> f == MAX_RATIO
    ensures value.None? ==> f == 0.5
  {
    var v := if value.Some? then value.value else 0.5;
    if v < MIN_RATIO then MIN_RATIO else if v > MAX_RATIO then MAX_RATIO else v
  }

  function Ids(t: Tree): seq<string> {
    match t
    case Pane(id) => [id]
    case Split(_, _, first, second) => Ids(first) + Ids(second)
  }

  // ---- Rectangles ------------------------------------------------------------------

  datatype Box = Box(x: real, y: real, width: real, height: real) {
    // The extent along an axis.
    function Lo(a: Axis): real { if a.Row? then x else y }
    function Len(a: Axis): real { if a.Row? then width else height }
    function Hi(a: Axis): real { Lo(a) + Len(a) }
    function Mid(a: Axis): real { Lo(a) + Len(a) / 2.0 }
    predicate Proper() { width > 0.0 && height > 0.0 }
    predicate Contains(px: real, py: real) { x <= px < x + width && y <= py < y + height }
  }

  datatype Rect = Rect(id: string, box: Box)

  const UNIT := Box(0.0, 0.0, 1.0, 1.0)

  // The length that a ratio cuts off.
  function Portion(len: real, f: real): (p: real)
    ensures len > 0.0 && MIN_RATIO <= f <= MAX_RATIO ==> MIN_RATIO * len <= p <= len - MIN_RATIO * len
  {
    assert len > 0.0 && f >= MIN_RATIO ==> len * f >= len * MIN_RATIO;
    assert len > 0.0 && f <= MAX_RATIO ==> len * f <= len * MAX_RATIO;
    len * f
  }

  function FirstPart(b: Box, axis: Axis, f: real): Box {
    if axis.Row? then b.(width := Portion(b.width, f)) else b.(height := Portion(b.height, f))
  }

  function SecondPart(b: Box, axis: Axis, f: real): Box {
    if axis.Row? then Box(b.x + Portion(b.width, f), b.y, b.width - Portion(b.width, f), b.height)
    else Box(b.x, b.y + Portion(b.height, f), b.width, b.height - Portion(b.height, f))
  }

  function RectsIn(t: Tree, b: Box): seq<Rect> {
    match t
    case Pane(id) => [Rect(id, b)]
    case Split(axis, ratio, first, second) =>
      RectsIn(first, FirstPart(b, axis, Ratio(ratio))) + RectsIn(second, SecondPart(b, axis, Ratio(ratio)))
  }

  function Rects(t: Tree): seq<Rect> {
    RectsIn(t, UNIT)
  }

  // The same, pushing onto one growing list.
  method PushRects(t: Tree, b: Box, result: seq<Rect>) returns (pushed: seq<Rect>)
    ensures pushed == result + RectsIn(t, b)
  {
    match t
    case Pane(id) => pushed := result + [Rect(id, b)];
    case Split(axis, ratio, first, second) =>
      var f := Ratio(ratio);
      pushed := PushRects(first, FirstPart(b, axis, f), result);
      pushed := PushRects(second, SecondPart(b, axis, f), pushed);
  }

  // Cutting keeps proper boxes proper; the parts share the cut line and nothing else
  // changes. Along the cut the first part gets its ratio, and each part keeps at least the
  // minimum share.
  lemma Parts(b: Box, axis: Axis, f: real)
    requires b.Proper() && MIN_RATIO <= f <= MAX_RATIO
    ensures var p, q := FirstPart(b, axis, f), SecondPart(b, axis, f);
            && p.Proper() && q.Proper()
            && p.Lo(axis) == b.Lo(axis) && p.Hi(axis) == q.Lo(axis) && q.Hi(axis) == b.Hi(axis)
            && p.Len(axis) == b.Len(axis) * f && q.Len(axis) == b.Len(axis) - b.Len(axis) * f
            && p.Len(axis) >= MIN_RATIO * b.Len(axis) && q.Len(axis) >= MIN_RATIO * b.Len(axis)
            && forall a: Axis :: a != axis ==>
                 p.Lo(a) == b.Lo(a) && p.Hi(a) == b.Hi(a) && q.Lo(a) == b.Lo(a) && q.Hi(a) == b.Hi(a)
                 && p.Len(a) == b.Len(a) && q.Len(a) == b.Len(a)
  {
  }

  // ---- Tiling ----------------------------------------------------------------------------

  // In how many half-open rectangles a point lies.
  function Covering(rects: seq<Rect>, px: real, py: real): nat {
    if rects == [] then 0
    else (if rects[0].box.Contains(px, py) then 1 else 0) + Covering(rects[1..], px, py)
  }

  lemma {:induction false} CoveringConcat(a: seq<Rect>, b: seq<Rect>, px: real, py: real)
    ensures Covering(a + b, px, py) == Covering(a, px, py) + Covering(b, px, py)
  {
    if a == [] {
      assert a + b == b;
    } else {
      assert (a + b)[1..] == a[1..] + b;
      CoveringConcat(a[1..], b, px, py);
    }
  }

  lemma {:induction false} TilesBox(t: Tree, b: Box, px: real, py: real)
    requires b.Proper()
    ensures Covering(RectsIn(t, b), px, py) == if b.Contains(px, py) then 1 else 0
  {
    match t
    case Pane(id) =>
      assert RectsIn(t, b)[1..] == [];
    case Split(axis, ratio, first, second) =>
      var f := Ratio(ratio);
      var p, q := FirstPart(b, axis, f), SecondPart(b, axis, f);
      Parts(b, axis, f);
      TilesBox(first, p, px, py);
      TilesBox(second, q, px, py);
      CoveringConcat(RectsIn(first, p), RectsIn(second, q), px, py);
  }

  // Every point of the unit square lies in exactly one pane, every other in none.
  lemma TilesUnitSquare(t: Tree, px: real, py: real)
    ensures Covering(Rects(t), px, py) == if 0.0 <= px < 1.0 && 0.0 <= py < 1.0 then 1 else 0
  {
    TilesBox(t, UNIT, px, py);
  }

  // ---- Panes, their boxes and their sizes ----------------------------------------------------

  lemma {:induction false} RectsAreIds(t: Tree, b: Box)
    ensures |RectsIn(t, b)| == |Ids(t)| >= 1
    ensures forall i :: 0 <= i < |Ids(t)| ==> RectsIn(t, b)[i].id == Ids(t)[i]
  {
    match t
    case Pane(id) =>
    case Split(axis, ratio, first, second) =>
      RectsAreIds(first, FirstPart(b, axis, Ratio(ratio)));
      RectsAreIds(second, SecondPart(b, axis, Ratio(ratio)));
  }

  predicate Inside(c: Box, b: Box) {
    b.x <= c.x && c.x + c.width <= b.x + b.width && b.y <= c.y && c.y + c.height <= b.y + b.height
  }

  // What is left of a length after n - 1 cuts that each leave the minimum share.
  function Share(n: nat, len: real): real
    decreases n
  {
    if n <= 1 then len else Share(n - 1, MIN_RATIO * len)
  }

  lemma {:induction false} ShareGrows(n: nat, a: real, b: real)
    requires a <= b
    ensures Share(n, a) <= Share(n, b)
    decreases n
  {
    if n > 1 {
      ShareGrows(n - 1, MIN_RATIO * a, MIN_RATIO * b);
    }
  }

  lemma {:induction false} ShareShrinks(m: nat, n: nat, len: real)
    requires m <= n && len > 0.0
    ensures 0.0 < Share(n, len) <= Share(m, len) <= len
    decreases n
  {
    if n > 1 {
      ShareShrinks(if m > 1 then m - 1 else 1, n - 1, MIN_RATIO * len);
    }
  }

  // A pane of a tree of n panes keeps its share of each side, and stays inside.
  ghost predicate Roomy(c: Box, b: Box, n: nat) {
    c.Proper() && Inside(c, b) && c.width >= Share(n, b.width) && c.height >= Share(n, b.height)
  }

  lemma RoomyPart(c: Box, part: Box, b: Box, m: nat, n: nat)
    requires b.Proper() && part.Proper() && 1 <= m < n && Roomy(c, part, m) && Inside(part, b)
    requires part.width >= MIN_RATIO * b.width && part.height >= MIN_RATIO * b.height
    ensures Roomy(c, b, n)
  {
    ShareShrinks(m, n - 1, part.width);
    ShareShrinks(m, n - 1, part.height);
    ShareGrows(n - 1, MIN_RATIO * b.width, part.width);
    ShareGrows(n - 1, MIN_RATIO * b.height, part.height);
  }

  lemma {:induction false} PanesRoomy(t: Tree, b: Box, i: nat)
    requires b.Proper() && i < |RectsIn(t, b)|
    ensures Roomy(RectsIn(t, b)[i].box, b, |Ids(t)|)
  {
    match t
    case Pane(id) =>
    case Split(axis, ratio, first, second) =>
      var f := Ratio(ratio);
      var p, q := FirstPart(b, axis, f), SecondPart(b, axis, f);
      Parts(b, axis, f);
      RectsAreIds(first, p);
      RectsAreIds(second, q);
      PartsInside(b, axis, f);
      var n := |RectsIn(first, p)|;
      if i < n {
        PanesRoomy(first, p, i);
        RoomyPart(RectsIn(first, p)[i].box, p, b, |Ids(first)|, |Ids(t)|);
      } else {
        PanesRoomy(second, q, i - n);
        RoomyPart(RectsIn(second, q)[i - n].box, q, b, |Ids(second)|, |Ids(t)|);
      }
  }

  lemma PartsInside(b: Box, axis: Axis, f: real)
    requires b.Proper() && MIN_RATIO <= f <= MAX_RATIO
    ensures var p, q := FirstPart(b, axis, f), SecondPart(b, axis, f);
            && Inside(p, b) && Inside(q, b)
            && p.width >= MIN_RATIO * b.width && p.height >= MIN_RATIO * b.height
            && q.width >= MIN_RATIO * b.width && q.height >= MIN_RATIO * b.height
  {
    Parts(b, axis, f);
  }

  // ---- Facing panes -----------------------------------------------------------------------------

  // The length of the common part of [lo, hi] and the extent of a box.
  function Overlap(lo: real, hi: real, c: Box, a: Axis): real {
    (if hi <= c.Hi(a) then hi else c.Hi(a)) - (if lo >= c.Lo(a) then lo else c.Lo(a))
  }

  function Other(a: Axis): Axis { if a.Row? then Column else Row }

  // The side of a box that faces forward or backward along an axis.
  function Side(c: Box, a: Axis, forward: bool): real {
    if forward then c.Hi(a) else c.Lo(a)
  }

  function Times(len: real, n: nat): real {
    if n == 0 then 0.0 else len + Times(len, n - 1)
  }

  lemma {:induction false} TimesAdds(a: real, b: real, n: nat)
    ensures Times(a + b, n) == Times(a, n) + Times(b, n)
  {
    if n > 0 {
      TimesAdds(a, b, n - 1);
    }
  }

  lemma {:induction false} TimesSums(a: real, m: nat, n: nat)
    ensures Times(a, m + n) == Times(a, m) + Times(a, n)
  {
    if m > 0 {
      TimesSums(a, m - 1, n);
    }
  }

  lemma {:induction false} TimesCommutes(a: real, m: nat, n: nat)
    ensures Times(Times(a, m), n) == Times(Times(a, n), m)
  {
    if m == 0 {
      TimesZero(n);
    } else {
      TimesCommutes(a, m - 1, n);
      TimesAdds(a, Times(a, m - 1), n);
    }
  }

  lemma {:induction false} TimesZero(n: nat)
    ensures Times(0.0, n) == 0.0
  {
    if n > 0 {
      TimesZero(n - 1);
    }
  }

  lemma {:induction false} TimesOrder(a: real, b: real, n: nat)
    requires n >= 1
    ensures a <= b <==> Times(a, n) <= Times(b, n)
  {
    if n > 1 {
      TimesOrder(a, b, n - 1);
    }
  }

  // The box reaches the same side as b, along enough of [lo, hi] for one pane of n.
  ghost predicate Touches(c: Box, b: Box, a: Axis, forward: bool, lo: real, hi: real, n: nat) {
    && Side(c, a, forward) == Side(b, a, forward)
    && Times(Overlap(lo, hi, c, Other(a)), n) >= hi - lo
  }

  // Some pane touches the given side of the box along at least its share of [lo, hi].
  lemma {:induction false} TouchesSide(t: Tree, b: Box, a: Axis, forward: bool, lo: real, hi: real) returns (i: nat)
    requires b.Proper() && b.Lo(Other(a)) <= lo < hi <= b.Hi(Other(a))
    ensures i < |RectsIn(t, b)| && Touches(RectsIn(t, b)[i].box, b, a, forward, lo, hi, |Ids(t)|)
    decreases t, 1
  {
    if t.Pane? {
      i := 0;
    } else if t.axis == a {
      i := TouchesAlong(t, b, forward, lo, hi);
    } else {
      i := TouchesAcross(t, b, a, forward, lo, hi);
    }
  }

  // The tree is cut along the axis: one part has the whole side.
  lemma {:induction false} TouchesAlong(t: Tree, b: Box, forward: bool, lo: real, hi: real) returns (i: nat)
    requires t.Split? && b.Proper() && b.Lo(Other(t.axis)) <= lo < hi <= b.Hi(Other(t.axis))
    ensures i < |RectsIn(t, b)| && Touches(RectsIn(t, b)[i].box, b, t.axis, forward, lo, hi, |Ids(t)|)
    decreases t, 0
  {
    var p, q := FirstPart(b, t.axis, Ratio(t.ratio)), SecondPart(b, t.axis, Ratio(t.ratio));
    Parts(b, t.axis, Ratio(t.ratio));
    RectsAreIds(t.first, p);
    RectsAreIds(t.second, q);
    var m1, m2 := |Ids(t.first)|, |Ids(t.second)|;
    if forward {
      TimesMore(hi - lo, m2, m1 + m2);
      var j := TouchesSide(t.second, q, t.axis, forward, lo, hi);
      i := |RectsIn(t.first, p)| + j;
      Wider(RectsIn(t.second, q)[j].box, q, b, t.axis, forward, lo, hi, m2, lo, hi, m1 + m2);
    } else {
      TimesMore(hi - lo, m1, m1 + m2);
      i := TouchesSide(t.first, p, t.axis, forward, lo, hi);
      Wider(RectsIn(t.first, p)[i].box, p, b, t.axis, forward, lo, hi, m1, lo, hi, m1 + m2);
    }
  }

  // The tree is cut across the axis: the segment is cut in two.
  lemma {:induction false} TouchesAcross(t: Tree, b: Box, a: Axis, forward: bool, lo: real, hi: real) returns (i: nat)
    requires t.Split? && t.axis != a && b.Proper() && b.Lo(Other(a)) <= lo < hi <= b.Hi(Other(a))
    ensures i < |RectsIn(t, b)| && Touches(RectsIn(t, b)[i].box, b, a, forward, lo, hi, |Ids(t)|)
    decreases t, 0
  {
    var p, q := FirstPart(b, t.axis, Ratio(t.ratio)), SecondPart(b, t.axis, Ratio(t.ratio));
    Parts(b, t.axis, Ratio(t.ratio));
    RectsAreIds(t.first, p);
    RectsAreIds(t.second, q);
    var m1, m2 := |Ids(t.first)|, |Ids(t.second)|;
    var part := LongerPart(lo, hi, p.Hi(t.axis), m1, m2);
    if part.0 {
      i := TouchesSide(t.first, p, a, forward, lo, part.1);
      Wider(RectsIn(t.first, p)[i].box, p, b, a, forward, lo, part.1, m1, lo, hi, m1 + m2);
    } else {
      var j := TouchesSide(t.second, q, a, forward, part.1, hi);
      i := |RectsIn(t.first, p)| + j;
      Wider(RectsIn(t.second, q)[j].box, q, b, a, forward, part.1, hi, m2, lo, hi, m1 + m2);
    }
  }

  // A segment cut in two at a line: one part is long enough for its number of panes.
  lemma LongerPart(lo: real, hi: real, line: real, m1: nat, m2: nat) returns (part: (bool, real))
    requires lo < hi && m1 >= 1 && m2 >= 1
    ensures part.0 ==> (lo < part.1 <= hi && part.1 <= line
                        && Times(part.1 - lo, m1 + m2) >= Times(hi - lo, m1))
    ensures !part.0 ==> (lo <= part.1 < hi && part.1 >= line
                         && Times(hi - part.1, m1 + m2) >= Times(hi - lo, m2))
  {
    var cut := if hi <= line then hi else if lo >= line then lo else line;
    var n := m1 + m2;
    TimesAdds(cut - lo, hi - cut, n);
    TimesSums(hi - lo, m1, m2);
    assert (cut - lo) + (hi - cut) == hi - lo;
    TimesPositive(hi - lo, m1);
    TimesPositive(hi - lo, m2);
    TimesZero(n);
    part := (Times(cut - lo, n) >= Times(hi - lo, m1), cut);
    if part.0 {
      TimesOrder(cut - lo, 0.0, n);
    } else {
      TimesOrder(hi - cut, 0.0, n);
    }
  }

  lemma {:induction false} TimesPositive(a: real, n: nat)
    requires a > 0.0 && n >= 1
    ensures Times(a, n) > 0.0
  {
    if n > 1 {
      TimesPositive(a, n - 1);
    }
  }

  // Touching a part of the box along a part of the segment, with fewer panes.
  lemma Wider(c: Box, part: Box, b: Box, a: Axis, forward: bool, l: real, h: real, m: nat, lo: real, hi: real, n: nat)
    requires Touches(c, part, a, forward, l, h, m) && Side(part, a, forward) == Side(b, a, forward)
    requires lo <= l < h <= hi && 1 <= m <= n
    requires Times(h - l, n) >= Times(hi - lo, m)
    ensures Touches(c, b, a, forward, lo, hi, n)
  {
    var narrow, wide := Overlap(l, h, c, Other(a)), Overlap(lo, hi, c, Other(a));
    TimesOrder(h - l, Times(narrow, m), n);
    TimesCommutes(narrow, m, n);
    TimesOrder(hi - lo, Times(narrow, n), m);
    TimesOrder(narrow, wide, n);
  }

  lemma TimesMore(a: real, m: nat, n: nat)
    requires a > 0.0 && m <= n
    ensures Times(a, m) <= Times(a, n)
  {
    TimesSums(a, m, n - m);
    if m < n {
      TimesPositive(a, n - m);
    }
  }

  // The extent of pane c along which box d faces it.
  function Shared(c: Box, d: Box, a: Axis): real {
    Overlap(c.Lo(Other(a)), c.Hi(Other(a)), d, Other(a))
  }

  // Box d lies against the given side of box c, along enough of it for one pane of n.
  ghost predicate Faces(c: Box, d: Box, a: Axis, forward: bool, n: nat) {
    && Side(d, a, !forward) == Side(c, a, forward)
    && Times(Shared(c, d, a), n) >= c.Len(Other(a))
  }

  lemma FacesMore(c: Box, d: Box, a: Axis, forward: bool, m: nat, n: nat)
    requires c.Proper() && Faces(c, d, a, forward, m) && 1 <= m <= n
    ensures Faces(c, d, a, forward, n)
  {
    TimesZero(m);
    TimesOrder(Shared(c, d, a), 0.0, m);
    TimesMore(Shared(c, d, a), m, n);
  }

  // A pane whose side is not the side of the whole box has a pane facing it there.
  lemma {:induction false} SomePaneFaces(t: Tree, b: Box, a: Axis, forward: bool, i: nat) returns (j: nat)
    requires b.Proper() && i < |RectsIn(t, b)|
    requires Side(RectsIn(t, b)[i].box, a, forward) != Side(b, a, forward)
    ensures j < |RectsIn(t, b)| && Faces(RectsIn(t, b)[i].box, RectsIn(t, b)[j].box, a, forward, |Ids(t)|)
    decreases t
  {
    PanesRoomy(t, b, i);
    var p, q := FirstPart(b, t.axis, Ratio(t.ratio)), SecondPart(b, t.axis, Ratio(t.ratio));
    Parts(b, t.axis, Ratio(t.ratio));
    RectsAreIds(t.first, p);
    RectsAreIds(t.second, q);
    if i < |RectsIn(t.first, p)| {
      j := FacesInFirst(t, b, a, forward, i);
    } else {
      j := FacesInSecond(t, b, a, forward, i - |RectsIn(t.first, p)|);
    }
  }

  lemma {:induction false} FacesInFirst(t: Tree, b: Box, a: Axis, forward: bool, i: nat) returns (j: nat)
    requires t.Split? && b.Proper()
    requires i < |RectsIn(t.first, FirstPart(b, t.axis, Ratio(t.ratio)))|
    requires Side(RectsIn(t.first, FirstPart(b, t.axis, Ratio(t.ratio)))[i].box, a, forward) != Side(b, a, forward)
    ensures j < |RectsIn(t, b)|
    ensures Faces(RectsIn(t.first, FirstPart(b, t.axis, Ratio(t.ratio)))[i].box, RectsIn(t, b)[j].box, a, forward, |Ids(t)|)
    decreases t, 0
  {
    var p, q := FirstPart(b, t.axis, Ratio(t.ratio)), SecondPart(b, t.axis, Ratio(t.ratio));
    Parts(b, t.axis, Ratio(t.ratio));
    RectsAreIds(t.first, p);
    RectsAreIds(t.second, q);
    PanesRoomy(t.first, p, i);
    var c := RectsIn(t.first, p)[i].box;
    if Side(c, a, forward) != Side(p, a, forward) {
      j := SomePaneFaces(t.first, p, a, forward, i);
      FacesMore(c, RectsIn(t.first, p)[j].box, a, forward, |Ids(t.first)|, |Ids(t)|);
    } else {
      var k := TouchesSide(t.second, q, a, !forward, c.Lo(Other(a)), c.Hi(Other(a)));
      j := |RectsIn(t.first, p)| + k;
      FacesMore(c, RectsIn(t.second, q)[k].box, a, forward, |Ids(t.second)|, |Ids(t)|);
    }
  }

  lemma {:induction false} FacesInSecond(t: Tree, b: Box, a: Axis, forward: bool, i: nat) returns (j: nat)
    requires t.Split? && b.Proper()
    requires i < |RectsIn(t.second, SecondPart(b, t.axis, Ratio(t.ratio)))|
    requires Side(RectsIn(t.second, SecondPart(b, t.axis, Ratio(t.ratio)))[i].box, a, forward) != Side(b, a, forward)
    ensures j < |RectsIn(t, b)|
    ensures Faces(RectsIn(t.second, SecondPart(b, t.axis, Ratio(t.ratio)))[i].box, RectsIn(t, b)[j].box, a, forward, |Ids(t)|)
    decreases t, 0
  {
    var p, q := FirstPart(b, t.axis, Ratio(t.ratio)), SecondPart(b, t.axis, Ratio(t.ratio));
    Parts(b, t.axis, Ratio(t.ratio));
    RectsAreIds(t.first, p);
    RectsAreIds(t.second, q);
    PanesRoomy(t.second, q, i);
    var c := RectsIn(t.second, q)[i].box;
    if Side(c, a, forward) != Side(q, a, forward) {
      var k := SomePaneFaces(t.second, q, a, forward, i);
      j := |RectsIn(t.first, p)| + k;
      FacesMore(c, RectsIn(t.second, q)[k].box, a, forward, |Ids(t.second)|, |Ids(t)|);
    } else {
      j := TouchesSide(t.first, p, a, !forward, c.Lo(Other(a)), c.Hi(Other(a)));
      FacesMore(c, RectsIn(t.first, p)[j].box, a, forward, |Ids(t.first)|, |Ids(t)|);
    }
  }

  // ---- Neighbors ----------------------------------------------------------------------------------

  function Abs(v: real): real { if v < 0.0 then -v else v }

  // Sharing only a corner is not adjacency.
  predicate Adjacent(c: Box, d: Box, a: Axis, forward: bool) {
    Abs(Side(c, a, forward) - Side(d, a, !forward)) <= EPSILON && Shared(c, d, a) > EPSILON
  }

  function Distance(c: Box, d: Box): real {
    (c.Mid(Row) - d.Mid(Row)) * (c.Mid(Row) - d.Mid(Row)) + (c.Mid(Column) - d.Mid(Column)) * (c.Mid(Column) - d.Mid(Column))
  }

  predicate Distinct(ids: seq<string>) {
    forall i, j :: 0 <= i < j < |ids| ==> ids[i] != ids[j]
  }

  // For up to four panes, some pane is adjacent to a side exactly when the side is not
  // on the outer boundary of the unit square.
  lemma AdjacentIffInner(t: Tree, i: nat, a: Axis, forward: bool)
    requires |Ids(t)| <= MAX_PANES && i < |Rects(t)|
    ensures var c := Rects(t)[i].box;
            (exists j :: 0 <= j < |Rects(t)| && j != i && Adjacent(c, Rects(t)[j].box, a, forward))
            <==> Side(c, a, forward) != Side(UNIT, a, forward)
  {
    var c := Rects(t)[i].box;
    PanesLarge(t, i);
    if Side(c, a, forward) != Side(UNIT, a, forward) {
      var j := SomePaneFaces(t, UNIT, a, forward, i);
      FacesIsAdjacent(c, Rects(t)[j].box, a, forward, |Ids(t)|);
      assert j != i;
    } else {
      forall j | 0 <= j < |Rects(t)|
        ensures !Adjacent(c, Rects(t)[j].box, a, forward)
      {
        PanesLarge(t, j);
      }
    }
  }

  lemma PanesLarge(t: Tree, i: nat)
    requires |Ids(t)| <= MAX_PANES && i < |Rects(t)|
    ensures var c := Rects(t)[i].box;
            Inside(c, UNIT) && c.width >= 0.003375 && c.height >= 0.003375
  {
    PanesRoomy(t, UNIT, i);
    ShareShrinks(|Ids(t)|, 4, 1.0);
    assert Share(4, 1.0) == 0.003375;
  }

  lemma FacesIsAdjacent(c: Box, d: Box, a: Axis, forward: bool, n: nat)
    requires Faces(c, d, a, forward, n) && 1 <= n <= MAX_PANES
    requires c.width >= 0.003375 && c.height >= 0.003375
    ensures Adjacent(c, d, a, forward)
  {
    var x := Shared(c, d, a);
    assert Times(x, 1) == x;
    assert Times(x, 2) == x + x;
    assert Times(x, 3) == x + x + x;
    assert Times(x, 4) == x + x + x + x;
    assert n == 1 || n == 2 || n == 3 || n == 4;
  }

  // The nearest pane adjacent to a side of `panes[s]`; of equally near ones the first.
  method Nearest(panes: seq<Rect>, s: nat, a: Axis, forward: bool) returns (nearest: Option<nat>)
    requires s < |panes|
    ensures nearest.None? <==>
              forall j :: 0 <= j < |panes| && panes[j].id != panes[s].id ==>
                !Adjacent(panes[s].box, panes[j].box, a, forward)
    ensures nearest.Some? ==>
              && nearest.value < |panes| && panes[nearest.value].id != panes[s].id
              && Adjacent(panes[s].box, panes[nearest.value].box, a, forward)
              && forall j :: 0 <= j < |panes| && panes[j].id != panes[s].id
                             && Adjacent(panes[s].box, panes[j].box, a, forward) ==>
                   var near, far := Distance(panes[s].box, panes[nearest.value].box), Distance(panes[s].box, panes[j].box);
                   near <= far + EPSILON && (j < nearest.value ==> near < far)
  {
    nearest := None;
    var distance := 0.0;
    for k := 0 to |panes|
      invariant nearest.None? <==>
                  forall j :: 0 <= j < k && panes[j].id != panes[s].id ==>
                    !Adjacent(panes[s].box, panes[j].box, a, forward)
      invariant nearest.Some? ==>
                  && nearest.value < k && panes[nearest.value].id != panes[s].id
                  && Adjacent(panes[s].box, panes[nearest.value].box, a, forward)
                  && distance == Distance(panes[s].box, panes[nearest.value].box)
                  && forall j :: 0 <= j < k && panes[j].id != panes[s].id
                                 && Adjacent(panes[s].box, panes[j].box, a, forward) ==>
                       && distance <= Distance(panes[s].box, panes[j].box) + EPSILON
                       && (j < nearest.value ==> distance < Distance(panes[s].box, panes[j].box))
    {
      if panes[k].id != panes[s].id && Adjacent(panes[s].box, panes[k].box, a, forward) {
        var next := Distance(panes[s].box, panes[k].box);
        if nearest.None? || next < distance - EPSILON {
          nearest, distance := Some(k), next;
        }
      }
    }
  }

  method FindPane(panes: seq<Rect>, id: string) returns (found: Option<nat>)
    ensures found.Some? ==> found.value < |panes| && panes[found.value].id == id
    ensures found.Some? ==> forall j :: 0 <= j < found.value ==> panes[j].id != id
    ensures found.None? ==> forall j :: 0 <= j < |panes| ==> panes[j].id != id
  {
    for k := 0 to |panes|
      invariant forall j :: 0 <= j < k ==> panes[j].id != id
    {
      if panes[k].id == id {
        return Some(k);
      }
    }
    found := None;
  }

  datatype Direction = Direction(axis: Axis, forward: bool)

  function ParseDirection(d: string): Option<Direction> {
    if d == "left" then Some(Direction(Row, false))
    else if d == "right" then Some(Direction(Row, true))
    else if d == "up" then Some(Direction(Column, false))
    else if d == "down" then Some(Direction(Column, true))
    else None
  }

  // Box c lies beside box s in this direction, with more than a corner in common.
  predicate Beside(s: Box, c: Box, d: string) {
    match d
    case "left" => Abs(s.x - (c.x + c.width)) <= EPSILON && InCommon(s.y, s.height, c.y, c.height) > EPSILON
    case "right" => Abs(s.x + s.width - c.x) <= EPSILON && InCommon(s.y, s.height, c.y, c.height) > EPSILON
    case "up" => Abs(s.y - (c.y + c.height)) <= EPSILON && InCommon(s.x, s.width, c.x, c.width) > EPSILON
    case "down" => Abs(s.y + s.height - c.y) <= EPSILON && InCommon(s.x, s.width, c.x, c.width) > EPSILON
    case _ => false
  }

  // What two extents have in common.
  function InCommon(lo: real, len: real, otherLo: real, otherLen: real): real {
    (if lo + len <= otherLo + otherLen then lo + len else otherLo + otherLen) - (if lo >= otherLo then lo else otherLo)
  }

  // The squared distance of the centers.
  function Apart(s: Box, c: Box): real {
    var dx, dy := s.x + s.width / 2.0 - c.x - c.width / 2.0, s.y + s.height / 2.0 - c.y - c.height / 2.0;
    dx * dx + dy * dy
  }

  lemma BesideIsAdjacent(s: Box, c: Box, d: string)
    ensures Beside(s, c, d)
       <==> ParseDirection(d).Some? && Adjacent(s, c, ParseDirection(d).value.axis, ParseDirection(d).value.forward)
    ensures Apart(s, c) == Distance(s, c)
  {
  }

  // The first pane of this id.
  ghost predicate Finds(panes: seq<Rect>, id: string, i: nat) {
    i < |panes| && panes[i].id == id && forall j :: 0 <= j < i ==> panes[j].id != id
  }

  ghost predicate NoneBeside(panes: seq<Rect>, i: nat, d: string) {
    i < |panes| && forall j :: 0 <= j < |panes| && panes[j].id != panes[i].id ==> !Beside(panes[i].box, panes[j].box, d)
  }

  ghost predicate NearestBeside(panes: seq<Rect>, i: nat, k: nat, d: string) {
    && i < |panes| && k < |panes| && panes[k].id != panes[i].id
    && Beside(panes[i].box, panes[k].box, d)
    && forall j :: 0 <= j < |panes| && panes[j].id != panes[i].id && Beside(panes[i].box, panes[j].box, d) ==>
         Apart(panes[i].box, panes[k].box) <= Apart(panes[i].box, panes[j].box) + EPSILON
         && (j < k ==> Apart(panes[i].box, panes[k].box) < Apart(panes[i].box, panes[j].box))
  }

  // Null for an unknown direction or pane and where nothing lies beside it, which, in a tree
  // of up to four different panes, is exactly at the outer boundary. Otherwise a pane beside
  // it, nearest up to epsilon, and strictly nearer than every earlier one.
  method Neighbor(t: Tree, id: string, d: string) returns (nearest: Option<string>)
    ensures ParseDirection(d).None? || id !in Ids(t) ==> nearest.None?
    ensures ParseDirection(d).Some? && id in Ids(t) ==>
              exists i: nat :: Finds(Rects(t), id, i)
                && (nearest.None? ==> NoneBeside(Rects(t), i, d))
                && (nearest.Some? ==> exists k: nat :: NearestBeside(Rects(t), i, k, d) && Rects(t)[k].id == nearest.value)
    ensures ParseDirection(d).Some? && Distinct(Ids(t)) && |Ids(t)| <= MAX_PANES ==>
              forall i :: 0 <= i < |Rects(t)| && Rects(t)[i].id == id ==>
                var dir := ParseDirection(d).value;
                nearest.None? <==> Side(Rects(t)[i].box, dir.axis, dir.forward) == Side(UNIT, dir.axis, dir.forward)
  {
    RectsAreIds(t, UNIT);
    var direction := ParseDirection(d);
    if direction.None? {
      return None;
    }
    var panes := PushRects(t, UNIT, []);
    assert panes == Rects(t);
    var source := FindPane(panes, id);
    if source.None? {
      return None;
    }
    var s := source.value;
    assert Finds(panes, id, s);
    var found := NearestIn(panes, s, d, direction.value);
    if Distinct(Ids(t)) && |Ids(t)| <= MAX_PANES {
      NothingIffOuter(t, s, direction.value.axis, direction.value.forward);
    }
    nearest := if found.Some? then Some(panes[found.value].id) else None;
  }

  method NearestIn(panes: seq<Rect>, s: nat, ghost d: string, dir: Direction) returns (found: Option<nat>)
    requires s < |panes| && ParseDirection(d) == Some(dir)
    ensures found.None? <==> forall j :: 0 <= j < |panes| && panes[j].id != panes[s].id ==>
                               !Adjacent(panes[s].box, panes[j].box, dir.axis, dir.forward)
    ensures found.None? ==> NoneBeside(panes, s, d)
    ensures found.Some? ==> NearestBeside(panes, s, found.value, d)
  {
    found := Nearest(panes, s, dir.axis, dir.forward);
    if found.Some? {
      FoundBeside(panes, s, found.value, d);
    } else {
      NothingBeside(panes, s, d);
    }
  }

  lemma NothingIffOuter(t: Tree, s: nat, a: Axis, forward: bool)
    requires Distinct(Ids(t)) && |Ids(t)| <= MAX_PANES && s < |Rects(t)|
    ensures forall i :: 0 <= i < |Rects(t)| && Rects(t)[i].id == Rects(t)[s].id ==>
              ((forall j :: 0 <= j < |Rects(t)| && Rects(t)[j].id != Rects(t)[s].id ==>
                  !Adjacent(Rects(t)[s].box, Rects(t)[j].box, a, forward))
               <==> Side(Rects(t)[i].box, a, forward) == Side(UNIT, a, forward))
  {
    RectsAreIds(t, UNIT);
    AdjacentIffInner(t, s, a, forward);
  }

  lemma NothingBeside(panes: seq<Rect>, s: nat, d: string)
    requires s < |panes| && ParseDirection(d).Some?
    requires var dir := ParseDirection(d).value;
             forall j :: 0 <= j < |panes| && panes[j].id != panes[s].id ==>
               !Adjacent(panes[s].box, panes[j].box, dir.axis, dir.forward)
    ensures NoneBeside(panes, s, d)
  {
    forall j | 0 <= j < |panes| && panes[j].id != panes[s].id
      ensures !Beside(panes[s].box, panes[j].box, d)
    {
      BesideIsAdjacent(panes[s].box, panes[j].box, d);
    }
  }

  lemma FoundBeside(panes: seq<Rect>, s: nat, k: nat, d: string)
    requires s < |panes| && k < |panes| && panes[k].id != panes[s].id && ParseDirection(d).Some?
    requires var dir := ParseDirection(d).value; Adjacent(panes[s].box, panes[k].box, dir.axis, dir.forward)
    requires var dir := ParseDirection(d).value;
             forall j :: 0 <= j < |panes| && panes[j].id != panes[s].id
                         && Adjacent(panes[s].box, panes[j].box, dir.axis, dir.forward) ==>
               var near, far := Distance(panes[s].box, panes[k].box), Distance(panes[s].box, panes[j].box);
               near <= far + EPSILON && (j < k ==> near < far)
    ensures NearestBeside(panes, s, k, d)
  {
    forall j | 0 <= j < |panes|
      ensures Beside(panes[s].box, panes[j].box, d)
         <==> Adjacent(panes[s].box, panes[j].box, ParseDirection(d).value.axis, ParseDirection(d).value.forward)
      ensures Apart(panes[s].box, panes[j].box) == Distance(panes[s].box, panes[j].box)
    {
      BesideIsAdjacent(panes[s].box, panes[j].box, d);
    }
  }
}
