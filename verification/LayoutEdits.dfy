// Editing a split layout: splitting and removing panes, resizing, and sanitizing a
// layout of unknown origin.
module LayoutEdits {
  import opened Common
  import opened Layout

  predicate IdChar(c: char) {
    'a' <= c <= 'z' || 'A' <= c <= 'Z' || '0' <= c <= '9' || c == '_' || c == '-'
  }

  predicate ValidId(id: string) {
    1 <= |id| <= 64 && forall i :: 0 <= i < |id| ==> IdChar(id[i])
  }

  // ---- Split and remove ------------------------------------------------------------

  function SplitPanes(t: Tree, target: string, added: string, axis: Axis): Tree {
    match t
    case Pane(id) => if id == target then Split(axis, Some(0.5), t, Pane(added)) else t
    case Split(a, r, first, second) =>
      Split(a, r, SplitPanes(first, target, added, axis), SplitPanes(second, target, added, axis))
  }

  // Refused where the layout is full, the new id is taken or the target is missing.
  function SplitAt(t: Tree, target: string, added: string, axis: string): Result<Tree> {
    if axis != "row" && axis != "column" then Err("Invalid split axis")
    else if !ValidId(added) then Err("Invalid pane id")
    else if |Ids(t)| >= MAX_PANES || added in Ids(t) || target !in Ids(t) then Ok(t)
    else Ok(SplitPanes(t, target, added, if axis == "row" then Row else Column))
  }

  function Remove(t: Tree, target: string): Option<Tree> {
    match t
    case Pane(id) => if id == target then None else Some(t)
    case Split(a, r, first, second) =>
      match (Remove(first, target), Remove(second, target))
      case (None, rest) => rest
      case (rest, None) => rest
      case (Some(f), Some(s)) => Some(Split(a, r, f, s))
  }

  lemma {:induction false} RemoveAbsent(t: Tree, target: string)
    requires target !in Ids(t)
    ensures Remove(t, target) == Some(t)
  {
    if t.Split? {
      RemoveAbsent(t.first, target);
      RemoveAbsent(t.second, target);
    }
  }

  lemma {:induction false} RemoveSplitPanes(t: Tree, target: string, added: string, axis: Axis)
    requires added !in Ids(t)
    ensures Remove(SplitPanes(t, target, added, axis), added) == Some(t)
  {
    match t
    case Pane(id) =>
    case Split(a, r, first, second) =>
      RemoveSplitPanes(first, target, added, axis);
      RemoveSplitPanes(second, target, added, axis);
  }

  // Removing a pane that was just split off gives the old layout back.
  lemma RemoveUndoesSplit(t: Tree, target: string, added: string, axis: string)
    requires added !in Ids(t) && SplitAt(t, target, added, axis).Ok?
    ensures Remove(SplitAt(t, target, added, axis).value, added) == Some(t)
  {
    RemoveAbsent(t, added);
    RemoveSplitPanes(t, target, added, if axis == "row" then Row else Column);
  }

  // The ids without one, and the ids with one inserted behind another.
  function Dropped(ids: seq<string>, id: string): seq<string> {
    if ids == [] then []
    else (if ids[0] == id then [] else [ids[0]]) + Dropped(ids[1..], id)
  }

  function Inserted(ids: seq<string>, target: string, added: string): seq<string> {
    if ids == [] then []
    else (if ids[0] == target then [target, added] else [ids[0]]) + Inserted(ids[1..], target, added)
  }

  lemma {:induction false} DroppedConcat(a: seq<string>, b: seq<string>, id: string)
    ensures Dropped(a + b, id) == Dropped(a, id) + Dropped(b, id)
  {
    if a == [] {
      assert a + b == b;
    } else {
      assert (a + b)[1..] == a[1..] + b;
      DroppedConcat(a[1..], b, id);
    }
  }

  lemma {:induction false} InsertedConcat(a: seq<string>, b: seq<string>, target: string, added: string)
    ensures Inserted(a + b, target, added) == Inserted(a, target, added) + Inserted(b, target, added)
  {
    if a == [] {
      assert a + b == b;
    } else {
      assert (a + b)[1..] == a[1..] + b;
      InsertedConcat(a[1..], b, target, added);
    }
  }

  // Removing a pane keeps the others in order; nothing is left only of a lone pane.
  lemma {:induction false} RemoveKeepsOthers(t: Tree, target: string)
    ensures Dropped(Ids(t), target) == if Remove(t, target).Some? then Ids(Remove(t, target).value) else []
  {
    match t
    case Pane(id) =>
      assert Ids(t)[1..] == [];
    case Split(a, r, first, second) =>
      RemoveKeepsOthers(first, target);
      RemoveKeepsOthers(second, target);
      DroppedConcat(Ids(first), Ids(second), target);
  }

  lemma {:induction false} SplitInserts(t: Tree, target: string, added: string, axis: Axis)
    ensures Ids(SplitPanes(t, target, added, axis)) == Inserted(Ids(t), target, added)
  {
    match t
    case Pane(id) =>
      assert Ids(t)[1..] == [];
      if id == target {
        assert Ids(SplitPanes(t, target, added, axis)) == [id] + [added];
      }
    case Split(a, r, first, second) =>
      SplitInserts(first, target, added, axis);
      SplitInserts(second, target, added, axis);
      InsertedConcat(Ids(first), Ids(second), target, added);
  }

  // ---- Splitting moves nobody else ------------------------------------------------------

  function OwnBox(r: Rect, id: string): seq<Box> {
    if r.id == id then [r.box] else []
  }

  function BoxesOf(rects: seq<Rect>, id: string): seq<Box> {
    if rects == [] then [] else OwnBox(rects[0], id) + BoxesOf(rects[1..], id)
  }

  lemma {:induction false} BoxesConcat(a: seq<Rect>, b: seq<Rect>, id: string)
    ensures BoxesOf(a + b, id) == BoxesOf(a, id) + BoxesOf(b, id)
  {
    if a == [] {
      assert a + b == b;
    } else {
      assert (a + b)[1..] == a[1..] + b && (a + b)[0] == a[0];
      BoxesConcat(a[1..], b, id);
      assert BoxesOf(a + b, id) == OwnBox(a[0], id) + BoxesOf(a[1..] + b, id);
    }
  }

  // Every pane but the two involved keeps its rectangle.
  lemma {:induction false} SplitMovesNobodyElse(t: Tree, b: Box, target: string, added: string, axis: Axis, id: string)
    requires id != target && id != added
    ensures BoxesOf(RectsIn(SplitPanes(t, target, added, axis), b), id) == BoxesOf(RectsIn(t, b), id)
  {
    match t
    case Pane(i) =>
      if i == target {
        var u := SplitPanes(t, target, added, axis);
        var f := Ratio(Some(0.5));
        BoxesConcat(RectsIn(t, FirstPart(b, axis, f)), RectsIn(Pane(added), SecondPart(b, axis, f)), id);
      }
    case Split(a, r, first, second) =>
      var p, q := FirstPart(b, a, Ratio(r)), SecondPart(b, a, Ratio(r));
      SplitMovesNobodyElse(first, p, target, added, axis, id);
      SplitMovesNobodyElse(second, q, target, added, axis, id);
      BoxesConcat(RectsIn(first, p), RectsIn(second, q), id);
      BoxesConcat(RectsIn(SplitPanes(first, target, added, axis), p), RectsIn(SplitPanes(second, target, added, axis), q), id);
  }

  // ---- What a split does ----------------------------------------------------------------

  function Half(b: Box, axis: Axis, second: bool): Box {
    match axis
    case Row => Box(if second then b.x + b.width / 2.0 else b.x, b.y, b.width / 2.0, b.height)
    case Column => Box(b.x, if second then b.y + b.height / 2.0 else b.y, b.width, b.height / 2.0)
  }

  function Halves(boxes: seq<Box>, axis: Axis, second: bool): seq<Box> {
    if boxes == [] then [] else [Half(boxes[0], axis, second)] + Halves(boxes[1..], axis, second)
  }

  lemma {:induction false} HalvesConcat(a: seq<Box>, b: seq<Box>, axis: Axis, second: bool)
    ensures Halves(a + b, axis, second) == Halves(a, axis, second) + Halves(b, axis, second)
  {
    if a == [] {
      assert a + b == b;
    } else {
      assert (a + b)[1..] == a[1..] + b;
      HalvesConcat(a[1..], b, axis, second);
    }
  }

  lemma CutsInHalf(b: Box, axis: Axis)
    ensures FirstPart(b, axis, 0.5) == Half(b, axis, false) && SecondPart(b, axis, 0.5) == Half(b, axis, true)
  {
  }

  // The pane that is split keeps the first half of its rectangle, the new one gets the other.
  lemma {:induction false} SplitHalvesIn(t: Tree, b: Box, target: string, added: string, axis: Axis)
    requires added !in Ids(t) && added != target
    ensures var u := RectsIn(SplitPanes(t, target, added, axis), b); var was := BoxesOf(RectsIn(t, b), target);
            BoxesOf(u, target) == Halves(was, axis, false) && BoxesOf(u, added) == Halves(was, axis, true)
    decreases t, 1
  {
    match t
    case Pane(id) =>
      var rects := RectsIn(t, b);
      assert rects[1..] == [];
      assert BoxesOf(rects, target) == if id == target then [b] else [];
      if id == target {
        var p, q := [Rect(id, FirstPart(b, axis, 0.5))], [Rect(added, SecondPart(b, axis, 0.5))];
        assert Ratio(Some(0.5)) == 0.5;
        assert RectsIn(SplitPanes(t, target, added, axis), b) == p + q;
        CutsInHalf(b, axis);
        BoxesConcat(p, q, target);
        BoxesConcat(p, q, added);
        assert p[1..] == [] && q[1..] == [];
        assert [b][1..] == [];
        assert Halves([b], axis, false) == [Half(b, axis, false)] && Halves([b], axis, true) == [Half(b, axis, true)];
      } else {
        assert BoxesOf(rects, added) == [];
      }
    case Split(a, r, first, second) =>
      SplitHalvesBoth(t, b, target, added, axis);
  }

  lemma SplitHalvesBoth(t: Tree, b: Box, target: string, added: string, axis: Axis)
    requires t.Split? && added !in Ids(t) && added != target
    ensures var u := RectsIn(SplitPanes(t, target, added, axis), b); var was := BoxesOf(RectsIn(t, b), target);
            BoxesOf(u, target) == Halves(was, axis, false) && BoxesOf(u, added) == Halves(was, axis, true)
    decreases t, 0
  {
    var p, q := FirstPart(b, t.axis, Ratio(t.ratio)), SecondPart(b, t.axis, Ratio(t.ratio));
    var one, two := SplitPanes(t.first, target, added, axis), SplitPanes(t.second, target, added, axis);
    assert Ids(t) == Ids(t.first) + Ids(t.second);
    SplitHalvesIn(t.first, p, target, added, axis);
    SplitHalvesIn(t.second, q, target, added, axis);
    BoxesConcat(RectsIn(t.first, p), RectsIn(t.second, q), target);
    BoxesConcat(RectsIn(one, p), RectsIn(two, q), target);
    BoxesConcat(RectsIn(one, p), RectsIn(two, q), added);
    HalvesConcat(BoxesOf(RectsIn(t.first, p), target), BoxesOf(RectsIn(t.second, q), target), axis, false);
    HalvesConcat(BoxesOf(RectsIn(t.first, p), target), BoxesOf(RectsIn(t.second, q), target), axis, true);
  }

  // A split is refused for an unknown axis or an invalid id, changes nothing where the
  // layout is full, the id is taken or the target is missing, and otherwise cuts the
  // target in two equal halves, side by side for a row and one above the other for a column.
  lemma SplitHalves(t: Tree, target: string, added: string, axis: string)
    ensures SplitAt(t, target, added, axis).Ok? <==> (axis == "row" || axis == "column") && ValidId(added)
    ensures SplitAt(t, target, added, axis).Ok? ==>
              var u := SplitAt(t, target, added, axis).value;
              if |Ids(t)| < 4 && added !in Ids(t) && target in Ids(t)
              then && BoxesOf(Rects(u), target) == Halves(BoxesOf(Rects(t), target), if axis == "row" then Row else Column, false)
                   && BoxesOf(Rects(u), added) == Halves(BoxesOf(Rects(t), target), if axis == "row" then Row else Column, true)
              else u == t
  {
    if added !in Ids(t) && target in Ids(t) {
      SplitHalvesIn(t, UNIT, target, added, if axis == "row" then Row else Column);
    }
  }

  // ---- Resize -------------------------------------------------------------------------------

  datatype Part = First | Second

  function Resize(t: Tree, path: seq<Part>, value: Option<real>): Tree
    decreases t
  {
    if t.Pane? then t
    else if path == [] then t.(ratio := Some(Ratio(value)))
    else if path[0].First? then t.(first := Resize(t.first, path[1..], value))
    else t.(second := Resize(t.second, path[1..], value))
  }

  function At(t: Tree, path: seq<Part>): Option<Tree>
    decreases t
  {
    if path == [] then Some(t)
    else if t.Pane? then None
    else At(if path[0].First? then t.first else t.second, path[1..])
  }

  // The cursor that walks down.
  method WalkTo(t: Tree, path: seq<Part>) returns (current: Option<Tree>)
    ensures current == At(t, path)
  {
    var node := t;
    for k := 0 to |path|
      invariant At(t, path) == At(node, path[k..])
    {
      if node.Pane? {
        return None;
      }
      assert path[k..][1..] == path[k + 1..];
      node := if path[k].First? then node.first else node.second;
    }
    current := Some(node);
  }

  // Only the ratio of the split at the path changes, to a clamped value.
  lemma {:induction false} ResizeChangesOneRatio(t: Tree, path: seq<Part>, value: Option<real>, other: seq<Part>)
    ensures Ids(Resize(t, path, value)) == Ids(t)
    ensures At(t, path).Some? && At(t, path).value.Split? ==>
              At(Resize(t, path, value), path) == Some(At(t, path).value.(ratio := Some(Ratio(value))))
    ensures At(t, path).None? || At(t, path).value.Pane? ==> Resize(t, path, value) == t
    ensures !(other <= path) && !(path <= other) ==> At(Resize(t, path, value), other) == At(t, other)
    decreases t
  {
    if t.Split? && path != [] {
      var rest := if other == [] then [] else other[1..];
      ResizeChangesOneRatio(if path[0].First? then t.first else t.second, path[1..], value, rest);
      if other != [] && other[0] == path[0] {
        assert other <= path <==> other[1..] <= path[1..];
        assert path <= other <==> path[1..] <= other[1..];
      }
    }
  }

  // ---- Sanitize --------------------------------------------------------------------------------

  // A value of unknown origin, as far as sanitizing looks at it.
  datatype Raw =
    | NoNode
    | RawPane(id: Option<string>)
    | RawSplit(axis: Option<Axis>, ratio: Option<real>, first: Raw, second: Raw)

  // Visits first and second, collecting the ids it has taken.
  function Visit(v: Raw, depth: nat, seen: set<string>): (Option<Tree>, set<string>)
    decreases v
  {
    if depth > MAX_PANES then (None, seen)
    else
      match v
      case NoNode => (None, seen)
      case RawPane(id) =>
        if id.None? || !ValidId(id.value) || id.value in seen || |seen| >= MAX_PANES then (None, seen)
        else (Some(Pane(id.value)), seen + {id.value})
      case RawSplit(axis, ratio, first, second) =>
        if axis.None? then (None, seen)
        else
          var (f, seen1) := Visit(first, depth + 1, seen);
          var (s, seen2) := Visit(second, depth + 1, seen1);
          (if f.Some? && s.Some? then Some(Split(axis.value, Some(Ratio(ratio)), f.value, s.value)) else None, seen2)
  }

  function Sanitize(v: Raw): Option<Tree> {
    Visit(v, 0, {}).0
  }

  function ToRaw(t: Tree): Raw {
    match t
    case Pane(id) => RawPane(Some(id))
    case Split(axis, ratio, first, second) => RawSplit(Some(axis), ratio, ToRaw(first), ToRaw(second))
  }

  ghost predicate InRange(t: Tree) {
    match t
    case Pane(id) => ValidId(id)
    case Split(_, ratio, first, second) =>
      ratio.Some? && MIN_RATIO <= ratio.value <= MAX_RATIO && InRange(first) && InRange(second)
  }

  // What the rest of the layout code relies on.
  ghost predicate Sane(t: Tree) {
    InRange(t) && Distinct(Ids(t)) && |Ids(t)| <= MAX_PANES
  }

  function IdSet(t: Tree): set<string> {
    match t
    case Pane(id) => {id}
    case Split(_, _, first, second) => IdSet(first) + IdSet(second)
  }

  lemma {:induction false} IdSetIsIds(t: Tree)
    ensures forall id :: id in IdSet(t) <==> id in Ids(t)
  {
    if t.Split? {
      IdSetIsIds(t.first);
      IdSetIsIds(t.second);
    }
  }

  lemma {:induction false} VisitTakes(v: Raw, depth: nat, seen: set<string>)
    requires |seen| <= MAX_PANES
    ensures Takes(Visit(v, depth, seen), seen)
    decreases v
  {
    if depth <= MAX_PANES {
      match v
      case NoNode =>
      case RawPane(id) =>
      case RawSplit(axis, ratio, first, second) =>
        if axis.Some? {
          var seen1 := Visit(first, depth + 1, seen).1;
          VisitTakes(first, depth + 1, seen);
          VisitTakes(second, depth + 1, seen1);
          JoinTakes(v, depth, seen);
        }
    }
  }

  // What a visit that took a tree leaves behind.
  ghost predicate Takes(r: (Option<Tree>, set<string>), seen: set<string>) {
    && seen <= r.1 && |r.1| <= MAX_PANES
    && (r.0.Some? ==>
          && InRange(r.0.value) && Distinct(Ids(r.0.value))
          && IdSet(r.0.value) !! seen && r.1 == seen + IdSet(r.0.value)
          && |r.1| == |seen| + |Ids(r.0.value)|)
  }

  lemma JoinTakes(v: Raw, depth: nat, seen: set<string>)
    requires depth <= MAX_PANES && v.RawSplit? && v.axis.Some?
    requires Takes(Visit(v.first, depth + 1, seen), seen)
    requires Takes(Visit(v.second, depth + 1, Visit(v.first, depth + 1, seen).1), Visit(v.first, depth + 1, seen).1)
    ensures Takes(Visit(v, depth, seen), seen)
  {
    var one := Visit(v.first, depth + 1, seen);
    var two := Visit(v.second, depth + 1, one.1);
    if one.0.Some? && two.0.Some? {
      JoinedTakes(v.axis.value, Ratio(v.ratio), one.0.value, two.0.value, seen, one.1, two.1);
    }
  }

  lemma JoinedTakes(axis: Axis, ratio: real, f: Tree, s: Tree, seen: set<string>, seen1: set<string>, seen2: set<string>)
    requires MIN_RATIO <= ratio <= MAX_RATIO
    requires Takes((Some(f), seen1), seen) && Takes((Some(s), seen2), seen1)
    ensures Takes((Some(Split(axis, Some(ratio), f, s)), seen2), seen)
  {
    IdSetIsIds(f);
    IdSetIsIds(s);
    DistinctConcat(Ids(f), Ids(s));
  }

  lemma DistinctConcat(a: seq<string>, b: seq<string>)
    ensures Distinct(a + b) <==> Distinct(a) && Distinct(b) && forall x :: x in a ==> x !in b
  {
    if Distinct(a + b) {
      forall i, j | 0 <= i < j < |b|
        ensures b[i] != b[j]
      {
        assert (a + b)[|a| + i] == b[i] && (a + b)[|a| + j] == b[j];
      }
      forall i, j | 0 <= i < j < |a|
        ensures a[i] != a[j]
      {
        assert (a + b)[i] == a[i] && (a + b)[j] == a[j];
      }
      forall x | x in a
        ensures x !in b
      {
        var i :| 0 <= i < |a| && a[i] == x;
        forall j | 0 <= j < |b|
          ensures b[j] != x
        {
          assert (a + b)[i] != (a + b)[|a| + j];
        }
      }
    }
    if Distinct(a) && Distinct(b) && forall x :: x in a ==> x !in b {
      forall i, j | 0 <= i < j < |a + b|
        ensures (a + b)[i] != (a + b)[j]
      {
        if i < |a| <= j {
          assert a[i] in a && b[j - |a|] in b;
        }
      }
    }
  }

  // Whatever comes in, what comes out is sane.
  lemma SanitizeIsSane(v: Raw)
    requires Sanitize(v).Some?
    ensures Sane(Sanitize(v).value)
  {
    VisitTakes(v, 0, {});
  }

  function Depth(t: Tree): nat {
    match t
    case Pane(_) => 0
    case Split(_, _, first, second) => 1 + if Depth(first) >= Depth(second) then Depth(first) else Depth(second)
  }

  lemma {:induction false} DepthBelowPanes(t: Tree)
    ensures Depth(t) < |Ids(t)|
  {
    if t.Split? {
      DepthBelowPanes(t.first);
      DepthBelowPanes(t.second);
    }
  }

  lemma {:induction false} AsManyIds(t: Tree, seen: set<string>)
    requires Distinct(Ids(t)) && IdSet(t) !! seen
    ensures |seen + IdSet(t)| == |seen| + |Ids(t)|
  {
    if t.Split? {
      PartsDisjoint(t);
      AsManyIds(t.first, seen);
      AsManyIds(t.second, seen + IdSet(t.first));
      assert seen + IdSet(t) == seen + IdSet(t.first) + IdSet(t.second);
    }
  }

  lemma SecondFits(t: Tree, seen: set<string>)
    requires t.Split? && Distinct(Ids(t)) && IdSet(t) !! seen
    requires |seen| + |Ids(t)| <= MAX_PANES
    ensures Distinct(Ids(t.first)) && IdSet(t.first) !! seen && |seen| + |Ids(t.first)| <= MAX_PANES
    ensures Distinct(Ids(t.second)) && IdSet(t.second) !! seen + IdSet(t.first)
    ensures |seen + IdSet(t.first)| + |Ids(t.second)| <= MAX_PANES
    ensures seen + IdSet(t) == seen + IdSet(t.first) + IdSet(t.second)
  {
    PartsDisjoint(t);
    AsManyIds(t.first, seen);
  }

  lemma PartsDisjoint(t: Tree)
    requires t.Split? && Distinct(Ids(t))
    ensures Distinct(Ids(t.first)) && Distinct(Ids(t.second)) && IdSet(t.first) !! IdSet(t.second)
    ensures IdSet(t) == IdSet(t.first) + IdSet(t.second)
  {
    IdSetIsIds(t.first);
    IdSetIsIds(t.second);
    DistinctConcat(Ids(t.first), Ids(t.second));
  }

  // ---- What sanitizing makes of any value ------------------------------------------------

  // Every node is a pane with a valid id or a split with an axis and two such parts.
  predicate Complete(v: Raw) {
    match v
    case NoNode => false
    case RawPane(id) => id.Some? && ValidId(id.value)
    case RawSplit(axis, _, first, second) => axis.Some? && Complete(first) && Complete(second)
  }

  // The layout it describes, with every ratio clamped.
  function Described(v: Raw): Tree
    requires Complete(v)
  {
    match v
    case RawPane(id) => Pane(id.value)
    case RawSplit(axis, ratio, first, second) =>
      Split(axis.value, Some(Clamped(ratio)), Described(first), Described(second))
  }

  // A missing ratio stands for one half, and one out of range for the nearest bound.
  function Clamped(ratio: Option<real>): real {
    match ratio
    case None => 0.5
    case Some(r) => if r < 0.15 then 0.15 else if 0.85 < r then 0.85 else r
  }

  lemma {:induction false} VisitDescribes(v: Raw, depth: nat, seen: set<string>)
    ensures Visit(v, depth, seen).0.Some? ==> Complete(v) && Visit(v, depth, seen).0 == Some(Described(v))
    decreases v
  {
    if depth <= MAX_PANES && v.RawSplit? && v.axis.Some? {
      VisitDescribes(v.first, depth + 1, seen);
      VisitDescribes(v.second, depth + 1, Visit(v.first, depth + 1, seen).1);
    }
  }

  lemma {:induction false} DescribedVisit(v: Raw, depth: nat, seen: set<string>)
    requires Complete(v) && HasRoom(Described(v), depth, seen)
    ensures Visit(v, depth, seen) == (Some(Described(v)), seen + IdSet(Described(v)))
    decreases v
  {
    if v.RawSplit? {
      var seen1 := seen + IdSet(Described(v.first));
      PartsFit(v, depth, seen, seen1);
      DescribedVisit(v.first, depth + 1, seen);
      DescribedVisit(v.second, depth + 1, seen1);
      JoinedVisit(v, depth, seen, seen1, seen1 + IdSet(Described(v.second)));
    } else {
      DescribedPane(v, depth, seen);
    }
  }

  // A described layout that finds room among the ids taken so far.
  ghost predicate HasRoom(t: Tree, depth: nat, seen: set<string>) {
    Distinct(Ids(t)) && IdSet(t) !! seen && |seen| + |Ids(t)| <= MAX_PANES && depth + Depth(t) <= MAX_PANES
  }

  lemma PartsFit(v: Raw, depth: nat, seen: set<string>, seen1: set<string>)
    requires Complete(v) && v.RawSplit? && HasRoom(Described(v), depth, seen)
    requires seen1 == seen + IdSet(Described(v.first))
    ensures depth < MAX_PANES && HasRoom(Described(v.first), depth + 1, seen)
    ensures HasRoom(Described(v.second), depth + 1, seen1)
    ensures seen + IdSet(Described(v)) == seen1 + IdSet(Described(v.second))
  {
    var t := Described(v);
    assert t.Split? && t.first == Described(v.first) && t.second == Described(v.second);
    SecondFits(t, seen);
  }

  lemma DescribedPane(v: Raw, depth: nat, seen: set<string>)
    requires Complete(v) && v.RawPane? && HasRoom(Described(v), depth, seen)
    ensures Visit(v, depth, seen) == (Some(Described(v)), seen + IdSet(Described(v)))
  {
    assert Ids(Described(v)) == [v.id.value];
  }

  lemma JoinedVisit(v: Raw, depth: nat, seen: set<string>, seen1: set<string>, seen2: set<string>)
    requires Complete(v) && v.RawSplit? && depth < MAX_PANES
    requires Visit(v.first, depth + 1, seen) == (Some(Described(v.first)), seen1)
    requires Visit(v.second, depth + 1, seen1) == (Some(Described(v.second)), seen2)
    ensures Visit(v, depth, seen) == (Some(Described(v)), seen2)
  {
    assert Clamped(v.ratio) == Ratio(v.ratio);
  }

  lemma {:induction false} DescribedRaw(t: Tree)
    requires InRange(t)
    ensures Complete(ToRaw(t)) && Described(ToRaw(t)) == t
  {
    if t.Split? {
      DescribedRaw(t.first);
      DescribedRaw(t.second);
    }
  }

  // Sanitizing gives a layout if and only if every node is complete, no id repeats and
  // there are at most four panes; it is then the layout described, with clamped ratios.
  lemma SanitizeExact(v: Raw)
    ensures Sanitize(v).Some? <==> Complete(v) && Distinct(Ids(Described(v))) && |Ids(Described(v))| <= 4
    ensures Sanitize(v).Some? ==> Sanitize(v).value == Described(v)
  {
    VisitDescribes(v, 0, {});
    if Sanitize(v).Some? {
      SanitizeIsSane(v);
    }
    if Complete(v) && Distinct(Ids(Described(v))) && |Ids(Described(v))| <= 4 {
      DepthBelowPanes(Described(v));
      DescribedVisit(v, 0, {});
    }
  }

  // A layout passes unchanged exactly when it is sane; so sanitizing twice is
  // sanitizing once.
  lemma SanitizeKeepsExactlySane(t: Tree)
    ensures Sanitize(ToRaw(t)) == Some(t) <==> Sane(t)
  {
    if Sane(t) {
      DescribedRaw(t);
      SanitizeExact(ToRaw(t));
    }
    if Sanitize(ToRaw(t)) == Some(t) {
      SanitizeIsSane(ToRaw(t));
    }
  }

  lemma SanitizeIdempotent(v: Raw)
    requires Sanitize(v).Some?
    ensures Sanitize(ToRaw(Sanitize(v).value)) == Sanitize(v)
  {
    SanitizeIsSane(v);
    SanitizeKeepsExactlySane(Sanitize(v).value);
  }

  // Editing keeps a layout sane.
  lemma {:induction false} SplitKeepsRange(t: Tree, target: string, added: string, axis: Axis)
    requires InRange(t) && ValidId(added)
    ensures InRange(SplitPanes(t, target, added, axis))
  {
    if t.Split? {
      SplitKeepsRange(t.first, target, added, axis);
      SplitKeepsRange(t.second, target, added, axis);
    }
  }

  lemma {:induction false} InsertedDistinct(ids: seq<string>, target: string, added: string)
    requires Distinct(ids) && added !in ids && added != target
    ensures Distinct(Inserted(ids, target, added))
    ensures |Inserted(ids, target, added)| == |ids| + if target in ids then 1 else 0
    ensures forall x :: x in Inserted(ids, target, added) <==> x in ids || (x == added && target in ids)
  {
    if ids != [] {
      InsertedDistinct(ids[1..], target, added);
      var front := if ids[0] == target then [target, added] else [ids[0]];
      assert ids == [ids[0]] + ids[1..];
      DistinctConcat([ids[0]], ids[1..]);
      DistinctConcat(front, Inserted(ids[1..], target, added));
    }
  }

  lemma SplitKeepsSane(t: Tree, target: string, added: string, axis: string)
    requires Sane(t) && SplitAt(t, target, added, axis).Ok?
    ensures Sane(SplitAt(t, target, added, axis).value)
  {
    var u := SplitAt(t, target, added, axis).value;
    if u != t {
      var a := if axis == "row" then Row else Column;
      SplitKeepsRange(t, target, added, a);
      SplitInserts(t, target, added, a);
      InsertedDistinct(Ids(t), target, added);
    }
  }
}
