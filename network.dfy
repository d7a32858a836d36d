/**
  The network side of the annotator (gui/network.py): the overlay categories and
  elements, the bounding box found when a network is loaded, and the transforms
  between network-model space and the normalized drawing space, which is
  SizeFactor units wide, keeps the network's aspect ratio and has Y pointing down.

  Python floats are modelled as reals and Python's int() as Trunc.
*/
module Network {
  import opened Wrappers

  // ---------------------------------------------------------------------------
  // Overlay categories and elements
  // ---------------------------------------------------------------------------

  /** The closed set of categories an overlay point can have. */
  datatype OverlayType = House | Apartments | Wholesale | Commercial | Institutional | Industrial | Other

  const AllOverlayTypes: seq<OverlayType> :=
    [House, Apartments, Wholesale, Commercial, Institutional, Industrial, Other]

  /** The string value of a category, as it appears in an overlay file. */
  function TypeName(t: OverlayType): string
  {
    match t
    case House => "House"
    case Apartments => "Apartments"
    case Wholesale => "Wholesale"
    case Commercial => "Commercial"
    case Institutional => "Institutional"
    case Industrial => "Industrial"
    case Other => "Other"
  }

  /** Lookup of a category by its string value; None where Python raises ValueError. */
  function ParseType(s: string): (r: Option<OverlayType>)
    ensures r.Some? ==> TypeName(r.value) == s
    ensures (exists t :: TypeName(t) == s) ==> r.Some?
  {
    if s == "House" then Some(House)
    else if s == "Apartments" then Some(Apartments)
    else if s == "Wholesale" then Some(Wholesale)
    else if s == "Commercial" then Some(Commercial)
    else if s == "Institutional" then Some(Institutional)
    else if s == "Industrial" then Some(Industrial)
    else if s == "Other" then Some(Other)
    else None
  }

  /** There are exactly seven categories, and their string values tell them apart. */
  lemma OverlayTypesClosed()
    ensures |AllOverlayTypes| == 7
    ensures forall t: OverlayType :: t in AllOverlayTypes
    ensures forall t, u :: TypeName(t) == TypeName(u) ==> t == u
    ensures forall t :: ParseType(TypeName(t)) == Some(t)
  {
    forall t: OverlayType ensures t in AllOverlayTypes {
      match t
      case House => assert AllOverlayTypes[0] == t;
      case Apartments => assert AllOverlayTypes[1] == t;
      case Wholesale => assert AllOverlayTypes[2] == t;
      case Commercial => assert AllOverlayTypes[3] == t;
      case Institutional => assert AllOverlayTypes[4] == t;
      case Industrial => assert AllOverlayTypes[5] == t;
      case Other => assert AllOverlayTypes[6] == t;
    }
  }

  /** An annotation point, stored in network-model coordinates. */
  datatype OverlayElement = OverlayElement(x: real, y: real, overlayType: OverlayType := House)

  /** An element built without a category is a House. */
  lemma ElementDefaultsToHouse(x: real, y: real)
    ensures OverlayElement(x, y) == OverlayElement(x, y, House)
  {
  }

  // ---------------------------------------------------------------------------
  // Python's int() on a float
  // ---------------------------------------------------------------------------

  /** Truncation toward zero, as Python's int() does it (not the floor). */
  function Trunc(r: real): (t: int)
    ensures 0.0 <= r ==> 0 <= t && t as real <= r < t as real + 1.0
    ensures r < 0.0 ==> t <= 0 && t as real - 1.0 < r <= t as real
  {
    if r >= 0.0 then r.Floor else -((-r).Floor)
  }

  /** Truncation leaves a whole number alone. */
  lemma TruncWhole(n: int)
    ensures Trunc(n as real) == n
  {
  }

  // ---------------------------------------------------------------------------
  // The bounding box and the bounds scan
  // ---------------------------------------------------------------------------

  /** `_net_offset_x`, `_net_offset_y`, `_net_width`, `_net_height`. */
  datatype Bounds = Bounds(offsetX: real, offsetY: real, width: real, height: real)
  {
    /** The box is what a successful load leaves: positive on both axes. */
    predicate NonDegenerate()
    {
      width > 0.0 && height > 0.0
    }

    /** The closed box [offsetX, offsetX + width] x [offsetY, offsetY + height]. */
    predicate Contains(p: (real, real))
    {
      offsetX <= p.0 <= offsetX + width && offsetY <= p.1 <= offsetY + height
    }
  }

  datatype Axis = X | Y

  function Coord(p: (real, real), a: Axis): real
  {
    if a == X then p.0 else p.1
  }

  /** The running minimum of the scan along `a`, taken left to right. */
  function MinAlong(nodes: seq<(real, real)>, a: Axis): real
    requires |nodes| > 0
  {
    if |nodes| == 1 then Coord(nodes[0], a)
    else
      var m := MinAlong(nodes[..|nodes| - 1], a);
      var c := Coord(nodes[|nodes| - 1], a);
      if c < m then c else m
  }

  /** The running maximum of the scan along `a`, taken left to right. */
  function MaxAlong(nodes: seq<(real, real)>, a: Axis): real
    requires |nodes| > 0
  {
    if |nodes| == 1 then Coord(nodes[0], a)
    else
      var m := MaxAlong(nodes[..|nodes| - 1], a);
      var c := Coord(nodes[|nodes| - 1], a);
      if c > m then c else m
  }

  /** MinAlong is the least coordinate of some node. */
  lemma {:induction false} MinAlongIsLeast(nodes: seq<(real, real)>, a: Axis)
    requires |nodes| > 0
    ensures forall i :: 0 <= i < |nodes| ==> MinAlong(nodes, a) <= Coord(nodes[i], a)
    ensures exists i :: 0 <= i < |nodes| && MinAlong(nodes, a) == Coord(nodes[i], a)
  {
    if |nodes| > 1 {
      var init := nodes[..|nodes| - 1];
      MinAlongIsLeast(init, a);
      var k :| 0 <= k < |init| && MinAlong(init, a) == Coord(init[k], a);
      assert forall i :: 0 <= i < |init| ==> init[i] == nodes[i];
      if Coord(nodes[|nodes| - 1], a) < MinAlong(init, a) {
        assert MinAlong(nodes, a) == Coord(nodes[|nodes| - 1], a);
      } else {
        assert MinAlong(nodes, a) == Coord(nodes[k], a);
      }
    } else {
      assert MinAlong(nodes, a) == Coord(nodes[0], a);
    }
  }

  /** MaxAlong is the greatest coordinate of some node. */
  lemma {:induction false} MaxAlongIsGreatest(nodes: seq<(real, real)>, a: Axis)
    requires |nodes| > 0
    ensures forall i :: 0 <= i < |nodes| ==> Coord(nodes[i], a) <= MaxAlong(nodes, a)
    ensures exists i :: 0 <= i < |nodes| && MaxAlong(nodes, a) == Coord(nodes[i], a)
  {
    if |nodes| > 1 {
      var init := nodes[..|nodes| - 1];
      MaxAlongIsGreatest(init, a);
      var k :| 0 <= k < |init| && MaxAlong(init, a) == Coord(init[k], a);
      assert forall i :: 0 <= i < |init| ==> init[i] == nodes[i];
      if Coord(nodes[|nodes| - 1], a) > MaxAlong(init, a) {
        assert MaxAlong(nodes, a) == Coord(nodes[|nodes| - 1], a);
      } else {
        assert MaxAlong(nodes, a) == Coord(nodes[k], a);
      }
    } else {
      assert MaxAlong(nodes, a) == Coord(nodes[0], a);
    }
  }

  /** The box the bounds scan of `load_network` computes from a non-empty node list. */
  function ScanBox(nodes: seq<(real, real)>): Bounds
    requires |nodes| > 0
  {
    var minX := MinAlong(nodes, X);
    var minY := MinAlong(nodes, Y);
    Bounds(minX, minY, MaxAlong(nodes, X) - minX, MaxAlong(nodes, Y) - minY)
  }

  /** The scanned box holds every node, and each of its four sides touches a node. */
  lemma ScanBoxIsTight(nodes: seq<(real, real)>)
    requires |nodes| > 0
    ensures var b := ScanBox(nodes);
      && b.width >= 0.0 && b.height >= 0.0
      && (forall i :: 0 <= i < |nodes| ==> b.Contains(nodes[i]))
      && (exists i :: 0 <= i < |nodes| && nodes[i].0 == b.offsetX)
      && (exists i :: 0 <= i < |nodes| && nodes[i].1 == b.offsetY)
      && (exists i :: 0 <= i < |nodes| && nodes[i].0 == b.offsetX + b.width)
      && (exists i :: 0 <= i < |nodes| && nodes[i].1 == b.offsetY + b.height)
  {
    MinAlongIsLeast(nodes, X);
    MinAlongIsLeast(nodes, Y);
    MaxAlongIsGreatest(nodes, X);
    MaxAlongIsGreatest(nodes, Y);
    var b := ScanBox(nodes);
    forall i | 0 <= i < |nodes| ensures b.Contains(nodes[i]) {
      assert Coord(nodes[i], X) == nodes[i].0 && Coord(nodes[i], Y) == nodes[i].1;
    }
    var ix :| 0 <= ix < |nodes| && MinAlong(nodes, X) == Coord(nodes[ix], X);
    var iy :| 0 <= iy < |nodes| && MinAlong(nodes, Y) == Coord(nodes[iy], Y);
    var jx :| 0 <= jx < |nodes| && MaxAlong(nodes, X) == Coord(nodes[jx], X);
    var jy :| 0 <= jy < |nodes| && MaxAlong(nodes, Y) == Coord(nodes[jy], Y);
    assert nodes[ix].0 == b.offsetX && nodes[iy].1 == b.offsetY;
    assert nodes[jx].0 == b.offsetX + b.width && nodes[jy].1 == b.offsetY + b.height;
  }

  /** Two nodes that differ along `a`. */
  ghost predicate Spread(nodes: seq<(real, real)>, a: Axis)
  {
    exists i, j :: 0 <= i < |nodes| && 0 <= j < |nodes| && Coord(nodes[i], a) < Coord(nodes[j], a)
  }

  /** The scanned box is non-degenerate exactly when the nodes differ in x and differ in y;
      in particular a network whose nodes all share one coordinate is rejected. */
  lemma ScanBoxNonDegenerateIff(nodes: seq<(real, real)>)
    requires |nodes| > 0
    ensures ScanBox(nodes).NonDegenerate() <==> Spread(nodes, X) && Spread(nodes, Y)
  {
    MinAlongIsLeast(nodes, X);
    MinAlongIsLeast(nodes, Y);
    MaxAlongIsGreatest(nodes, X);
    MaxAlongIsGreatest(nodes, Y);
    if Spread(nodes, X) {
      var i, j :| 0 <= i < |nodes| && 0 <= j < |nodes| && Coord(nodes[i], X) < Coord(nodes[j], X);
      assert MinAlong(nodes, X) < MaxAlong(nodes, X);
    }
    if Spread(nodes, Y) {
      var i, j :| 0 <= i < |nodes| && 0 <= j < |nodes| && Coord(nodes[i], Y) < Coord(nodes[j], Y);
      assert MinAlong(nodes, Y) < MaxAlong(nodes, Y);
    }
    if ScanBox(nodes).width > 0.0 {
      var i :| 0 <= i < |nodes| && MinAlong(nodes, X) == Coord(nodes[i], X);
      var j :| 0 <= j < |nodes| && MaxAlong(nodes, X) == Coord(nodes[j], X);
      assert Coord(nodes[i], X) < Coord(nodes[j], X);
    }
    if ScanBox(nodes).height > 0.0 {
      var i :| 0 <= i < |nodes| && MinAlong(nodes, Y) == Coord(nodes[i], Y);
      var j :| 0 <= j < |nodes| && MaxAlong(nodes, Y) == Coord(nodes[j], Y);
      assert Coord(nodes[i], Y) < Coord(nodes[j], Y);
    }
  }

  // ---------------------------------------------------------------------------
  // Drawing space
  // ---------------------------------------------------------------------------

  /** `SIZE_FACTOR`: the width of the drawing space. */
  const SizeFactor: real := 1000.0

  /** `dim_y`: the height of the drawing space, SizeFactor scaled by height / width. */
  function DrawingHeight(b: Bounds): (h: real)
    requires b.width > 0.0
    ensures b.height > 0.0 ==> h > 0.0
    ensures h / SizeFactor == b.height / b.width
  {
    SizeFactor * b.height / b.width
  }

  /** `_from_net_coords` before its int() truncation. */
  function FromNetCoordsReal(b: Bounds, netX: real, netY: real): (real, real)
    requires b.NonDegenerate()
  {
    var x := (netX - b.offsetX) / b.width;
    var y := (netY - b.offsetY) / b.height;
    var dimY := DrawingHeight(b);
    (x * SizeFactor, dimY - y * dimY)
  }

  /** `_from_net_coords`: network-model coordinates to whole drawing-space units. */
  function FromNetCoords(b: Bounds, netX: real, netY: real): (int, int)
    requires b.NonDegenerate()
  {
    var p := FromNetCoordsReal(b, netX, netY);
    (Trunc(p.0), Trunc(p.1))
  }

  /** `_to_net_coords`: drawing-space coordinates back to network-model space. */
  function ToNetCoords(b: Bounds, x: real, y: real): (real, real)
    requires b.NonDegenerate()
  {
    var netX := (x / SizeFactor) * b.width + b.offsetX;
    var dimY := DrawingHeight(b);
    var netY := ((dimY - y) / dimY) * b.height + b.offsetY;
    (netX, netY)
  }

  /** Where a drawing-space coordinate lands on screen at a scale and pan offset. */
  function ScreenPos(c: real, scale: real, offset: real): real
  {
    c * scale + offset
  }

  /** `get_dimensions`: the on-screen extent of the drawn network. */
  function GetDimensions(b: Bounds, scale: real, offsetX: real, offsetY: real): (int, int)
    requires b.width > 0.0
  {
    (Trunc(SizeFactor * scale + offsetX), Trunc(DrawingHeight(b) * scale + offsetY))
  }

  /** Dividing by a non-zero number and multiplying back cancel. */
  lemma Cancel(a: real, c: real)
    requires c != 0.0
    ensures (a / c) * c == a && (a * c) / c == a
  {
  }

  /** In real arithmetic `_to_net_coords` undoes `_from_net_coords`, Y flip included. */
  lemma ToNetUndoesFromNet(b: Bounds, netX: real, netY: real)
    requires b.NonDegenerate()
    ensures var p := FromNetCoordsReal(b, netX, netY);
      ToNetCoords(b, p.0, p.1) == (netX, netY)
  {
    var x := (netX - b.offsetX) / b.width;
    var y := (netY - b.offsetY) / b.height;
    var d := DrawingHeight(b);
    var p := FromNetCoordsReal(b, netX, netY);
    assert p.0 == x * SizeFactor;
    assert p.1 == d - y * d;
    Cancel(x, SizeFactor);
    Cancel(netX - b.offsetX, b.width);
    assert ToNetCoords(b, p.0, p.1).0 == x * b.width + b.offsetX == netX;
    assert d - p.1 == y * d;
    Cancel(y, d);
    Cancel(netY - b.offsetY, b.height);
    assert ToNetCoords(b, p.0, p.1).1 == ((y * d) / d) * b.height + b.offsetY == netY;
  }

  /** In real arithmetic `_from_net_coords` undoes `_to_net_coords`. */
  lemma FromNetUndoesToNet(b: Bounds, x: real, y: real)
    requires b.NonDegenerate()
    ensures var p := ToNetCoords(b, x, y);
      FromNetCoordsReal(b, p.0, p.1) == (x, y)
  {
    var d := DrawingHeight(b);
    var p := ToNetCoords(b, x, y);
    assert p.0 == (x / SizeFactor) * b.width + b.offsetX;
    assert p.1 == ((d - y) / d) * b.height + b.offsetY;
    var r := FromNetCoordsReal(b, p.0, p.1);
    Cancel(x / SizeFactor, b.width);
    Cancel(x, SizeFactor);
    assert p.0 - b.offsetX == (x / SizeFactor) * b.width;
    assert (p.0 - b.offsetX) / b.width == x / SizeFactor;
    assert r.0 == ((p.0 - b.offsetX) / b.width) * SizeFactor;
    assert r.0 == x;
    Cancel((d - y) / d, b.height);
    Cancel(d - y, d);
    assert p.1 - b.offsetY == ((d - y) / d) * b.height;
    assert (p.1 - b.offsetY) / b.height == (d - y) / d;
    assert r.1 == d - ((p.1 - b.offsetY) / b.height) * d;
    assert r.1 == y;
  }

  /** A whole drawing-space point survives the trip to network space and back exactly,
      int() truncation included. */
  lemma WholePointRoundTrip(b: Bounds, u: int, v: int)
    requires b.NonDegenerate()
    ensures var p := ToNetCoords(b, u as real, v as real);
      FromNetCoords(b, p.0, p.1) == (u, v)
  {
    FromNetUndoesToNet(b, u as real, v as real);
    TruncWhole(u);
    TruncWhole(v);
  }

  /** The top-left corner of the box maps to (0, 0) and the bottom-right one to
      (SizeFactor, dim_y): higher network Y is drawn higher up. */
  lemma FromNetCorners(b: Bounds)
    requires b.NonDegenerate()
    ensures FromNetCoords(b, b.offsetX, b.offsetY + b.height) == (0, 0)
    ensures FromNetCoords(b, b.offsetX + b.width, b.offsetY) == (1000, Trunc(DrawingHeight(b)))
  {
    var d := DrawingHeight(b);
    Cancel(1.0, b.width);
    Cancel(1.0, b.height);
    var top := FromNetCoordsReal(b, b.offsetX, b.offsetY + b.height);
    assert top.0 == 0.0 && top.1 == d - 1.0 * d;
    var bottom := FromNetCoordsReal(b, b.offsetX + b.width, b.offsetY);
    assert bottom.0 == 1.0 * SizeFactor && bottom.1 == d - 0.0 * d;
  }

  /** The transform is increasing in X and decreasing in Y (the Y flip). */
  lemma FromNetOrientation(b: Bounds, p: (real, real), q: (real, real))
    requires b.NonDegenerate()
    ensures p.0 < q.0 ==> FromNetCoordsReal(b, p.0, p.1).0 < FromNetCoordsReal(b, q.0, q.1).0
    ensures p.1 < q.1 ==> FromNetCoordsReal(b, p.0, p.1).1 > FromNetCoordsReal(b, q.0, q.1).1
  {
    var d := DrawingHeight(b);
    if p.0 < q.0 {
      assert (p.0 - b.offsetX) / b.width < (q.0 - b.offsetX) / b.width;
    }
    if p.1 < q.1 {
      var yp := (p.1 - b.offsetY) / b.height;
      var yq := (q.1 - b.offsetY) / b.height;
      assert yp < yq;
      assert yp * d < yq * d;
    }
  }

  /** Every point of the box lands in [0, SizeFactor] x [0, dim_y]. */
  lemma FromNetMapsBoxIntoDrawing(b: Bounds, p: (real, real))
    requires b.NonDegenerate() && b.Contains(p)
    ensures var r := FromNetCoordsReal(b, p.0, p.1);
      0.0 <= r.0 <= SizeFactor && 0.0 <= r.1 <= DrawingHeight(b)
  {
    var x := (p.0 - b.offsetX) / b.width;
    var y := (p.1 - b.offsetY) / b.height;
    var d := DrawingHeight(b);
    assert 0.0 <= x <= 1.0;
    assert 0.0 <= y <= 1.0;
    assert 0.0 <= y * d <= d;
  }

  /** Equal drawing-space coordinates land on the same screen position. */
  lemma SameScreenPos(c: real, d: real, scale: real, offset: real)
    requires c == d
    ensures ScreenPos(c, scale, offset) == ScreenPos(d, scale, offset)
  {
  }

  /** The extent `get_dimensions` reports is where the bottom-right corner of the
      drawing space lands on screen, truncated. */
  lemma GetDimensionsIsFarCorner(b: Bounds, scale: real, offsetX: real, offsetY: real)
    requires b.NonDegenerate()
    ensures var c := FromNetCoordsReal(b, b.offsetX + b.width, b.offsetY);
      GetDimensions(b, scale, offsetX, offsetY)
        == (Trunc(ScreenPos(c.0, scale, offsetX)), Trunc(ScreenPos(c.1, scale, offsetY)))
  {
    Cancel(1.0, b.width);
    var c := FromNetCoordsReal(b, b.offsetX + b.width, b.offsetY);
    assert c.0 == SizeFactor;
    assert c.1 == DrawingHeight(b);
    SameScreenPos(c.0, SizeFactor, scale, offsetX);
    SameScreenPos(c.1, DrawingHeight(b), scale, offsetY);
    var g := GetDimensions(b, scale, offsetX, offsetY);
    assert g.0 == Trunc(ScreenPos(SizeFactor, scale, offsetX));
    assert g.1 == Trunc(ScreenPos(DrawingHeight(b), scale, offsetY));
  }

  /** The extent depends on the network only through its aspect ratio height / width. */
  lemma GetDimensionsDependsOnRatio(b1: Bounds, b2: Bounds, scale: real, offsetX: real, offsetY: real)
    requires b1.width > 0.0 && b2.width > 0.0
    requires b1.height / b1.width == b2.height / b2.width
    ensures GetDimensions(b1, scale, offsetX, offsetY) == GetDimensions(b2, scale, offsetX, offsetY)
  {
    var h1, h2 := DrawingHeight(b1), DrawingHeight(b2);
    assert h1 / SizeFactor == h2 / SizeFactor;
    Cancel(h1, SizeFactor);
    Cancel(h2, SizeFactor);
    assert h1 == h2;
    var g1, g2 := GetDimensions(b1, scale, offsetX, offsetY), GetDimensions(b2, scale, offsetX, offsetY);
    assert g1.0 == g2.0;
    assert g1.1 == g2.1;
  }

  // ---------------------------------------------------------------------------
  // The network object
  // ---------------------------------------------------------------------------

  /** A loaded network: the node coordinates the model library supplied, the box
      found by the scan and the overlay elements, all updated in place. */
  class Network {
    var nodes: seq<(real, real)>
    var offsetX: real
    var offsetY: real
    var height: real
    var width: real
    var elements: seq<OverlayElement>

    constructor ()
      ensures nodes == [] && elements == []
      ensures offsetX == 0.0 && offsetY == 0.0 && height == 0.0 && width == 0.0
    {
      nodes := [];
      offsetX, offsetY, height, width := 0.0, 0.0, 0.0, 0.0;
      elements := [];
    }

    function Box(): Bounds
      reads this
    {
      Bounds(offsetX, offsetY, width, height)
    }

    /** `load_network` given the node coordinates: scan for the bounding box and
        report whether it is non-degenerate. */
    method LoadNetwork(nodeCoords: seq<(real, real)>) returns (ok: bool)
      modifies this
      ensures nodes == nodeCoords && elements == old(elements)
      ensures |nodeCoords| > 0 ==> Box() == ScanBox(nodeCoords)
      ensures |nodeCoords| == 0 ==>
        Box() == Bounds(old(offsetX), old(offsetY), old(width) - old(offsetX), old(height) - old(offsetY))
      ensures ok <==> Box().NonDegenerate()
    {
      nodes := nodeCoords;
      var firstNode := true;
      var i := 0;
      while i < |nodeCoords|
        invariant 0 <= i <= |nodeCoords|
        invariant firstNode <==> i == 0
        invariant nodes == nodeCoords && elements == old(elements)
        invariant i == 0 ==>
          offsetX == old(offsetX) && offsetY == old(offsetY) && width == old(width) && height == old(height)
        invariant i > 0 ==>
          offsetX == MinAlong(nodeCoords[..i], X) && offsetY == MinAlong(nodeCoords[..i], Y) &&
          width == MaxAlong(nodeCoords[..i], X) && height == MaxAlong(nodeCoords[..i], Y)
      {
        var (x, y) := nodeCoords[i];
        if firstNode {
          offsetX := x;
          offsetY := y;
          width := x;
          height := y;
          firstNode := false;
        }
        if x < offsetX {
          offsetX := x;
        }
        if y < offsetY {
          offsetY := y;
        }
        if x > width {
          width := x;
        }
        if y > height {
          height := y;
        }
        assert nodeCoords[..i + 1][..i] == nodeCoords[..i];
        i := i + 1;
      }
      assert nodeCoords[..|nodeCoords|] == nodeCoords;
      width := width - offsetX;
      height := height - offsetY;
      ok := height > 0.0 && width > 0.0;
    }

    /** `add_overlay_element`: append one element at the network-space image of the
        drawing-space point (x, y). */
    method AddOverlayElement(x: int, y: int, overlayType: OverlayType)
      requires Box().NonDegenerate()
      modifies this`elements
      ensures var p := ToNetCoords(Box(), x as real, y as real);
        elements == old(elements) + [OverlayElement(p.0, p.1, overlayType)]
    {
      var (netX, netY) := ToNetCoords(Box(), x as real, y as real);
      elements := elements + [OverlayElement(netX, netY, overlayType)];
    }
  }
}
