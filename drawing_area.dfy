/**
  The drawing area (annotator/drawing_area.py): the view state of the three layers,
  the zoom command, the press/release pointer machine, the canvas size, loading a
  network, and loading and saving an overlay file.

  The widget toolkit, the image library and the network-model library are outside
  the model: the displayed image size, the parsed node coordinates and the decoded
  overlay file arrive as inputs.
*/
module DrawingArea {
  import opened Wrappers
  import opened Network
  import opened OverlayFile

  /** The layer the pointer acts on. */
  datatype Layer = BackgroundLayer | NetworkLayer | OverlayLayer

  /** The size of the displayed background image, as the image library reports it. */
  datatype ImageSize = ImageSize(width: nat, height: nat)

  /** The press-point coordinate that means no press is recorded. */
  const NoPress: int := -1

  function Abs(r: real): real
  {
    if r < 0.0 then -r else r
  }

  /** A screen point lies on the displayed image placed at (offX, offY), edges included. */
  predicate OnImage(img: ImageSize, offX: real, offY: real, x: int, y: int)
  {
    x as real >= offX && x as real <= img.width as real + offX &&
    y as real >= offY && y as real <= img.height as real + offY
  }

  /** A screen point lies between the network pan offset and the extent `get_dimensions`
      reports for the network drawn at zoom `ratio`. */
  predicate OnNetwork(b: Bounds, ratio: real, offX: real, offY: real, x: int, y: int)
    requires b.width > 0.0
  {
    var (w, h) := GetDimensions(b, ratio, offX, offY);
    x as real >= offX && x <= w && y as real >= offY && y <= h
  }

  /** The drawing-space point a click on the Overlay layer is turned into: the screen point
      less the network pan, divided by the network zoom, each truncated by int(). */
  function ClickToDrawing(ratio: real, offX: real, offY: real, x: int, y: int): (int, int)
    requires ratio != 0.0
  {
    (Trunc((x as real - offX) / ratio), Trunc((y as real - offY) / ratio))
  }

  /** A product strictly between -1 and 1 times a positive factor stays within that factor. */
  lemma ProductWithin(d: real, r: real)
    requires r > 0.0 && -1.0 < d < 1.0
    ensures Abs(d * r) < r
  {
  }

  /** How far a drawing-space coordinate u, placed on screen, lies from the screen
      coordinate c: the gap between u and c's own drawing-space value, times the zoom. */
  lemma ScreenGap(u: real, c: real, offset: real, r: real)
    requires r > 0.0
    ensures ScreenPos(u, r, offset) - c == (u - (c - offset) / r) * r
  {
  }

  /** Undoing the pan and zoom of a screen coordinate and truncating, then placing the
      result on screen again, lands within one zoom unit of the coordinate. */
  lemma TruncScaledBack(c: real, offset: real, ratio: real)
    requires ratio > 0.0
    ensures Abs(ScreenPos(Trunc((c - offset) / ratio) as real, ratio, offset) - c) < ratio
  {
    var q := (c - offset) / ratio;
    var u := Trunc(q) as real;
    assert -1.0 < u - q < 1.0 by {
      if q >= 0.0 {
        assert u <= q < u + 1.0;
      } else {
        assert u - 1.0 < q <= u;
      }
    }
    ProductWithin(u - q, ratio);
    ScreenGap(u, c, offset, ratio);
  }

  /** A point placed by a click on the Overlay layer, stored in network space and drawn
      again through `_from_net_coords` at the same zoom and pan, comes back to the same
      drawing-space point and lands on screen within one zoom unit of the click. */
  lemma OverlayClickRedrawnNearClick(b: Bounds, ratio: real, offX: real, offY: real, x: int, y: int)
    requires b.NonDegenerate() && ratio > 0.0
    ensures var c := ClickToDrawing(ratio, offX, offY, x, y);
      var p := ToNetCoords(b, c.0 as real, c.1 as real);
      var d := FromNetCoords(b, p.0, p.1);
      && d == c
      && Abs(ScreenPos(d.0 as real, ratio, offX) - x as real) < ratio
      && Abs(ScreenPos(d.1 as real, ratio, offY) - y as real) < ratio
  {
    var c := ClickToDrawing(ratio, offX, offY, x, y);
    WholePointRoundTrip(b, c.0, c.1);
    TruncScaledBack(x as real, offX, ratio);
    TruncScaledBack(y as real, offY, ratio);
  }

  /** A worked click: network box (0, 0, 100, 50), network zoom 2 and pan (5, 5). A click
      at (205, 55) is drawing-space point (100, 25), stored as network point (10, 47.5),
      because drawing space is SizeFactor units wide. */
  lemma OverlayClickExample()
    ensures ClickToDrawing(2.0, 5.0, 5.0, 205, 55) == (100, 25)
    ensures ToNetCoords(Bounds(0.0, 0.0, 100.0, 50.0), 100.0, 25.0) == (10.0, 47.5)
  {
    assert DrawingHeight(Bounds(0.0, 0.0, 100.0, 50.0)) == 500.0;
  }

  /** The extent of the background image on the canvas: its size plus its pan offset, or
      (0, 0) without an image. */
  function ImageExtent(image: Option<ImageSize>, offX: real, offY: real): (real, real)
  {
    if image.Some? then (image.value.width as real + offX, image.value.height as real + offY)
    else (0.0, 0.0)
  }

  /** The size `on_draw` requests for the canvas: the image extent, widened to the network
      extent where that is larger, axis by axis. */
  function CanvasSize(image: Option<ImageSize>, offX: real, offY: real, netDims: Option<(int, int)>): (r: (real, real))
    ensures image.None? && netDims.None? ==> r == (0.0, 0.0)
    ensures ImageExtent(image, offX, offY).0 <= r.0 && ImageExtent(image, offX, offY).1 <= r.1
    ensures netDims.Some? ==> netDims.value.0 as real <= r.0 && netDims.value.1 as real <= r.1
    ensures r.0 == ImageExtent(image, offX, offY).0 || (netDims.Some? && r.0 == netDims.value.0 as real)
    ensures r.1 == ImageExtent(image, offX, offY).1 || (netDims.Some? && r.1 == netDims.value.1 as real)
  {
    var (width, height) := ImageExtent(image, offX, offY);
    if netDims.Some? then
      var (w, h) := netDims.value;
      (if w as real > width then w as real else width, if h as real > height then h as real else height)
    else (width, height)
  }

  /** The loop of `load_overlay_from_file` that builds the new element list from the
      entries of "elements"; None when an entry raises. */
  method BuildElements(items: seq<Json>) returns (decoded: Option<seq<OverlayElement>>)
    ensures decoded == DecodeElements(items)
    ensures decoded.None? <==> exists i :: 0 <= i < |items| && DecodeEntry(items[i]).Rejected?
  {
    DecodeElementsFailsIff(items);
    var elements: seq<OverlayElement> := [];
    var i := 0;
    while i < |items|
      invariant 0 <= i <= |items|
      invariant DecodeElements(items[..i]) == Some(elements)
    {
      match DecodeEntry(items[i]) {
        case Rejected =>
          DecodeElementsFailsIff(items[..i + 1]);
          assert items[..i + 1][i] == items[i];
          assert forall j :: 0 <= j < i + 1 ==> items[..i + 1][j] == items[j];
          return None;
        case Skipped =>
        case Decoded(e) =>
          elements := elements + [e];
      }
      assert items[..i + 1][..i] == items[..i];
      i := i + 1;
    }
    assert items[..|items|] == items;
    decoded := Some(elements);
  }

  /** The scrolled drawing area: the active layer, the selected category, the zoom and pan
      of the image and of the network, the press point and what is loaded. */
  class DrawingArea {
    var currentLayer: Layer
    var overlayType: OverlayType
    var ratioImage: real
    var ratioNetwork: real
    var image: Option<ImageSize>
    var offsetXImage: real
    var offsetYImage: real
    var mousePressedX: int
    var mousePressedY: int
    var net: Network?
    var offsetXNet: real
    var offsetYNet: real

    /** A network the area holds has been loaded with a non-degenerate box. */
    ghost predicate Valid()
      reads this, net
    {
      net != null ==> net.Box().NonDegenerate()
    }

    constructor ()
      ensures Valid()
      ensures currentLayer == BackgroundLayer && overlayType == House
      ensures ratioImage == 1.0 && ratioNetwork == 1.0
      ensures image == None && net == null
      ensures offsetXImage == 0.0 && offsetYImage == 0.0 && offsetXNet == 0.0 && offsetYNet == 0.0
      ensures mousePressedX == NoPress && mousePressedY == NoPress
    {
      currentLayer := BackgroundLayer;
      overlayType := House;
      ratioImage, ratioNetwork := 1.0, 1.0;
      image := None;
      offsetXImage, offsetYImage := 0.0, 0.0;
      mousePressedX, mousePressedY := NoPress, NoPress;
      net := null;
      offsetXNet, offsetYNet := 0.0, 0.0;
    }

    /** The six view parameters an overlay file saves and restores. */
    function Params(): ViewParams
      reads this
    {
      ViewParams(offsetXImage, offsetYImage, ratioImage, offsetXNet, offsetYNet, ratioNetwork)
    }

    function PressPoint(): (int, int)
      reads this
    {
      (mousePressedX, mousePressedY)
    }

    /** The `current_layer` setter. */
    method SetCurrentLayer(layer: Layer)
      requires Valid()
      modifies this`currentLayer
      ensures Valid() && currentLayer == layer
    {
      currentLayer := layer;
    }

    /** The `overlay_type` setter. */
    method SetOverlayType(t: OverlayType)
      requires Valid()
      modifies this`overlayType
      ensures Valid() && overlayType == t
    {
      overlayType := t;
    }

    /** `load_bg_from_file` given what the image library produced: the displayed image, or
        None when loading raised. */
    method LoadBackground(loaded: Option<ImageSize>)
      requires Valid()
      modifies this`image
      ensures Valid() && image == loaded
    {
      image := loaded;
    }

    /** `load_inp_from_file` given the node coordinates the network-model library parsed,
        or None when it raised: a fresh network is kept only if its bounds scan succeeds;
        otherwise the area is left without any network. Zoom and pan are not touched. */
    method LoadInp(source: Option<seq<(real, real)>>) returns (failed: bool)
      requires Valid()
      modifies this`net
      ensures Valid()
      ensures failed <==> !(source.Some? && |source.value| > 0 && ScanBox(source.value).NonDegenerate())
      ensures failed ==> net == null
      ensures !failed ==>
        && source.Some? && |source.value| > 0
        && net != null && fresh(net)
        && net.nodes == source.value && net.elements == [] && net.Box() == ScanBox(source.value)
    {
      var n := new Network();
      net := n;
      if source.None? {
        net := null;
        failed := true;
        return;
      }
      var ok := n.LoadNetwork(source.value);
      if !ok {
        net := null;
        failed := true;
        return;
      }
      failed := false;
    }

    /** One `if key in content: field = float(content[key])` of the overlay loader. */
    method ApplyKey(m: map<string, Json>, k: Key) returns (ok: bool)
      modifies this`offsetXImage, this`offsetYImage, this`ratioImage,
               this`offsetXNet, this`offsetYNet, this`ratioNetwork
      ensures ScalarOutcome(Params(), ok) == Step(ScalarOutcome(old(Params()), true), m, k)
    {
      ok := true;
      if KeyName(k) in m {
        match ToFloat(m[KeyName(k)]) {
          case None =>
            ok := false;
          case Some(v) =>
            match k {
              case OffsetImgX => offsetXImage := v;
              case OffsetImgY => offsetYImage := v;
              case ScaleImg => ratioImage := v;
              case OffsetNetX => offsetXNet := v;
              case OffsetNetY => offsetYNet := v;
              case ScaleNet => ratioNetwork := v;
            }
        }
      }
    }

    /** The six scalar keys of the overlay loader, in order, stopping at the first value
        float() rejects, as the exception does; the fields set before it stay set. */
    method ApplyKeys(m: map<string, Json>) returns (ok: bool)
      modifies this`offsetXImage, this`offsetYImage, this`ratioImage,
               this`offsetXNet, this`offsetYNet, this`ratioNetwork
      ensures ScalarOutcome(Params(), ok) == ApplyScalars(old(Params()), m)
    {
      ghost var s := ScalarOutcome(Params(), true);
      ok := ApplyKey(m, OffsetImgX);
      s := Step(s, m, OffsetImgX);
      if !ok { return; }
      ok := ApplyKey(m, OffsetImgY);
      s := Step(s, m, OffsetImgY);
      if !ok { return; }
      ok := ApplyKey(m, ScaleImg);
      s := Step(s, m, ScaleImg);
      if !ok { return; }
      ok := ApplyKey(m, OffsetNetX);
      s := Step(s, m, OffsetNetX);
      if !ok { return; }
      ok := ApplyKey(m, OffsetNetY);
      s := Step(s, m, OffsetNetY);
      if !ok { return; }
      ok := ApplyKey(m, ScaleNet);
    }

    /** `load_overlay_from_file` given the decoded file content. Nothing happens without a
        network. Otherwise the recognised keys are applied one by one, as ApplyOverlay
        describes; `failed` tells whether an error was reported, in which case the fields
        already overwritten stay overwritten. */
    method LoadOverlay(content: Json) returns (failed: bool)
      requires Valid()
      modifies this`offsetXImage, this`offsetYImage, this`ratioImage,
               this`offsetXNet, this`offsetYNet, this`ratioNetwork, net
      ensures Valid()
      ensures net == null ==> !failed && Params() == old(Params())
      ensures net != null ==>
        && net.Box() == old(net.Box()) && net.nodes == old(net.nodes)
        && var r := ApplyOverlay(old(Params()), old(net.elements), content);
           Params() == r.params && net.elements == r.elements && failed == !r.ok
    {
      failed := false;
      if net == null {
        return;
      }
      if !content.JObject? {
        failed := true;
        return;
      }
      var m := content.members;
      var ok := ApplyKeys(m);
      if !ok {
        failed := true;
        return;
      }
      if HasElementList(m) {
        var decoded := BuildElements(m["elements"].items);
        if decoded.None? {
          failed := true;
          return;
        }
        net.elements := decoded.value;
      }
    }

    /** `save_overlay_to_file`: the record written, or None (nothing written) without a
        network. */
    method SaveOverlay() returns (record: Option<Json>)
      requires Valid()
      ensures record == if net == null then None else Some(SaveRecord(Params(), net.elements))
    {
      if net == null {
        record := None;
      } else {
        record := Some(SaveRecord(Params(), net.elements));
      }
    }

    /** Saving and loading the saved record back leaves the view parameters and the element
        list as they were and reports no error. */
    method SaveThenLoad() returns (failed: bool)
      requires Valid()
      modifies this`offsetXImage, this`offsetYImage, this`ratioImage,
               this`offsetXNet, this`offsetYNet, this`ratioNetwork, net
      ensures Valid() && !failed && Params() == old(Params())
      ensures net != null ==>
        net.elements == old(net.elements) && net.Box() == old(net.Box()) && net.nodes == old(net.nodes)
    {
      var record := SaveOverlay();
      failed := false;
      if record.Some? {
        SavedOverlayLoadsBack(Params(), net.elements, Params(), net.elements);
        failed := LoadOverlay(record.value);
      }
    }

    /** `on_zoom`: on the Background layer the image zoom is set and the displayed image
        replaced by what the image library's rescale returns, which is None when it refuses
        the size (a side of zero pixels); on the Network and Overlay layers the network
        zoom is set. */
    method OnZoom(ratio: real, rescaled: Option<ImageSize>)
      requires Valid()
      modifies this`ratioImage, this`ratioNetwork, this`image
      ensures Valid()
      ensures currentLayer == BackgroundLayer ==>
        && ratioImage == ratio && ratioNetwork == old(ratioNetwork)
        && image == if old(image).Some? then rescaled else None
      ensures currentLayer != BackgroundLayer ==>
        ratioNetwork == ratio && ratioImage == old(ratioImage) && image == old(image)
    {
      if currentLayer == BackgroundLayer {
        ratioImage := ratio;
        if image.Some? {
          image := rescaled;
        }
      } else if currentLayer == NetworkLayer || currentLayer == OverlayLayer {
        ratioNetwork := ratio;
      }
    }

    /** `on_drawing_area_mouse_press` at event position (eventX, eventY). On Background
        (with an image) and on Network (with a network) a press inside the layer's region is
        recorded; on Overlay (with a network) the click becomes a new element and no press
        is recorded. */
    method OnMousePress(eventX: real, eventY: real)
      requires Valid()
      requires currentLayer == OverlayLayer && net != null ==> ratioNetwork != 0.0
      modifies this`mousePressedX, this`mousePressedY, net
      ensures Valid()
      ensures var x, y := Trunc(eventX), Trunc(eventY);
        PressPoint() ==
          if currentLayer == BackgroundLayer && image.Some?
             && OnImage(image.value, offsetXImage, offsetYImage, x, y)
          then (x, y)
          else if currentLayer == NetworkLayer && net != null
             && OnNetwork(net.Box(), ratioNetwork, offsetXNet, offsetYNet, x, y)
          then (x, y)
          else old(PressPoint())
      ensures net != null ==>
        && net.Box() == old(net.Box()) && net.nodes == old(net.nodes)
        && net.elements ==
             if currentLayer == OverlayLayer then
               var c := ClickToDrawing(ratioNetwork, offsetXNet, offsetYNet, Trunc(eventX), Trunc(eventY));
               var p := ToNetCoords(net.Box(), c.0 as real, c.1 as real);
               old(net.elements) + [OverlayElement(p.0, p.1, overlayType)]
             else old(net.elements)
    {
      var x, y := Trunc(eventX), Trunc(eventY);
      if currentLayer == BackgroundLayer && image.Some? {
        if OnImage(image.value, offsetXImage, offsetYImage, x, y) {
          mousePressedX, mousePressedY := x, y;
        }
      } else if currentLayer == NetworkLayer && net != null {
        if OnNetwork(net.Box(), ratioNetwork, offsetXNet, offsetYNet, x, y) {
          mousePressedX, mousePressedY := x, y;
        }
      } else if currentLayer == OverlayLayer && net != null {
        var (u, v) := ClickToDrawing(ratioNetwork, offsetXNet, offsetYNet, x, y);
        net.AddOverlayElement(u, v, overlayType);
      }
    }

    /** `on_drawing_area_mouse_release` at event position (eventX, eventY). Without a
        recorded press nothing happens. Otherwise the drag from the press point to the
        release point pans the image (Background) or the network (Network), Overlay pans
        nothing, and the press point is cleared. */
    method OnMouseRelease(eventX: real, eventY: real)
      requires Valid()
      modifies this`offsetXImage, this`offsetYImage, this`offsetXNet, this`offsetYNet,
               this`mousePressedX, this`mousePressedY
      ensures Valid()
      ensures old(mousePressedX) < 0 || old(mousePressedY) < 0 ==>
        Params() == old(Params()) && PressPoint() == old(PressPoint())
      ensures old(mousePressedX) >= 0 && old(mousePressedY) >= 0 ==>
        var dx := (Trunc(eventX) - old(mousePressedX)) as real;
        var dy := (Trunc(eventY) - old(mousePressedY)) as real;
        && PressPoint() == (NoPress, NoPress)
        && (offsetXImage, offsetYImage) ==
             (if currentLayer == BackgroundLayer && image.Some?
              then (old(offsetXImage) + dx, old(offsetYImage) + dy)
              else (old(offsetXImage), old(offsetYImage)))
        && (offsetXNet, offsetYNet) ==
             (if currentLayer == NetworkLayer && net != null
              then (old(offsetXNet) + dx, old(offsetYNet) + dy)
              else (old(offsetXNet), old(offsetYNet)))
    {
      if mousePressedX < 0 || mousePressedY < 0 {
        return;
      }
      var x, y := Trunc(eventX), Trunc(eventY);
      if currentLayer == BackgroundLayer && image.Some? {
        offsetXImage := offsetXImage + (x - mousePressedX) as real;
        offsetYImage := offsetYImage + (y - mousePressedY) as real;
      } else if currentLayer == NetworkLayer && net != null {
        offsetXNet := offsetXNet + (x - mousePressedX) as real;
        offsetYNet := offsetYNet + (y - mousePressedY) as real;
      }
      mousePressedX, mousePressedY := NoPress, NoPress;
    }

    /** The canvas size `on_draw` requests. */
    function RequestedSize(): (real, real)
      reads this, net
      requires Valid()
    {
      CanvasSize(image, offsetXImage, offsetYImage,
        if net == null then None else Some(GetDimensions(net.Box(), ratioNetwork, offsetXNet, offsetYNet)))
    }
  }
}
