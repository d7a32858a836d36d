# epanet-annotator: a verified model of the network view and the drawing area

epanet-annotator is a desktop tool for annotating a water-distribution network drawn
over a background image, such as a map or an aerial photo. A user can:

- load an image and an EPANET network;
- pan and zoom each of them;
- click on the Overlay layer to place categorised points (House, Apartments, …);
- save or load those points, together with the pan and zoom, as an overlay file.

This Dafny project models the two parts of the program that hold logic.

- **`Network`** (gui/network.py), in `network.dfy`:
  - the seven overlay categories and the overlay element;
  - the bounding-box scan of `load_network`, as the class method `LoadNetwork` with
    its loop, proved against the functions `MinAlong`, `MaxAlong` and `ScanBox`;
  - the transforms between network-model coordinates and the 1000-unit-wide
    drawing space, which flips Y, plus `get_dimensions`;
  - `add_overlay_element`, as an in-place append to `elements`.
- **`DrawingArea`** (annotator/drawing_area.py), in `drawing_area.dfy` and
  `overlay_file.dfy`:
  - the view state, as a class with the source's fields;
  - zoom, and the press/release pointer machine;
  - the canvas size `on_draw` requests;
  - network loading, and its commit/clear rule;
  - overlay files, over an abstract `Json` value.

  The overlay loader is the method `LoadOverlay`. It applies the file key by key and
  builds the element list in a loop. It is proved equal to the function
  `ApplyOverlay`. The save record is the function `SaveRecord`. The lemma
  `SavedOverlayLoadsBack` proves that loading a saved record restores the view and
  the elements.

How the model represents the source:

- Python floats are Dafny `real`s.
- Python's `int()` is `Trunc`, which truncates toward zero.
- Pan offsets are reals, because loading an overlay file stores floats in them.
- Inputs that foreign libraries produce are parameters:
  - the node coordinates the network-model library parses;
  - the size of the displayed image;
  - the decoded JSON content;
  - the position of a pointer event.

## Model

| member | source | states |
|---|---|---|
| Network.ParseType | gui/network.py:9-17 | Looking up a category by its string returns a category with exactly that name. It returns a category whenever one has that name. |
| Network.OverlayTypesClosed | gui/network.py:9-17 | There are exactly seven categories and every category is one of them. Distinct categories have distinct names, and looking up a category's name gives it back. |
| Network.ElementDefaultsToHouse | gui/network.py:20-26 | An overlay element built without a type has type House. |
| Network.Trunc | gui/network.py:87-90 | `int()` on a float truncates toward zero. For a non-negative value the result is the largest whole number not above it. For a negative value it is the smallest whole number not below it. |
| Network.TruncWhole | gui/network.py:97 | `int()` leaves a whole number unchanged. |
| Network.MinAlongIsLeast | gui/network.py:47-59 | The scan's running minimum along an axis is at most every node's coordinate and equals some node's coordinate. |
| Network.MaxAlongIsGreatest | gui/network.py:47-63 | The scan's running maximum along an axis is at least every node's coordinate and equals some node's coordinate. |
| Network.ScanBoxIsTight | gui/network.py:47-66 | For a non-empty node list, the box has non-negative width and height. Every node lies in the closed box, and each of the four sides touches a node. |
| Network.ScanBoxNonDegenerateIff | gui/network.py:65-69 | The box has positive width and height if and only if the nodes differ in x and differ in y. So nodes that all share one position are rejected. |
| Network.DrawingHeight | gui/network.py:96 | `dim_y` relates to the 1000-unit width as the network's height relates to its width. It is positive for a positive height. |
| Network.TypeName | gui/network.py:9-17 | The string value of each of the seven categories, as the enumeration declares it and as an overlay file stores it. |
| Network.MinAlong | gui/network.py:47-59 | The running minimum the scan keeps along one axis: the first node's coordinate, replaced by each later node's coordinate that is smaller. |
| Network.MaxAlong | gui/network.py:47-63 | The running maximum the scan keeps along one axis: the first node's coordinate, replaced by each later node's coordinate that is larger. |
| Network.ScanBox | gui/network.py:47-66 | The box the scan leaves for a non-empty node list: the minima as offsets, and the maxima less the minima as width and height. |
| Network.FromNetCoordsReal | gui/network.py:93-97 | `_from_net_coords` before `int()`: x as its fraction of the width times 1000, and y as `dim_y` less its fraction of the height times `dim_y`. |
| Network.FromNetCoords | gui/network.py:93-97 | `_from_net_coords`: both coordinates of `FromNetCoordsReal` truncated with `int()`. |
| Network.ToNetCoords | gui/network.py:99-103 | `_to_net_coords`: x over 1000 times the width plus the x offset, and (`dim_y` - y) over `dim_y` times the height plus the y offset. |
| Network.GetDimensions | gui/network.py:84-91 | `get_dimensions`: `int(1000 * scale + offset_x)` and `int(dim_y * scale + offset_y)`. |
| Network.ScreenPos | gui/network.py:116 | Where a drawing-space coordinate is drawn on screen: the coordinate times the zoom plus the pan, as the drawing code places nodes, pipes and elements. |
| Network.ToNetUndoesFromNet | gui/network.py:93-103 | In real arithmetic, without the `int()`, `_to_net_coords` exactly inverts `_from_net_coords`, Y flip included. |
| Network.FromNetUndoesToNet | gui/network.py:93-103 | In real arithmetic, `_from_net_coords` (before `int()`) exactly inverts `_to_net_coords`. |
| Network.WholePointRoundTrip | gui/network.py:93-103 | A whole drawing-space point taken to network space and back through `_from_net_coords` comes back exactly, truncation included. |
| Network.FromNetCorners | gui/network.py:93-97 | `(offset_x, offset_y + height)` maps to `(0, 0)`. `(offset_x + width, offset_y)` maps to `(1000, int(dim_y))`. |
| Network.FromNetOrientation | gui/network.py:93-97 | The transform increases with network x and decreases with network y (the Y flip). |
| Network.FromNetMapsBoxIntoDrawing | gui/network.py:93-97 | Every point of the network box lands in `[0, 1000] x [0, dim_y]`. |
| Network.GetDimensionsIsFarCorner | gui/network.py:84-91 | `get_dimensions(scale, ox, oy)` is the truncated screen position of the far corner of drawing space, `(1000, dim_y)`, at that scale and offset. |
| Network.GetDimensionsDependsOnRatio | gui/network.py:84-91 | Two networks with the same ratio height / width have the same `get_dimensions`. |
| Network.Network.constructor | gui/network.py:32-42 | A new network has a zero box, no nodes and no elements. |
| Network.Network.LoadNetwork | gui/network.py:44-69 | After the loop, for nodes present, the box is `ScanBox` of the nodes: offsets are the minima, and offset plus extent are the maxima. Elements are unchanged. The result is true if and only if both width and height are positive, which fails for an empty list on a new network. |
| Network.Network.AddOverlayElement | gui/network.py:105-107 | `elements` becomes the old list plus one last element at `_to_net_coords(x, y)` with the given type. Earlier elements are unchanged. |
| OverlayFile.ViewParams.With | annotator/drawing_area.py:130-141 | Overwriting a view parameter gives that parameter the new value and leaves the other five unchanged. |
| OverlayFile.KeyName | annotator/drawing_area.py:130-141 | The six key strings of the view parameters, the same ones the loader reads and the save writes (lines 171-176). |
| OverlayFile.HasElementList | annotator/drawing_area.py:142 | The test that `elements` is present and is a list. |
| OverlayFile.ToFloat | annotator/drawing_area.py:131-141 | Python's `float()` on a decoded JSON value: a number gives itself, a boolean gives 1 or 0, and null, lists, objects and strings fail. |
| OverlayFile.Step | annotator/drawing_area.py:130-141 | One `if key in content: field = float(content[key])`. An absent key changes nothing. A failing conversion stops the load, and a stopped load ignores every later key. |
| OverlayFile.ApplyScalars | annotator/drawing_area.py:130-141 | The six scalar keys stepped through in the loader's order: `offset_img_x`, `offset_img_y`, `scale_img`, `offset_net_x`, `offset_net_y`, `scale_net`. |
| OverlayFile.TypeOf | annotator/drawing_area.py:150 | `OverlayType(value)`: a string naming a category gives that category; anything else fails. |
| OverlayFile.DecodeEntry | annotator/drawing_area.py:145-152 | One entry of `elements`. An object with x, y and type gives an element when all three convert, and otherwise raises. An object lacking a key is skipped. A list or string passing the `in` test raises when indexed. A number, boolean or null raises in the test. |
| OverlayFile.DecodeElements | annotator/drawing_area.py:142-152 | The list the loop builds, entry by entry in order, keeping decoded elements and dropping skipped entries. The whole list fails once an entry raises. |
| OverlayFile.ApplyOverlay | annotator/drawing_area.py:128-153 | The whole load of parsed content. A non-object fails with nothing changed. Otherwise the scalar keys are applied, and a failure there keeps the keys already applied. The elements are then replaced by the decoded list when `elements` is a list, unless an entry raises. |
| OverlayFile.ElementRecord | annotator/drawing_area.py:177 | `e.__dict__`: an object with the element's x and y as numbers and its category's string as type. |
| OverlayFile.StepPreserves | annotator/drawing_area.py:130-141 | Applying one more key keeps the invariant of the key-by-key loader. The load goes on if and only if every key so far converted. Each field is its old value or its key's value. While the load goes on, each applied key has set its field. |
| OverlayFile.ApplyScalarsEffect | annotator/drawing_area.py:130-141 | After the six scalar keys, the load goes on if and only if every present key converts with `float()`. While it does, each present key has overwritten exactly its field and each absent key has left its field alone. |
| OverlayFile.DecodeElementsFailsIff | annotator/drawing_area.py:142-152 | Building the element list raises if and only if some entry raises. |
| OverlayFile.DecodeElementsConcat | annotator/drawing_area.py:143-152 | The list built from `a + b` is the list from `a` followed by the list from `b`, in order. It fails if either part fails. |
| OverlayFile.LoadRejectsNonObject | annotator/drawing_area.py:128-129 | Content that is not an object fails before any field or element changes. |
| OverlayFile.LoadAppliesPresentKeys | annotator/drawing_area.py:130-141 | When every present key converts, loading an object sets each present key's field to its value and leaves absent keys' fields unchanged. No field ever takes a value other than its old one or its key's. |
| OverlayFile.LoadReplacesElements | annotator/drawing_area.py:128-153 | A load succeeds exactly when all three hold: the content is an object, every present scalar key converts, and no entry of an `elements` list raises. The elements are replaced by the decoded entries only on success with an `elements` list. Otherwise they are unchanged. |
| OverlayFile.BadTypeFailsAfterScalars | annotator/drawing_area.py:130-153 | An entry with x, y and an unknown type makes the load fail. All scalar keys have already been applied, and the element list is unchanged. |
| OverlayFile.ElementRecords | annotator/drawing_area.py:177 | The saved list has one `{x, y, type}` record per element, in element order. |
| OverlayFile.SaveRecord | annotator/drawing_area.py:169-177 | The saved object has exactly the six view-parameter keys and `elements`. |
| OverlayFile.ElementRecordDecodes | annotator/drawing_area.py:145-152 | The loader decodes a saved element record back to the same element. |
| OverlayFile.ElementRecordsDecode | annotator/drawing_area.py:142-153 | The loader decodes a saved element list back to the same elements in the same order. |
| OverlayFile.SavedOverlayLoadsBack | annotator/drawing_area.py:169-177 | Loading the saved record, into any session, succeeds and restores the same six view parameters and the same element list in order. |
| DrawingArea.TruncScaledBack | annotator/drawing_area.py:236-237 | Dividing a screen coordinate's distance from the pan by the zoom, truncating it with `int()`, and placing it back on screen lands within one zoom unit of the coordinate. |
| DrawingArea.OverlayClickRedrawnNearClick | annotator/drawing_area.py:234-240 | A point added by an Overlay click is redrawn at exactly the drawing-space point the click gave. It lands within one zoom unit of the click on each axis. |
| DrawingArea.OverlayClickExample | annotator/drawing_area.py:234-239 | The box (0, 0, 100, 50) with zoom 2 and pan (5, 5): a click at (205, 55) gives drawing point (100, 25) and network point (10, 47.5). |
| DrawingArea.OnImage | annotator/drawing_area.py:214-219 | The Background press test: the point lies between the image pan and the image size plus the pan on both axes, edges included. |
| DrawingArea.OnNetwork | annotator/drawing_area.py:223-231 | The Network press test: the point lies between the network pan and the extent `get_dimensions` reports, edges included. |
| DrawingArea.ClickToDrawing | annotator/drawing_area.py:236-237 | The drawing-space point of an Overlay click: the click less the network pan, divided by the network zoom, each axis truncated with `int()`. |
| DrawingArea.ImageExtent | annotator/drawing_area.py:258-262 | The image's part of the canvas size: its width and height plus its pan, or (0, 0) without an image. |
| DrawingArea.CanvasSize | annotator/drawing_area.py:257-268 | The requested size is the component-wise least upper bound of the image extent (size plus pan, or (0, 0) without an image) and `get_dimensions` when a network is loaded. It is (0, 0) when neither is loaded. |
| DrawingArea.DrawingArea.constructor | annotator/drawing_area.py:34-46 | The initial state: Background layer, House, both zooms 1, no image, no network, zero pans, and the press point (-1, -1). |
| DrawingArea.DrawingArea.Valid | annotator/drawing_area.py:106-113 | The area holds a network only when that network's bounds scan succeeded, so its box has positive width and height. |
| DrawingArea.DrawingArea.RequestedSize | annotator/drawing_area.py:257-270 | The size `on_draw` requests: `CanvasSize` of the current image extent and, with a network loaded, `get_dimensions` at the network zoom and pan. |
| DrawingArea.DrawingArea.SetCurrentLayer | annotator/drawing_area.py:62-64 | The layer setter sets only the layer. |
| DrawingArea.DrawingArea.SetOverlayType | annotator/drawing_area.py:78-80 | The category setter sets only the category. |
| DrawingArea.DrawingArea.LoadBackground | annotator/drawing_area.py:88-96 | The displayed image becomes the loaded one, or none if loading raised. Nothing else changes. |
| DrawingArea.DrawingArea.LoadInp | annotator/drawing_area.py:106-113 | The area holds a fresh network, with the parsed nodes, `ScanBox` bounds and no elements, if and only if parsing succeeded and the box is non-degenerate. Otherwise it holds no network, even if it held one before. Zoom and pan are not touched. |
| DrawingArea.DrawingArea.ApplyKey | annotator/drawing_area.py:130-141 | One scalar key of the loader changes the view parameters exactly as the specification function `Step` does. |
| DrawingArea.BuildElements | annotator/drawing_area.py:142-153 | The element-building loop yields exactly the list `DecodeElements` specifies. It fails if and only if some entry raises. |
| DrawingArea.DrawingArea.ApplyKeys | annotator/drawing_area.py:130-141 | The six scalar keys, applied in order and stopped by the first failing `float()`, leave the view parameters and the flag that `ApplyScalars` gives. |
| DrawingArea.DrawingArea.LoadOverlay | annotator/drawing_area.py:123-153 | Without a network nothing changes. With one, the view parameters, the elements and the error flag are those `ApplyOverlay` gives for the old state, and the network's nodes and box are unchanged. |
| DrawingArea.DrawingArea.SaveOverlay | annotator/drawing_area.py:165-177 | Without a network nothing is written. With one, `SaveRecord` of the current view parameters and elements is written. |
| DrawingArea.DrawingArea.SaveThenLoad | annotator/drawing_area.py:123-177 | Saving and then loading the saved record reports no error and leaves the view parameters, the elements, and the network's nodes and box as they were. |
| DrawingArea.DrawingArea.OnZoom | annotator/drawing_area.py:200-209 | On Background only the image zoom is set, and a displayed image is replaced by what the rescale returns; that is no image when the library refuses a zero-pixel size, which then stops Background presses, pans and rescales until the next image load. On Network or Overlay only the network zoom is set. Pans, the press point and the layer are untouched. |
| DrawingArea.DrawingArea.OnMousePress | annotator/drawing_area.py:211-240 | On Background with an image, the press is recorded if and only if it lies on the image, edges included. On Network with a network, it is recorded if and only if it lies between the pan and `get_dimensions`. On Overlay with a network, the network gains exactly one element at `_to_net_coords` of the truncated click, and no press is recorded. Otherwise nothing changes. |
| DrawingArea.DrawingArea.OnMouseRelease | annotator/drawing_area.py:242-255 | With a negative press coordinate nothing changes. Otherwise the drag from press to release is added to the image pan (on Background with an image) or to the network pan (on Network with a network). Overlay pans nothing, and the press point is reset to (-1, -1). |

## Behaviour worth knowing

- **A failed network load.** It leaves the area with no network and drops any network
  loaded earlier (annotator/drawing_area.py:108-113; `LoadInp`).
- **No view reset.** Loading an image or a network does not reset zoom or pan
  (`LoadBackground` and `LoadInp` do not touch them).
- **A partial overlay load.** A failing overlay load keeps the scalar keys applied
  before the failure (`BadTypeFailsAfterScalars`). A file without an `elements` list
  keeps the current elements (`LoadReplacesElements`).
- **A worked Overlay click.** Take network box (0, 0, 100, 50), zoom 2 and pan (5, 5).
  A click at (205, 55) becomes drawing point (100, 25) and is stored as network point
  (10, 47.5), because drawing space is 1000 units wide (`OverlayClickExample`).
- **Entries that are lists or strings.** An entry of `elements` that is a list has
  `in` tested on its items. A passing test then indexes the list by a string, which
  raises. An entry that is a string is handled the same way, with `in` as a substring
  test (`DecodeEntry`).

## Left out

- The widget toolkit is not modelled. That covers widgets, signal wiring and error
  dialogs. It also covers `queue_draw`, the menu (gui/menu.py) and the window
  (gui/window.py). This is interface glue.
- Painting in `Network.draw` and `on_draw` is not modelled; these are foreign cairo
  calls. The screen position `coord * scale + offset` is the function `ScreenPos`.
- Two operations of the image library are not modelled: loading an image and
  `_scale_image`.
  - The displayed image size is an input: `LoadBackground` takes it, and `OnZoom`
    takes the rescale's result, or None where the library returns no image.
  - `LoadBackground` keeps only the displayed image, not `_original_image`.
- The network-model library's `.inp` parser is not modelled. `LoadInp` takes the node
  coordinates it would supply, or None when it raises.
- Opening files and JSON text encoding/decoding are not modelled. The overlay logic
  works on a decoded `Json` value.
- `Network.save_overlay_to_file` and `Network.load_overlay_from_file`
  (gui/network.py:71-82) are not modelled. They are unused list-only file plumbing.
- IEEE double rounding is not modelled. Reals make the transform round trip exact; it
  does not hold bit for bit on doubles.
- OverlayFile.ToFloat: `float()` of a JSON string holding numeric text (such as
  "1.5") succeeds in Python. The model treats every string as failing, because it
  does not parse numeric text.
- OverlayFile.DecodeEntry: for the same reason, an element entry whose x or y is a
  numeric string is treated as raising.
- Network.Network.AddOverlayElement: requires a non-degenerate box, because Python
  would raise a division by zero otherwise. The drawing area only ever holds a
  network whose box passed that test (`DrawingArea.Valid`).
- DrawingArea.DrawingArea.OnMousePress: requires a non-zero network zoom on the
  Overlay layer with a network loaded. The zoom spinner allows 0, and Python would
  raise a division by zero.
- `set_size_request` receives the canvas size as reals. Whole-number rounding by the
  toolkit is not modelled.
- Pointer-event coordinates are reals truncated with `int()`. Their origin in the
  toolkit is not modelled.
