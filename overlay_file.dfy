/**
  The overlay file of the drawing area (annotator/drawing_area.py, load_overlay_from_file
  and save_overlay_to_file) over an abstract JSON value: which recognised keys of a
  parsed file are applied to the view parameters and the element list, and which
  record a save builds. Reading and writing the file and the JSON text itself are
  not part of this model.
*/
module OverlayFile {
  import opened Wrappers
  import opened Network

  /** A decoded JSON value; an object maps its keys to its members. */
  datatype Json =
    | JNull
    | JBool(b: bool)
    | JNumber(n: real)
    | JString(s: string)
    | JArray(items: seq<Json>)
    | JObject(members: map<string, Json>)

  /** The recognised scalar keys, in the order the loader applies them. */
  datatype Key = OffsetImgX | OffsetImgY | ScaleImg | OffsetNetX | OffsetNetY | ScaleNet

  function KeyName(k: Key): string
  {
    match k
    case OffsetImgX => "offset_img_x"
    case OffsetImgY => "offset_img_y"
    case ScaleImg => "scale_img"
    case OffsetNetX => "offset_net_x"
    case OffsetNetY => "offset_net_y"
    case ScaleNet => "scale_net"
  }

  /** The six view parameters an overlay file carries: the image pan and zoom and the
      network pan and zoom. */
  datatype ViewParams = ViewParams(
    offsetImgX: real, offsetImgY: real, scaleImg: real,
    offsetNetX: real, offsetNetY: real, scaleNet: real)
  {
    function Get(k: Key): real
    {
      match k
      case OffsetImgX => offsetImgX
      case OffsetImgY => offsetImgY
      case ScaleImg => scaleImg
      case OffsetNetX => offsetNetX
      case OffsetNetY => offsetNetY
      case ScaleNet => scaleNet
    }

    /** These parameters with the one named by `k` replaced by `v`. */
    function With(k: Key, v: real): (q: ViewParams)
      ensures q.Get(k) == v
      ensures forall j :: j != k ==> q.Get(j) == Get(j)
    {
      match k
      case OffsetImgX => this.(offsetImgX := v)
      case OffsetImgY => this.(offsetImgY := v)
      case ScaleImg => this.(scaleImg := v)
      case OffsetNetX => this.(offsetNetX := v)
      case OffsetNetY => this.(offsetNetY := v)
      case ScaleNet => this.(scaleNet := v)
    }
  }

  /** Python's float() on a decoded JSON value: numbers and booleans convert; null,
      arrays and objects raise TypeError. */
  function ToFloat(j: Json): Option<real>
  {
    match j
    case JNumber(n) => Some(n)
    case JBool(b) => Some(if b then 1.0 else 0.0)
    case _ => None
  }

  // ---------------------------------------------------------------------------
  // Loading: the scalar keys
  // ---------------------------------------------------------------------------

  /** The view parameters so far, and whether no float() call has failed yet. */
  datatype ScalarOutcome = ScalarOutcome(params: ViewParams, ok: bool)

  /** One `if key in content: field = float(content[key])`; once a conversion has
      failed, the exception skips every later key. */
  function Step(r: ScalarOutcome, m: map<string, Json>, k: Key): ScalarOutcome
  {
    if !r.ok || KeyName(k) !in m then r
    else match ToFloat(m[KeyName(k)])
      case None => ScalarOutcome(r.params, false)
      case Some(v) => ScalarOutcome(r.params.With(k, v), true)
  }

  /** The six scalar keys applied in the loader's order. */
  function ApplyScalars(p: ViewParams, m: map<string, Json>): ScalarOutcome
  {
    var r0 := ScalarOutcome(p, true);
    var r1 := Step(r0, m, OffsetImgX);
    var r2 := Step(r1, m, OffsetImgY);
    var r3 := Step(r2, m, ScaleImg);
    var r4 := Step(r3, m, OffsetNetX);
    var r5 := Step(r4, m, OffsetNetY);
    Step(r5, m, ScaleNet)
  }

  /** The key `k` is absent or holds a value float() accepts. */
  ghost predicate Convertible(m: map<string, Json>, k: Key)
  {
    KeyName(k) in m ==> ToFloat(m[KeyName(k)]).Some?
  }

  /** After the keys in `done` have been stepped through from `p`: the outcome is ok iff
      all of them converted, every field is its old value or its key's converted value,
      and while ok every field is exactly what its key says. */
  ghost predicate SteppedThrough(p: ViewParams, m: map<string, Json>, r: ScalarOutcome, done: set<Key>)
  {
    && (r.ok <==> forall k :: k in done ==> Convertible(m, k))
    && (forall k ::
          r.params.Get(k) == p.Get(k) ||
          (KeyName(k) in m && ToFloat(m[KeyName(k)]) == Some(r.params.Get(k))))
    && (r.ok ==> forall k ::
          r.params.Get(k) == if k in done && KeyName(k) in m then ToFloat(m[KeyName(k)]).value else p.Get(k))
  }

  lemma StepPreserves(p: ViewParams, m: map<string, Json>, r: ScalarOutcome, done: set<Key>, k: Key)
    requires SteppedThrough(p, m, r, done) && k !in done
    ensures SteppedThrough(p, m, Step(r, m, k), done + {k})
  {
    var r' := Step(r, m, k);
    if r.ok && KeyName(k) in m && ToFloat(m[KeyName(k)]).Some? {
      var v := ToFloat(m[KeyName(k)]).value;
      assert r'.params == r.params.With(k, v);
      forall j ensures r'.params.Get(j) == if j in done + {k} && KeyName(j) in m then ToFloat(m[KeyName(j)]).value else p.Get(j)
      {
        if j != k {
          assert r'.params.Get(j) == r.params.Get(j);
        }
      }
      forall j ensures
        r'.params.Get(j) == p.Get(j) || (KeyName(j) in m && ToFloat(m[KeyName(j)]) == Some(r'.params.Get(j)))
      {
        if j != k {
          assert r'.params.Get(j) == r.params.Get(j);
        }
      }
    }
  }

  /** The invariant after all six keys, read as a statement about every key. */
  lemma SteppedThroughAll(p: ViewParams, m: map<string, Json>, r: ScalarOutcome)
    requires SteppedThrough(p, m, r, {OffsetImgX, OffsetImgY, ScaleImg, OffsetNetX, OffsetNetY, ScaleNet})
    ensures r.ok <==> forall k :: Convertible(m, k)
    ensures forall k ::
      r.params.Get(k) == p.Get(k) || (KeyName(k) in m && ToFloat(m[KeyName(k)]) == Some(r.params.Get(k)))
    ensures r.ok ==> forall k ::
      r.params.Get(k) == if KeyName(k) in m then ToFloat(m[KeyName(k)]).value else p.Get(k)
  {
    var all := {OffsetImgX, OffsetImgY, ScaleImg, OffsetNetX, OffsetNetY, ScaleNet};
    forall k ensures k in all {
      match k
      case OffsetImgX =>
      case OffsetImgY =>
      case ScaleImg =>
      case OffsetNetX =>
      case OffsetNetY =>
      case ScaleNet =>
    }
  }

  /** The first three keys keep the loader's invariant. */
  lemma FirstKeysStepped(p: ViewParams, m: map<string, Json>)
    ensures var r0 := ScalarOutcome(p, true);
      var r3 := Step(Step(Step(r0, m, OffsetImgX), m, OffsetImgY), m, ScaleImg);
      SteppedThrough(p, m, r3, {OffsetImgX, OffsetImgY, ScaleImg})
  {
    var r0 := ScalarOutcome(p, true);
    assert SteppedThrough(p, m, r0, {});
    StepPreserves(p, m, r0, {}, OffsetImgX);
    var r1 := Step(r0, m, OffsetImgX);
    StepPreserves(p, m, r1, {OffsetImgX}, OffsetImgY);
    var r2 := Step(r1, m, OffsetImgY);
    StepPreserves(p, m, r2, {OffsetImgX, OffsetImgY}, ScaleImg);
  }

  /** What the scalar keys do: the load goes on iff every present key converts; each field
      ends as its old value or its key's value; and when all convert, each present key
      overwrites exactly its field and each absent key leaves its field as it was. */
  lemma ApplyScalarsEffect(p: ViewParams, m: map<string, Json>)
    ensures var r := ApplyScalars(p, m);
      && (r.ok <==> forall k :: Convertible(m, k))
      && (forall k ::
            r.params.Get(k) == p.Get(k) ||
            (KeyName(k) in m && ToFloat(m[KeyName(k)]) == Some(r.params.Get(k))))
      && (r.ok ==> forall k ::
            r.params.Get(k) == if KeyName(k) in m then ToFloat(m[KeyName(k)]).value else p.Get(k))
  {
    FirstKeysStepped(p, m);
    var r3 := Step(Step(Step(ScalarOutcome(p, true), m, OffsetImgX), m, OffsetImgY), m, ScaleImg);
    var d3 := {OffsetImgX, OffsetImgY, ScaleImg};
    StepPreserves(p, m, r3, d3, OffsetNetX);
    var r4 := Step(r3, m, OffsetNetX);
    StepPreserves(p, m, r4, d3 + {OffsetNetX}, OffsetNetY);
    var r5 := Step(r4, m, OffsetNetY);
    StepPreserves(p, m, r5, d3 + {OffsetNetX} + {OffsetNetY}, ScaleNet);
    assert d3 + {OffsetNetX} + {OffsetNetY} + {ScaleNet}
      == {OffsetImgX, OffsetImgY, ScaleImg, OffsetNetX, OffsetNetY, ScaleNet};
    SteppedThroughAll(p, m, ApplyScalars(p, m));
  }

  // ---------------------------------------------------------------------------
  // Loading: the element list
  // ---------------------------------------------------------------------------

  /** What the loader makes of one entry of "elements". */
  datatype EntryDecoding = Skipped | Rejected | Decoded(element: OverlayElement)

  /** Python's `OverlayType(value)` on a decoded JSON value. */
  function TypeOf(j: Json): Option<OverlayType>
  {
    if j.JString? then ParseType(j.s) else None
  }

  /** Python's `needle in s` on two strings. */
  predicate IsSubstring(needle: string, s: string)
  {
    exists i :: 0 <= i <= |s| - |needle| && needle <= s[i..]
  }

  /** `if "x" in e and "y" in e and "type" in e:` followed by the three conversions.
      An object lacking a key is skipped; the test itself raises on a number, boolean
      or null, and indexing a list or string by "x" raises once the test has passed. */
  function DecodeEntry(e: Json): EntryDecoding
  {
    match e
    case JObject(m) =>
      if "x" in m && "y" in m && "type" in m then
        match (ToFloat(m["x"]), ToFloat(m["y"]), TypeOf(m["type"]))
        case (Some(x), Some(y), Some(t)) => Decoded(OverlayElement(x, y, t))
        case _ => Rejected
      else Skipped
    case JArray(items) =>
      if JString("x") in items && JString("y") in items && JString("type") in items then Rejected
      else Skipped
    case JString(s) =>
      if IsSubstring("x", s) && IsSubstring("y", s) && IsSubstring("type", s) then Rejected
      else Skipped
    case _ => Rejected
  }

  /** The list the loader builds from the entries, or None once an entry raises. */
  function DecodeElements(items: seq<Json>): Option<seq<OverlayElement>>
  {
    if items == [] then Some([])
    else match DecodeElements(items[..|items| - 1])
      case None => None
      case Some(es) =>
        match DecodeEntry(items[|items| - 1])
        case Skipped => Some(es)
        case Rejected => None
        case Decoded(e) => Some(es + [e])
  }

  /** Decoding fails exactly when some entry raises. */
  lemma {:induction false} DecodeElementsFailsIff(items: seq<Json>)
    ensures DecodeElements(items).None? <==> exists i :: 0 <= i < |items| && DecodeEntry(items[i]).Rejected?
  {
    if items != [] {
      var init := items[..|items| - 1];
      DecodeElementsFailsIff(init);
      assert forall i :: 0 <= i < |init| ==> init[i] == items[i];
      if DecodeElements(init).None? {
        var i :| 0 <= i < |init| && DecodeEntry(init[i]).Rejected?;
        assert DecodeEntry(items[i]).Rejected?;
      }
    }
  }

  /** Decoding works entry by entry: the list decoded from a + b is the list from a
      followed by the list from b, in order. */
  lemma {:induction false} DecodeElementsConcat(a: seq<Json>, b: seq<Json>)
    ensures DecodeElements(a + b) ==
      if DecodeElements(a).Some? && DecodeElements(b).Some?
      then Some(DecodeElements(a).value + DecodeElements(b).value)
      else None
  {
    if b == [] {
      assert a + b == a;
      if DecodeElements(a).Some? {
        assert DecodeElements(a).value + [] == DecodeElements(a).value;
      }
    } else {
      var bInit := b[..|b| - 1];
      DecodeElementsConcat(a, bInit);
      assert (a + b)[..|a + b| - 1] == a + bInit;
      assert (a + b)[|a + b| - 1] == b[|b| - 1];
      match DecodeEntry(b[|b| - 1])
      case Skipped =>
      case Rejected =>
      case Decoded(e) =>
        if DecodeElements(a).Some? && DecodeElements(bInit).Some? {
          var ea, eb := DecodeElements(a).value, DecodeElements(bInit).value;
          assert ea + eb + [e] == ea + (eb + [e]);
        }
    }
  }

  // ---------------------------------------------------------------------------
  // Loading: the whole file
  // ---------------------------------------------------------------------------

  /** The view parameters and elements after a load, and whether it raised no error. */
  datatype LoadOutcome = LoadOutcome(params: ViewParams, elements: seq<OverlayElement>, ok: bool)

  /** "elements" is present and a list. */
  predicate HasElementList(m: map<string, Json>)
  {
    "elements" in m && m["elements"].JArray?
  }

  /** The effect of loading a parsed overlay file into a session holding
      view parameters `p` and elements `es`. A non-object fails before anything is
      applied; the scalar keys are applied in order until one fails; the element list
      is replaced only when "elements" is a list whose entries all decode. */
  function ApplyOverlay(p: ViewParams, es: seq<OverlayElement>, content: Json): LoadOutcome
  {
    if !content.JObject? then LoadOutcome(p, es, false)
    else
      var m := content.members;
      var s := ApplyScalars(p, m);
      if !s.ok then LoadOutcome(s.params, es, false)
      else if HasElementList(m) then
        match DecodeElements(m["elements"].items)
        case None => LoadOutcome(s.params, es, false)
        case Some(decoded) => LoadOutcome(s.params, decoded, true)
      else LoadOutcome(s.params, es, true)
  }

  /** Content that is not an object changes nothing. */
  lemma LoadRejectsNonObject(p: ViewParams, es: seq<OverlayElement>, content: Json)
    requires !content.JObject?
    ensures ApplyOverlay(p, es, content) == LoadOutcome(p, es, false)
  {
  }

  /** The view parameters after a load of an object: when every present key converts,
      each present key overwrites exactly its field and absent keys keep theirs; in any
      case no field takes a value other than its old one or its key's. */
  lemma LoadAppliesPresentKeys(p: ViewParams, es: seq<OverlayElement>, m: map<string, Json>)
    ensures var r := ApplyOverlay(p, es, JObject(m));
      && ((forall k :: Convertible(m, k)) ==> forall k ::
            if KeyName(k) in m then ToFloat(m[KeyName(k)]) == Some(r.params.Get(k)) else r.params.Get(k) == p.Get(k))
      && (forall k ::
            r.params.Get(k) == p.Get(k) ||
            (KeyName(k) in m && ToFloat(m[KeyName(k)]) == Some(r.params.Get(k))))
  {
    ApplyScalarsEffect(p, m);
  }

  /** When a load succeeds and what it does to the elements: they are replaced only when
      the load succeeds and "elements" is a list, and then by the decoded entries. */
  lemma LoadReplacesElements(p: ViewParams, es: seq<OverlayElement>, content: Json)
    ensures var r := ApplyOverlay(p, es, content);
      && (r.ok <==>
            content.JObject? && (forall k :: Convertible(content.members, k)) &&
            (HasElementList(content.members) ==>
               forall i :: 0 <= i < |content.members["elements"].items| ==>
                 !DecodeEntry(content.members["elements"].items[i]).Rejected?))
      && r.elements ==
           if r.ok && HasElementList(content.members)
           then DecodeElements(content.members["elements"].items).value
           else es
  {
    if content.JObject? {
      ApplyScalarsEffect(p, content.members);
      if HasElementList(content.members) {
        DecodeElementsFailsIff(content.members["elements"].items);
      }
    }
  }

  /** An entry with all three keys whose type is not a category makes the load fail after
      every scalar key has been applied, and leaves the element list as it was. */
  lemma BadTypeFailsAfterScalars(p: ViewParams, es: seq<OverlayElement>, m: map<string, Json>, i: nat)
    requires forall k :: Convertible(m, k)
    requires HasElementList(m) && i < |m["elements"].items|
    requires var e := m["elements"].items[i];
      e.JObject? && "x" in e.members && "y" in e.members && "type" in e.members &&
      TypeOf(e.members["type"]).None?
    ensures var r := ApplyOverlay(p, es, JObject(m));
      && !r.ok && r.elements == es
      && forall k ::
           if KeyName(k) in m then ToFloat(m[KeyName(k)]) == Some(r.params.Get(k)) else r.params.Get(k) == p.Get(k)
  {
    ApplyScalarsEffect(p, m);
    DecodeElementsFailsIff(m["elements"].items);
    assert DecodeEntry(m["elements"].items[i]).Rejected?;
  }

  // ---------------------------------------------------------------------------
  // Saving
  // ---------------------------------------------------------------------------

  /** `e.__dict__`: the element as an object with "x", "y" and "type". */
  function ElementRecord(e: OverlayElement): Json
  {
    JObject(map["x" := JNumber(e.x), "y" := JNumber(e.y), "type" := JString(TypeName(e.overlayType))])
  }

  /** The saved list of elements, one record per element in element order. */
  function ElementRecords(es: seq<OverlayElement>): (r: seq<Json>)
    ensures |r| == |es|
    ensures forall i :: 0 <= i < |es| ==> r[i] == ElementRecord(es[i])
  {
    if es == [] then [] else ElementRecords(es[..|es| - 1]) + [ElementRecord(es[|es| - 1])]
  }

  /** The object `save_overlay_to_file` writes. */
  function SaveRecord(p: ViewParams, es: seq<OverlayElement>): (j: Json)
    ensures j.JObject?
    ensures j.members.Keys ==
      {"offset_img_x", "offset_img_y", "scale_img", "offset_net_x", "offset_net_y", "scale_net", "elements"}
  {
    JObject(map[
      KeyName(OffsetImgX) := JNumber(p.offsetImgX),
      KeyName(OffsetImgY) := JNumber(p.offsetImgY),
      KeyName(ScaleImg) := JNumber(p.scaleImg),
      KeyName(OffsetNetX) := JNumber(p.offsetNetX),
      KeyName(OffsetNetY) := JNumber(p.offsetNetY),
      KeyName(ScaleNet) := JNumber(p.scaleNet),
      "elements" := JArray(ElementRecords(es))])
  }

  /** A saved element record decodes back to the element. */
  lemma ElementRecordDecodes(e: OverlayElement)
    ensures DecodeEntry(ElementRecord(e)) == Decoded(e)
  {
    OverlayTypesClosed();
  }

  /** The saved element list decodes back to the same elements in the same order. */
  lemma {:induction false} ElementRecordsDecode(es: seq<OverlayElement>)
    ensures DecodeElements(ElementRecords(es)) == Some(es)
  {
    if es != [] {
      var init := es[..|es| - 1];
      var recs := ElementRecords(es);
      assert recs[..|recs| - 1] == ElementRecords(init);
      ElementRecordsDecode(init);
      ElementRecordDecodes(es[|es| - 1]);
      assert init + [es[|es| - 1]] == es;
    }
  }

  /** Loading a saved record, into any session, restores the six view parameters and the
      element list in order, and succeeds. */
  lemma SavedOverlayLoadsBack(current: ViewParams, currentEs: seq<OverlayElement>,
                              p: ViewParams, es: seq<OverlayElement>)
    ensures ApplyOverlay(current, currentEs, SaveRecord(p, es)) == LoadOutcome(p, es, true)
  {
    var m := SaveRecord(p, es).members;
    forall k ensures KeyName(k) in m && m[KeyName(k)] == JNumber(p.Get(k)) {
    }
    ApplyScalarsEffect(current, m);
    var q := ApplyScalars(current, m).params;
    assert forall k :: q.Get(k) == p.Get(k);
    assert q.Get(OffsetImgX) == p.Get(OffsetImgX) && q.Get(OffsetImgY) == p.Get(OffsetImgY);
    assert q.Get(ScaleImg) == p.Get(ScaleImg) && q.Get(OffsetNetX) == p.Get(OffsetNetX);
    assert q.Get(OffsetNetY) == p.Get(OffsetNetY) && q.Get(ScaleNet) == p.Get(ScaleNet);
    assert q == p;
    ElementRecordsDecode(es);
  }
}
