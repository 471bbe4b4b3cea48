/**
 * Reading a stroke text from its S-expression node and writing it back.
 * The node library is abstracted to a record with one entry per child the
 * stroke text uses; each entry says whether the child is missing, present
 * but unreadable as the type asked for, or present with a value.
 */
module StrokeTextNodes {

  import opened Primitives
  import opened StrokeTexts

  datatype Child<+T> = Missing | Malformed | Present(value: T)

  /**
   * A stroke_text node: its first child (the UUID token, or the text in the
   * legacy format) and the children looked up by name.
   */
  datatype TextNode = TextNode(
    first: Child<string>,
    value: Child<string>,
    layer: Child<string>,
    pos: Child<Point>,
    rot: Child<Angle>,
    height: Child<Length>,
    strokeWidthRatio: Child<Ratio>,
    lineSpacingFactor: Child<Ratio>,
    mirror: Child<bool>,
    align: Child<Alignment>)

  datatype Problem = UnreadableChild(name: string) | NonPositiveHeight

  /** RuntimeError: bad input, reported to the user; LogicError: a broken invariant. */
  datatype LoadError = RuntimeError(problem: Problem) | LogicError

  /** The stroke width ratio of nodes written before it was stored: 10 %. */
  const DefaultStrokeWidthRatio: Ratio := Percent100 / 10
  /** The line spacing factor of nodes written before it was stored: 150 %. */
  const DefaultLineSpacingFactor: Ratio := 1500000

  /** A child read with throwIfEmpty: a missing, unreadable or empty string is an error. */
  function RequiredText(c: Child<string>, name: string): (r: Result<string, LoadError>)
    ensures r.Success? <==> c.Present? && c.value != []
    ensures r.Success? ==> r.value == c.value
    ensures r.Failure? ==> r.error == RuntimeError(UnreadableChild(name))
  {
    if c.Present? && c.value != [] then Success(c.value)
    else Failure(RuntimeError(UnreadableChild(name)))
  }

  function Required<T>(c: Child<T>, name: string): (r: Result<T, LoadError>)
    ensures r.Success? <==> c.Present?
    ensures r.Success? ==> r.value == c.value
    ensures r.Failure? ==> r.error == RuntimeError(UnreadableChild(name))
  {
    if c.Present? then Success(c.value) else Failure(RuntimeError(UnreadableChild(name)))
  }

  /** tryGetChildByPath: a missing child gives the default, an unreadable one an error. */
  function Optional<T>(c: Child<T>, name: string, default: T): (r: Result<T, LoadError>)
    ensures r.Success? <==> !c.Malformed?
    ensures c.Missing? ==> r == Success(default)
    ensures c.Present? ==> r == Success(c.value)
  {
    match c
    case Missing => Success(default)
    case Malformed => Failure(RuntimeError(UnreadableChild(name)))
    case Present(v) => Success(v)
  }

  /** True when the node is in the current format: its first child is a UUID. */
  predicate HasUuid(node: TextNode)
  {
    node.first.Present? && !IsNullUuid(ParseUuid(node.first.value))
  }

  /**
   * The identity and the text: from the first child and the value child, or,
   * in the legacy format, a fresh UUID and the first child as the text.
   */
  function ReadIdentity(node: TextNode, freshUuid: Uuid): (r: Result<(Uuid, string), LoadError>)
    ensures r.Success? && HasUuid(node) ==>
      r.value.0 == ParseUuid(node.first.value) && node.value == Present(r.value.1) && r.value.1 != []
    ensures r.Success? && !HasUuid(node) ==>
      r.value.0 == freshUuid && node.first == Present(r.value.1) && r.value.1 != []
  {
    if !node.first.Present? then Failure(RuntimeError(UnreadableChild("0")))
    else if HasUuid(node) then
      var text :- RequiredText(node.value, "value");
      Success((ParseUuid(node.first.value), text))
    else
      var text :- RequiredText(node.first, "0");
      Success((freshUuid, text))
  }

  /**
   * Every attribute read from the node, before the final validity check.
   * The children are read in the order identity, layer, pos, rot, height,
   * stroke_width_ratio, line_spacing_factor, mirror, align, and the first
   * one that cannot be read is the error.
   */
  function ReadFields(node: TextNode, freshUuid: Uuid): (r: Result<StrokeTextData, LoadError>)
    ensures r.Success? ==> StoresChildren(node, r.value.attributes)
    ensures ReadIdentity(node, freshUuid).Failure? ==> r == Failure(ReadIdentity(node, freshUuid).error)
    ensures ReadIdentity(node, freshUuid).Success? && !(node.layer.Present? && node.layer.value != []) ==>
      r == Failure(RuntimeError(UnreadableChild("layer")))
    ensures ReadIdentity(node, freshUuid).Success? && node.layer.Present? && node.layer.value != [] ==>
      (!node.pos.Present? ==> r == Failure(RuntimeError(UnreadableChild("pos")))) &&
      (node.pos.Present? && !node.rot.Present? ==> r == Failure(RuntimeError(UnreadableChild("rot")))) &&
      (node.pos.Present? && node.rot.Present? && !node.height.Present? ==>
        r == Failure(RuntimeError(UnreadableChild("height"))))
    ensures ReadsThroughHeight(node, freshUuid) && node.height.value > 0 ==>
      (node.strokeWidthRatio.Malformed? ==> r == Failure(RuntimeError(UnreadableChild("stroke_width_ratio")))) &&
      (!node.strokeWidthRatio.Malformed? && node.lineSpacingFactor.Malformed? ==>
        r == Failure(RuntimeError(UnreadableChild("line_spacing_factor")))) &&
      (!node.strokeWidthRatio.Malformed? && !node.lineSpacingFactor.Malformed? && node.mirror.Malformed? ==>
        r == Failure(RuntimeError(UnreadableChild("mirror")))) &&
      (!node.strokeWidthRatio.Malformed? && !node.lineSpacingFactor.Malformed? && !node.mirror.Malformed? ==>
        (r.Success? <==> node.align.Present?) &&
        (!node.align.Present? ==> r == Failure(RuntimeError(UnreadableChild("align")))))
  {
    var (uuid, text) :- ReadIdentity(node, freshUuid);
    var layer :- RequiredText(node.layer, "layer");
    var pos :- Required(node.pos, "pos");
    var rot :- Required(node.rot, "rot");
    var height :- Required(node.height, "height");
    if !(height > 0) then Failure(RuntimeError(NonPositiveHeight))
    else
      var swr :- Optional(node.strokeWidthRatio, "stroke_width_ratio", DefaultStrokeWidthRatio);
      var lsf :- Optional(node.lineSpacingFactor, "line_spacing_factor", DefaultLineSpacingFactor);
      var mirrored :- Optional(node.mirror, "mirror", false);
      var align :- Required(node.align, "align");
      Success(StrokeTextData(uuid, TextAttributes(layer, text, pos, rot, height, swr, lsf, align, mirrored)))
  }

  /** The attributes hold the values of the node's children that are present. */
  predicate StoresChildren(node: TextNode, a: TextAttributes)
  {
    && node.layer == Present(a.layerName) && node.pos == Present(a.position)
    && node.rot == Present(a.rotation) && node.height == Present(a.height)
    && node.align == Present(a.align)
    && (node.strokeWidthRatio.Present? ==> a.strokeWidthRatio == node.strokeWidthRatio.value)
    && (node.lineSpacingFactor.Present? ==> a.lineSpacingFactor == node.lineSpacingFactor.value)
    && (node.mirror.Present? ==> a.mirrored == node.mirror.value)
  }

  /** The children up to and including height can be read. */
  predicate ReadsThroughHeight(node: TextNode, freshUuid: Uuid)
  {
    ReadIdentity(node, freshUuid).Success? && node.layer.Present? && node.layer.value != [] &&
    node.pos.Present? && node.rot.Present? && node.height.Present?
  }

  /** The node constructor StrokeText(const SExpression&). */
  function Deserialize(node: TextNode, freshUuid: Uuid): (r: Result<StrokeTextData, LoadError>)
    requires !IsNullUuid(freshUuid)
    ensures r.Success? ==> Valid(r.value)
    ensures r.Success? ==> r.value.attributes.height > 0
    // a height <= 0 is a RuntimeError, reported before any later child is read
    ensures ReadsThroughHeight(node, freshUuid) && node.height.value <= 0 ==>
      r == Failure(RuntimeError(NonPositiveHeight))
    // only a negative stroke width ratio can fail the final validity check
    ensures r == Failure(LogicError) <==>
      ReadFields(node, freshUuid).Success? &&
      ReadFields(node, freshUuid).value.attributes.strokeWidthRatio < 0
    // the legacy format: a fresh UUID, the text from the first child
    ensures r.Success? && !HasUuid(node) ==>
      r.value.uuid == freshUuid && node.first == Present(r.value.attributes.text)
    ensures r.Success? && HasUuid(node) ==>
      r.value.uuid == ParseUuid(node.first.value) && node.value == Present(r.value.attributes.text)
    // the defaults of older files
    ensures r.Success? && node.strokeWidthRatio.Missing? ==>
      r.value.attributes.strokeWidthRatio == DefaultStrokeWidthRatio
    ensures r.Success? && node.lineSpacingFactor.Missing? ==>
      r.value.attributes.lineSpacingFactor == DefaultLineSpacingFactor
    ensures r.Success? && node.mirror.Missing? ==> !r.value.attributes.mirrored
    // the values of the children that are present
    ensures r.Success? ==> StoresChildren(node, r.value.attributes)
    // an unreadable child is reported as ReadFields reports it
    ensures ReadFields(node, freshUuid).Failure? ==> r == Failure(ReadFields(node, freshUuid).error)
  {
    var d :- ReadFields(node, freshUuid);
    if !Valid(d) then Failure(LogicError) else Success(d)
  }

  /** serialize: refuses an invalid stroke text, otherwise writes every child. */
  function Serialize(d: StrokeTextData): (r: Result<TextNode, LoadError>)
    ensures r.Success? <==> Valid(d)
    ensures r.Failure? ==> r.error == LogicError
  {
    if !Valid(d) then Failure(LogicError)
    else
      var a := d.attributes;
      Success(TextNode(Present(d.uuid.text), Present(a.text), Present(a.layerName),
                       Present(a.position), Present(a.rotation), Present(a.height),
                       Present(a.strokeWidthRatio), Present(a.lineSpacingFactor),
                       Present(a.mirrored), Present(a.align)))
  }

  /**
   * Writing a valid stroke text and reading it back gives the same ten
   * attributes, provided the layer name is not empty: the reader demands a
   * non-empty layer child, which validity does not.
   */
  lemma RoundTrip(d: StrokeTextData, freshUuid: Uuid)
    requires Valid(d) && !IsNullUuid(freshUuid)
    requires d.attributes.layerName != []
    ensures Serialize(d).Success?
    ensures Deserialize(Serialize(d).value, freshUuid) == Success(d)
  {
    var node := Serialize(d).value;
    assert ParseUuid(d.uuid.text) == d.uuid;
    assert HasUuid(node);
    assert ReadIdentity(node, freshUuid) == Success((d.uuid, d.attributes.text));
    assert ReadFields(node, freshUuid) == Success(d);
  }

  /** A valid stroke text with an empty layer name is written but cannot be read back. */
  lemma EmptyLayerNotReadBack(d: StrokeTextData, freshUuid: Uuid)
    requires Valid(d) && !IsNullUuid(freshUuid)
    requires d.attributes.layerName == []
    ensures Serialize(d).Success?
    ensures Deserialize(Serialize(d).value, freshUuid) == Failure(RuntimeError(UnreadableChild("layer")))
  {
    var node := Serialize(d).value;
    assert ParseUuid(d.uuid.text) == d.uuid;
    assert ReadIdentity(node, freshUuid) == Success((d.uuid, d.attributes.text));
  }

  /** StrokeText(const SExpression&): a fresh object holding the deserialized attributes. */
  method LoadStrokeText(node: TextNode, freshUuid: Uuid) returns (r: Result<StrokeText, LoadError>)
    requires !IsNullUuid(freshUuid)
    ensures r.Success? <==> Deserialize(node, freshUuid).Success?
    ensures r.Failure? ==> r.error == Deserialize(node, freshUuid).error
    ensures r.Success? ==> fresh(r.value) && r.value.Data() == Deserialize(node, freshUuid).value
    ensures r.Success? ==> r.value.observers == {} && r.value.log == []
  {
    var d := Deserialize(node, freshUuid);
    if d.Failure? {
      return Failure(d.error);
    }
    var a := d.value.attributes;
    var t := new StrokeText(d.value.uuid, a.layerName, a.text, a.position, a.rotation, a.height,
                            a.strokeWidthRatio, a.lineSpacingFactor, a.align, a.mirrored);
    return Success(t);
  }
}
