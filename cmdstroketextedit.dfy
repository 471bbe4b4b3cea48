/**
 * CmdStrokeTextEdit: an undoable edit of the nine mutable attributes of a
 * stroke text. The command snapshots the attributes when it is created
 * (the old values), stages new values, and applies the one or the other set
 * as a whole through the entity's setters.
 */
module StrokeTextCommands {

  import opened Primitives
  import opened StrokeTexts

  /**
   * The library geometry the command calls and this model does not compute:
   * Point::rotate, Point::mirrored and GraphicsLayer::getMirroredLayerName.
   */
  datatype Geometry = Geometry(
    rotated: (Point, Angle, Point) -> Point,
    mirrored: (Point, Orientation, Point) -> Point,
    mirroredLayerName: string -> string)

  /** The staged values after rotate: the position turned about center, the angle added. */
  function RotatedValues(a: TextAttributes, angle: Angle, center: Point, geo: Geometry): (r: TextAttributes)
    ensures r.position == geo.rotated(a.position, angle, center)
    ensures r.rotation == AddAngle(a.rotation, angle)
    ensures r.(position := a.position, rotation := a.rotation) == a
  {
    a.(position := geo.rotated(a.position, angle, center), rotation := AddAngle(a.rotation, angle))
  }

  /** The staged values after mirror: mirrored layer, toggled flag, mirrored position. */
  function MirroredValues(a: TextAttributes, center: Point, orientation: Orientation, geo: Geometry): (r: TextAttributes)
    ensures r.layerName == geo.mirroredLayerName(a.layerName)
    ensures r.mirrored == !a.mirrored
    ensures r.position == geo.mirrored(a.position, orientation, center)
    ensures r.(layerName := a.layerName, mirrored := a.mirrored, position := a.position) == a
  {
    a.(layerName := geo.mirroredLayerName(a.layerName), mirrored := !a.mirrored,
       position := geo.mirrored(a.position, orientation, center))
  }

  /** Mirroring twice restores the staged flag; with involutive geometry it restores everything. */
  lemma MirrorTwice(a: TextAttributes, center: Point, orientation: Orientation, geo: Geometry)
    ensures MirroredValues(MirroredValues(a, center, orientation, geo), center, orientation, geo).mirrored == a.mirrored
    ensures geo.mirroredLayerName(geo.mirroredLayerName(a.layerName)) == a.layerName &&
            geo.mirrored(geo.mirrored(a.position, orientation, center), orientation, center) == a.position ==>
            MirroredValues(MirroredValues(a, center, orientation, geo), center, orientation, geo) == a
  {
  }

  class CmdStrokeTextEdit {
    /** The edited entity (a reference in the source). */
    const text: StrokeText
    /** mOld*: the attributes when the command was created. */
    var oldValues: TextAttributes
    /** mNew*: the staged attributes. */
    var newValues: TextAttributes
    /** UndoCommand::wasEverExecuted. */
    var wasEverExecuted: bool

    constructor (text: StrokeText)
      ensures this.text == text
      ensures oldValues == text.Attributes() && newValues == oldValues
      ensures !wasEverExecuted
    {
      this.text := text;
      oldValues := text.Attributes();
      newValues := text.Attributes();
      wasEverExecuted := false;
    }

    /** The destructor: a command that never ran puts back the old values. */
    method Destroy()
      modifies text`layerName, text`text, text`position, text`rotation, text`height,
               text`strokeWidthRatio, text`lineSpacingFactor, text`align, text`mirrored, text`log
      ensures old(wasEverExecuted) ==> unchanged(text)
      ensures !old(wasEverExecuted) ==> text.Attributes() == oldValues
    {
      if !wasEverExecuted {
        PerformUndo();
      }
    }

    method SetLayerName(name: string, immediate: bool)
      requires !wasEverExecuted
      modifies this`newValues, text`layerName, text`log
      ensures newValues == old(newValues).(layerName := name)
      ensures immediate ==> text.Attributes() == old(text.Attributes()).(layerName := name)
      ensures immediate ==> Logged(old(text.log), text.log, text.observers,
                                   if name == old(text.layerName) then None else Some(LayerNameChanged(name)))
      ensures !immediate ==> unchanged(text)
    {
      newValues := newValues.(layerName := name);
      if immediate { text.SetLayerName(newValues.layerName); }
    }

    method SetText(s: string, immediate: bool)
      requires !wasEverExecuted
      modifies this`newValues, text`text, text`log
      ensures newValues == old(newValues).(text := s)
      ensures immediate ==> text.Attributes() == old(text.Attributes()).(text := s)
      ensures immediate ==> Logged(old(text.log), text.log, text.observers,
                                   if s == old(text.text) then None else Some(TextChanged(s)))
      ensures !immediate ==> unchanged(text)
    {
      newValues := newValues.(text := s);
      if immediate { text.SetText(newValues.text); }
    }

    method SetHeight(height: Length, immediate: bool)
      requires !wasEverExecuted
      modifies this`newValues, text`height, text`log
      ensures newValues == old(newValues).(height := height)
      ensures immediate ==> text.Attributes() == old(text.Attributes()).(height := height)
      ensures immediate ==> Logged(old(text.log), text.log, text.observers,
                                   if height == old(text.height) then None else Some(HeightChanged(height)))
      ensures !immediate ==> unchanged(text)
    {
      newValues := newValues.(height := height);
      if immediate { text.SetHeight(newValues.height); }
    }

    method SetStrokeWidthRatio(ratio: Ratio, immediate: bool)
      requires !wasEverExecuted
      modifies this`newValues, text`strokeWidthRatio, text`log
      ensures newValues == old(newValues).(strokeWidthRatio := ratio)
      ensures immediate ==> text.Attributes() == old(text.Attributes()).(strokeWidthRatio := ratio)
      ensures immediate ==> Logged(old(text.log), text.log, text.observers,
                                   if ratio == old(text.strokeWidthRatio) then None else Some(StrokeWidthRatioChanged(ratio)))
      ensures !immediate ==> unchanged(text)
    {
      newValues := newValues.(strokeWidthRatio := ratio);
      if immediate { text.SetStrokeWidthRatio(newValues.strokeWidthRatio); }
    }

    method SetLineSpacingFactor(factor: Ratio, immediate: bool)
      requires !wasEverExecuted
      modifies this`newValues, text`lineSpacingFactor, text`log
      ensures newValues == old(newValues).(lineSpacingFactor := factor)
      ensures immediate ==> text.Attributes() == old(text.Attributes()).(lineSpacingFactor := factor)
      ensures immediate ==> Logged(old(text.log), text.log, text.observers,
                                   if factor == old(text.lineSpacingFactor) then None else Some(LineSpacingFactorChanged(factor)))
      ensures !immediate ==> unchanged(text)
    {
      newValues := newValues.(lineSpacingFactor := factor);
      if immediate { text.SetLineSpacingFactor(newValues.lineSpacingFactor); }
    }

    method SetAlignment(align: Alignment, immediate: bool)
      requires !wasEverExecuted
      modifies this`newValues, text`align, text`log
      ensures newValues == old(newValues).(align := align)
      ensures immediate ==> text.Attributes() == old(text.Attributes()).(align := align)
      ensures immediate ==> Logged(old(text.log), text.log, text.observers,
                                   if align == old(text.align) then None else Some(AlignChanged(align)))
      ensures !immediate ==> unchanged(text)
    {
      newValues := newValues.(align := align);
      if immediate { text.SetAlign(newValues.align); }
    }

    method SetPosition(pos: Point, immediate: bool)
      requires !wasEverExecuted
      modifies this`newValues, text`position, text`log
      ensures newValues == old(newValues).(position := pos)
      ensures immediate ==> text.Attributes() == old(text.Attributes()).(position := pos)
      ensures immediate ==> Logged(old(text.log), text.log, text.observers,
                                   if pos == old(text.position) then None else Some(PositionChanged(pos)))
      ensures !immediate ==> unchanged(text)
    {
      newValues := newValues.(position := pos);
      if immediate { text.SetPosition(newValues.position); }
    }

    /** The staged position is measured from the old position, so calls do not accumulate. */
    method SetDeltaToStartPos(delta: Point, immediate: bool)
      requires !wasEverExecuted
      modifies this`newValues, text`position, text`log
      ensures newValues == old(newValues).(position := oldValues.position.Plus(delta))
      ensures immediate ==> text.Attributes() == old(text.Attributes()).(position := oldValues.position.Plus(delta))
      ensures immediate ==> Logged(old(text.log), text.log, text.observers,
                                   if newValues.position == old(text.position) then None
                                   else Some(PositionChanged(newValues.position)))
      ensures !immediate ==> unchanged(text)
    {
      newValues := newValues.(position := oldValues.position.Plus(delta));
      if immediate { text.SetPosition(newValues.position); }
    }

    method SetRotation(angle: Angle, immediate: bool)
      requires !wasEverExecuted
      modifies this`newValues, text`rotation, text`log
      ensures newValues == old(newValues).(rotation := angle)
      ensures immediate ==> text.Attributes() == old(text.Attributes()).(rotation := angle)
      ensures immediate ==> Logged(old(text.log), text.log, text.observers,
                                   if angle == old(text.rotation) then None else Some(RotationChanged(angle)))
      ensures !immediate ==> unchanged(text)
    {
      newValues := newValues.(rotation := angle);
      if immediate { text.SetRotation(newValues.rotation); }
    }

    method Rotate(angle: Angle, center: Point, immediate: bool, geo: Geometry)
      requires !wasEverExecuted
      modifies this`newValues, text`position, text`rotation, text`log
      ensures newValues == RotatedValues(old(newValues), angle, center, geo)
      ensures immediate ==> text.Attributes() == old(text.Attributes()).(
        position := newValues.position, rotation := newValues.rotation)
      ensures !immediate ==> unchanged(text)
    {
      newValues := newValues.(position := geo.rotated(newValues.position, angle, center));
      newValues := newValues.(rotation := AddAngle(newValues.rotation, angle));
      if immediate {
        text.SetPosition(newValues.position);
        text.SetRotation(newValues.rotation);
      }
    }

    method SetMirrored(mirrored: bool, immediate: bool)
      requires !wasEverExecuted
      modifies this`newValues, text`mirrored, text`log
      ensures newValues == old(newValues).(mirrored := mirrored)
      ensures immediate ==> text.Attributes() == old(text.Attributes()).(mirrored := mirrored)
      ensures immediate ==> Logged(old(text.log), text.log, text.observers,
                                   if mirrored == old(text.mirrored) then None else Some(MirroredChanged(mirrored)))
      ensures !immediate ==> unchanged(text)
    {
      newValues := newValues.(mirrored := mirrored);
      if immediate { text.SetMirrored(newValues.mirrored); }
    }

    /** Three staging calls computed from the staged values: layer, flag and position. */
    method Mirror(center: Point, orientation: Orientation, immediate: bool, geo: Geometry)
      requires !wasEverExecuted
      modifies this`newValues, text`layerName, text`mirrored, text`position, text`log
      ensures newValues == MirroredValues(old(newValues), center, orientation, geo)
      ensures immediate ==> text.Attributes() == old(text.Attributes()).(
        layerName := newValues.layerName, mirrored := newValues.mirrored, position := newValues.position)
      ensures !immediate ==> unchanged(text)
    {
      SetLayerName(geo.mirroredLayerName(newValues.layerName), immediate);
      SetMirrored(!newValues.mirrored, immediate);
      SetPosition(geo.mirrored(newValues.position, orientation, center), immediate);
    }

    /** performExecute: applies the staged values; true iff some staged value differs from its old one. */
    method PerformExecute() returns (changed: bool)
      modifies text`layerName, text`text, text`position, text`rotation, text`height,
               text`strokeWidthRatio, text`lineSpacingFactor, text`align, text`mirrored, text`log
      ensures text.Attributes() == newValues
      ensures changed <==> newValues != oldValues
      ensures old(text.Attributes()) == newValues ==> text.log == old(text.log)
    {
      PerformRedo();
      if newValues.layerName != oldValues.layerName { return true; }
      if newValues.text != oldValues.text { return true; }
      if newValues.position != oldValues.position { return true; }
      if newValues.rotation != oldValues.rotation { return true; }
      if newValues.height != oldValues.height { return true; }
      if newValues.strokeWidthRatio != oldValues.strokeWidthRatio { return true; }
      if newValues.lineSpacingFactor != oldValues.lineSpacingFactor { return true; }
      if newValues.align != oldValues.align { return true; }
      if newValues.mirrored != oldValues.mirrored { return true; }
      return false;
    }

    /** UndoCommand::execute as far as this command needs it: run once, then remember it ran. */
    method Execute() returns (changed: bool)
      requires !wasEverExecuted
      modifies this`wasEverExecuted, text`layerName, text`text, text`position, text`rotation,
               text`height, text`strokeWidthRatio, text`lineSpacingFactor, text`align,
               text`mirrored, text`log
      ensures wasEverExecuted
      ensures text.Attributes() == newValues
      ensures changed <==> newValues != oldValues
      ensures old(text.Attributes()) == newValues ==> text.log == old(text.log)
    {
      changed := PerformExecute();
      wasEverExecuted := true;
    }

    /** performUndo: the nine setters with the old values. */
    method PerformUndo()
      modifies text`layerName, text`text, text`position, text`rotation, text`height,
               text`strokeWidthRatio, text`lineSpacingFactor, text`align, text`mirrored, text`log
      ensures text.Attributes() == oldValues
      ensures old(text.Attributes()) == oldValues ==> text.log == old(text.log)
    {
      text.SetLayerName(oldValues.layerName);
      text.SetText(oldValues.text);
      text.SetPosition(oldValues.position);
      text.SetRotation(oldValues.rotation);
      text.SetHeight(oldValues.height);
      text.SetStrokeWidthRatio(oldValues.strokeWidthRatio);
      text.SetLineSpacingFactor(oldValues.lineSpacingFactor);
      text.SetAlign(oldValues.align);
      text.SetMirrored(oldValues.mirrored);
    }

    /** performRedo: the nine setters with the staged values. */
    method PerformRedo()
      modifies text`layerName, text`text, text`position, text`rotation, text`height,
               text`strokeWidthRatio, text`lineSpacingFactor, text`align, text`mirrored, text`log
      ensures text.Attributes() == newValues
      ensures old(text.Attributes()) == newValues ==> text.log == old(text.log)
    {
      text.SetLayerName(newValues.layerName);
      text.SetText(newValues.text);
      text.SetPosition(newValues.position);
      text.SetRotation(newValues.rotation);
      text.SetHeight(newValues.height);
      text.SetStrokeWidthRatio(newValues.strokeWidthRatio);
      text.SetLineSpacingFactor(newValues.lineSpacingFactor);
      text.SetAlign(newValues.align);
      text.SetMirrored(newValues.mirrored);
    }
  }

  /**
   * An edit staged with immediate = true and then dropped without being
   * executed leaves the entity as it was.
   */
  method AbandonedEdit(t: StrokeText, name: string)
    modifies t
    ensures t.Attributes() == old(t.Attributes())
    ensures t.uuid == old(t.uuid) && t.observers == old(t.observers)
  {
    var cmd := new CmdStrokeTextEdit(t);
    cmd.SetLayerName(name, true);
    cmd.Destroy();
  }

  /**
   * An edit that stages nothing reports no change when executed, and neither
   * executing nor undoing it informs an observer.
   */
  method EmptyEdit(t: StrokeText) returns (changed: bool)
    modifies t
    ensures !changed
    ensures t.Attributes() == old(t.Attributes()) && t.log == old(t.log)
  {
    var cmd := new CmdStrokeTextEdit(t);
    changed := cmd.Execute();
    cmd.PerformUndo();
  }
}
