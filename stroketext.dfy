/**
 * The StrokeText entity: ten attributes, a set of registered observers and
 * the notifications those observers have received. Each observer callback
 * of IF_StrokeTextObserver is one constructor of Change; a call of callback
 * c on observer o is the entry Notification(o, c) appended to the log.
 */
module StrokeTexts {

  import opened Primitives
  import Strings

  /** A UUID, or the null UUID that Uuid() and an unparsable string give. */
  datatype Uuid = NullUuid | Uuid(text: string)

  /** The canonical form xxxxxxxx-xxxx-xxxx-xxxx-xxxxxxxxxxxx with lower-case hexadecimal digits. */
  predicate IsUuidText(s: string)
  {
    |s| == 36 &&
    forall i :: 0 <= i < 36 ==>
      if i == 8 || i == 13 || i == 18 || i == 23 then s[i] == '-'
      else Strings.IsHexDigit(s[i]) && !('A' <= s[i] <= 'F')
  }

  predicate IsNullUuid(u: Uuid)
  {
    !(u.Uuid? && IsUuidText(u.text))
  }

  /** Uuid(QString): the UUID a string denotes, or the null UUID. */
  function ParseUuid(s: string): (u: Uuid)
    ensures IsNullUuid(u) <==> !IsUuidText(s)
    ensures !IsNullUuid(u) ==> u.text == s
  {
    if IsUuidText(s) then Uuid(s) else NullUuid
  }

  type ObserverId = nat

  /** The nine callbacks of IF_StrokeTextObserver, each with the new value it receives. */
  datatype Change =
    | LayerNameChanged(layerName: string)
    | TextChanged(text: string)
    | PositionChanged(position: Point)
    | RotationChanged(rotation: Angle)
    | HeightChanged(height: Length)
    | StrokeWidthRatioChanged(ratio: Ratio)
    | LineSpacingFactorChanged(factor: Ratio)
    | AlignChanged(align: Alignment)
    | MirroredChanged(mirrored: bool)

  datatype Notification = Notification(observer: ObserverId, change: Change)

  /** The nine mutable attributes of a stroke text. */
  datatype TextAttributes = TextAttributes(
    layerName: string,
    text: string,
    position: Point,
    rotation: Angle,
    height: Length,
    strokeWidthRatio: Ratio,
    lineSpacingFactor: Ratio,
    align: Alignment,
    mirrored: bool)

  /** All ten attributes: the identity and the nine mutable ones. */
  datatype StrokeTextData = StrokeTextData(uuid: Uuid, attributes: TextAttributes)

  /** checkAttributesValidity. */
  predicate Valid(d: StrokeTextData)
  {
    !IsNullUuid(d.uuid) && d.attributes.text != [] && d.attributes.height > 0 &&
    d.attributes.strokeWidthRatio >= 0
  }

  /** entries calls callback c exactly once on every observer of obs, and on nothing else. */
  ghost predicate NotifiedEachOnce(entries: seq<Notification>, obs: set<ObserverId>, c: Change)
  {
    && (forall i :: 0 <= i < |entries| ==> entries[i].change == c && entries[i].observer in obs)
    && (forall o :: o in obs ==> exists i :: 0 <= i < |entries| && entries[i].observer == o)
    && (forall i, j :: 0 <= i < j < |entries| ==> entries[i].observer != entries[j].observer)
  }

  /**
   * The log after a setter: unchanged when the setter found nothing to change
   * (c == None), otherwise the old log followed by one call of c on every observer.
   */
  ghost predicate Logged(before: seq<Notification>, after: seq<Notification>,
                         obs: set<ObserverId>, c: Option<Change>)
  {
    match c
    case None => after == before
    case Some(ch) => |before| <= |after| && after[..|before|] == before &&
                     NotifiedEachOnce(after[|before|..], obs, ch)
  }

  class StrokeText {
    var uuid: Uuid
    var layerName: string
    var text: string
    var position: Point
    var rotation: Angle
    var height: Length
    var strokeWidthRatio: Ratio
    var lineSpacingFactor: Ratio
    var align: Alignment
    var mirrored: bool

    /** mObservers (mutable in the source, so registration works on a const object). */
    var observers: set<ObserverId>
    /** The callbacks the observers have received, oldest first. */
    var log: seq<Notification>

    function Attributes(): TextAttributes
      reads this
    {
      TextAttributes(layerName, text, position, rotation, height, strokeWidthRatio,
                     lineSpacingFactor, align, mirrored)
    }

    function Data(): StrokeTextData
      reads this
    {
      StrokeTextData(uuid, Attributes())
    }

    /** The constructor from explicit values. */
    constructor (uuid: Uuid, layerName: string, text: string, pos: Point, rotation: Angle,
                 height: Length, strokeWidth: Ratio, lineSpacing: Ratio, align: Alignment,
                 mirrored: bool)
      ensures Data() == StrokeTextData(uuid, TextAttributes(layerName, text, pos, rotation,
                          height, strokeWidth, lineSpacing, align, mirrored))
      ensures observers == {} && log == []
    {
      this.uuid := uuid;
      this.layerName := layerName;
      this.text := text;
      this.position := pos;
      this.rotation := rotation;
      this.height := height;
      this.strokeWidthRatio := strokeWidth;
      this.lineSpacingFactor := lineSpacing;
      this.align := align;
      this.mirrored := mirrored;
      observers := {};
      log := [];
    }

    /** The copy constructor: all ten attributes, no observers. */
    constructor Copy(other: StrokeText)
      ensures Data() == other.Data()
      ensures observers == {} && log == []
    {
      uuid := other.uuid;
      layerName := other.layerName;
      text := other.text;
      position := other.position;
      rotation := other.rotation;
      height := other.height;
      strokeWidthRatio := other.strokeWidthRatio;
      lineSpacingFactor := other.lineSpacingFactor;
      align := other.align;
      mirrored := other.mirrored;
      observers := {};
      log := [];
    }

    /** The copy constructor with a new UUID: it differs from other only in its UUID. */
    constructor CopyWithUuid(uuid: Uuid, other: StrokeText)
      ensures Data() == StrokeTextData(uuid, other.Attributes())
      ensures observers == {} && log == []
    {
      this.uuid := uuid;
      layerName := other.layerName;
      text := other.text;
      position := other.position;
      rotation := other.rotation;
      height := other.height;
      strokeWidthRatio := other.strokeWidthRatio;
      lineSpacingFactor := other.lineSpacingFactor;
      align := other.align;
      mirrored := other.mirrored;
      observers := {};
      log := [];
    }

    /** The foreach over mObservers that every setter ends with: c reaches each observer once. */
    method Notify(c: Change)
      modifies this`log
      ensures Logged(old(log), log, observers, Some(c))
    {
      var pending := observers;
      ghost var start := |log|;
      while pending != {}
        invariant pending <= observers
        invariant start <= |log| && log[..start] == old(log)
        invariant NotifiedEachOnce(log[start..], observers - pending, c)
        decreases pending
      {
        var o :| o in pending;
        ghost var done := log[start..];
        ghost var before := pending;
        log := log + [Notification(o, c)];
        pending := pending - {o};
        assert log[start..] == done + [Notification(o, c)];
        forall p | p in observers - pending
          ensures exists i :: 0 <= i < |log[start..]| && log[start..][i].observer == p
        {
          if p == o {
            assert log[start..][|done|].observer == p;
          } else {
            assert p in observers - before;
            var i :| 0 <= i < |done| && done[i].observer == p;
            assert log[start..][i].observer == p;
          }
        }
      }
      assert observers - pending == observers;
    }

    method SetLayerName(name: string)
      modifies this`layerName, this`log
      ensures Attributes() == old(Attributes()).(layerName := name)
      ensures Logged(old(log), log, observers,
                     if name == old(layerName) then None else Some(LayerNameChanged(name)))
    {
      if name == layerName { return; }
      layerName := name;
      Notify(LayerNameChanged(layerName));
    }

    method SetText(text: string)
      modifies this`text, this`log
      ensures Attributes() == old(Attributes()).(text := text)
      ensures Logged(old(log), log, observers,
                     if text == old(this.text) then None else Some(TextChanged(text)))
    {
      if text == this.text { return; }
      this.text := text;
      Notify(TextChanged(this.text));
    }

    method SetPosition(pos: Point)
      modifies this`position, this`log
      ensures Attributes() == old(Attributes()).(position := pos)
      ensures Logged(old(log), log, observers,
                     if pos == old(position) then None else Some(PositionChanged(pos)))
    {
      if pos == position { return; }
      position := pos;
      Notify(PositionChanged(position));
    }

    method SetRotation(rotation: Angle)
      modifies this`rotation, this`log
      ensures Attributes() == old(Attributes()).(rotation := rotation)
      ensures Logged(old(log), log, observers,
                     if rotation == old(this.rotation) then None else Some(RotationChanged(rotation)))
    {
      if rotation == this.rotation { return; }
      this.rotation := rotation;
      Notify(RotationChanged(this.rotation));
    }

    method SetHeight(height: Length)
      modifies this`height, this`log
      ensures Attributes() == old(Attributes()).(height := height)
      ensures Logged(old(log), log, observers,
                     if height == old(this.height) then None else Some(HeightChanged(height)))
    {
      if height == this.height { return; }
      this.height := height;
      Notify(HeightChanged(this.height));
    }

    method SetStrokeWidthRatio(ratio: Ratio)
      modifies this`strokeWidthRatio, this`log
      ensures Attributes() == old(Attributes()).(strokeWidthRatio := ratio)
      ensures Logged(old(log), log, observers,
                     if ratio == old(strokeWidthRatio) then None else Some(StrokeWidthRatioChanged(ratio)))
    {
      if ratio == strokeWidthRatio { return; }
      strokeWidthRatio := ratio;
      Notify(StrokeWidthRatioChanged(strokeWidthRatio));
    }

    method SetLineSpacingFactor(factor: Ratio)
      modifies this`lineSpacingFactor, this`log
      ensures Attributes() == old(Attributes()).(lineSpacingFactor := factor)
      ensures Logged(old(log), log, observers,
                     if factor == old(lineSpacingFactor) then None else Some(LineSpacingFactorChanged(factor)))
    {
      if factor == lineSpacingFactor { return; }
      lineSpacingFactor := factor;
      Notify(LineSpacingFactorChanged(lineSpacingFactor));
    }

    method SetAlign(align: Alignment)
      modifies this`align, this`log
      ensures Attributes() == old(Attributes()).(align := align)
      ensures Logged(old(log), log, observers,
                     if align == old(this.align) then None else Some(AlignChanged(align)))
    {
      if align == this.align { return; }
      this.align := align;
      Notify(AlignChanged(this.align));
    }

    method SetMirrored(mirrored: bool)
      modifies this`mirrored, this`log
      ensures Attributes() == old(Attributes()).(mirrored := mirrored)
      ensures Logged(old(log), log, observers,
                     if mirrored == old(this.mirrored) then None else Some(MirroredChanged(mirrored)))
    {
      if mirrored == this.mirrored { return; }
      this.mirrored := mirrored;
      Notify(MirroredChanged(this.mirrored));
    }

    /** Set insertion: registering twice is the same as registering once. */
    method RegisterObserver(o: ObserverId)
      modifies this`observers
      ensures observers == old(observers) + {o}
    {
      observers := observers + {o};
    }

    /** Set removal: unregistering an absent observer changes nothing. */
    method UnregisterObserver(o: ObserverId)
      modifies this`observers
      ensures observers == old(observers) - {o}
    {
      observers := observers - {o};
    }

    /** operator==: all ten attributes, the UUID included, compared one by one. */
    function Equals(rhs: StrokeText): (r: bool)
      reads this, rhs
      ensures r <==> Data() == rhs.Data()
    {
      if uuid != rhs.uuid then false
      else if layerName != rhs.layerName then false
      else if text != rhs.text then false
      else if position != rhs.position then false
      else if rotation != rhs.rotation then false
      else if height != rhs.height then false
      else if strokeWidthRatio != rhs.strokeWidthRatio then false
      else if lineSpacingFactor != rhs.lineSpacingFactor then false
      else if align != rhs.align then false
      else if mirrored != rhs.mirrored then false
      else true
    }

    /** operator!=. */
    function NotEquals(rhs: StrokeText): (r: bool)
      reads this, rhs
      ensures r <==> Data() != rhs.Data()
      ensures r <==> !Equals(rhs)
    {
      !Equals(rhs)
    }

    /** operator=: copies the ten attributes, keeps the observers and notifies nobody. */
    method Assign(rhs: StrokeText)
      modifies this`uuid, this`layerName, this`text, this`position, this`rotation,
               this`height, this`strokeWidthRatio, this`lineSpacingFactor, this`align, this`mirrored
      ensures Data() == old(rhs.Data())
    {
      uuid := rhs.uuid;
      layerName := rhs.layerName;
      text := rhs.text;
      position := rhs.position;
      rotation := rhs.rotation;
      height := rhs.height;
      strokeWidthRatio := rhs.strokeWidthRatio;
      lineSpacingFactor := rhs.lineSpacingFactor;
      align := rhs.align;
      mirrored := rhs.mirrored;
    }
  }
}
