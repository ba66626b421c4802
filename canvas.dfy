/**
 * The form designer's element model from imgui_canvas.h and
 * imgui_canvas.cpp: clip modes and element types with their names, control
 * points and elements with their selection, hover, visibility and moves,
 * the predefined attribute tables, and the hit mask.
 *
 * Coordinates are `real`: the model does not round as `float` does.
 */
module Canvas {
  import Text

  // ---- clip mode --------------------------------------------------------------------------------

  /** `ImGuiCanvasClip`: `In` has the value 0, `Out` the value 1. */
  datatype Clip = In | Out

  /** `(bool)m_clip`: only `Out`, whose value is 1, converts to true. */
  predicate ClipFlag(clip: Clip)
  {
    clip == Out
  }

  /** `clipToString`: the entry of `IMGUICANVASCLIP_LABELS` at the clip's value. */
  function ClipToString(clip: Clip): (s: string)
    ensures s == "In" || s == "Out"
  {
    if clip == In then "In" else "Out"
  }

  /**
   * `stringToClip`: finds the string among the labels. On success the clip
   * is the label's position; otherwise it is left as it was.
   */
  function StringToClip(s: string, clip: Clip): (r: (bool, Clip))
    ensures r.0 <==> s == "In" || s == "Out"
    ensures r.0 ==> ClipToString(r.1) == s
    ensures !r.0 ==> r.1 == clip
  {
    if s == "In" then (true, In)
    else if s == "Out" then (true, Out)
    else (false, clip)
  }

  /** Every clip survives the trip through its name, whatever the output held before. */
  lemma ClipRoundTrip(clip: Clip, previous: Clip)
    ensures StringToClip(ClipToString(clip), previous) == (true, clip)
  {
  }

  // ---- element type -----------------------------------------------------------------------------

  /** `ImGuiCanvasElementType`, an `enum class : uint8_t`: any byte can be cast to it. */
  newtype ElementType = x: int | 0 <= x < 256

  const TButton: ElementType := 0
  const TLabel: ElementType := 1
  const TEdit: ElementType := 2
  const TMemo: ElementType := 3
  const TToggleBox: ElementType := 4
  const TCheckBox: ElementType := 5
  const COUNT: ElementType := 6

  /** `elementTypeToString`: the type's name below `COUNT`, "Unknown" from `COUNT` up. */
  function ElementTypeToString(t: ElementType): (s: string)
    ensures t >= COUNT <==> s == "Unknown"
    ensures t < COUNT ==> |s| >= 5 && s[0] == 'T'
  {
    if t < COUNT then ["TButton", "TLabel", "TEdit", "TMemo", "TToggleBox", "TCheckBox"][t] else "Unknown"
  }

  /** Different types have different names. */
  lemma ElementTypeNamesDistinct(t: ElementType, u: ElementType)
    requires t < COUNT && u < COUNT && t != u
    ensures ElementTypeToString(t) != ElementTypeToString(u)
  {
    var names := ["TButton", "TLabel", "TEdit", "TMemo", "TToggleBox", "TCheckBox"];
    assert ElementTypeToString(t) == names[t] && ElementTypeToString(u) == names[u];
    assert names[0] != names[1] && names[0] != names[2] && names[0] != names[3] && names[0] != names[4];
    assert names[0] != names[5] && names[1] != names[2] && names[1] != names[3] && names[1] != names[4];
    assert names[1] != names[5] && names[2] != names[3] && names[2] != names[4] && names[2] != names[5];
    assert names[3] != names[4] && names[3] != names[5] && names[4] != names[5];
  }

  /**
   * `stringToElementType`: the lookup is commented out in the source, so it
   * reports failure for every string and never writes its output.
   */
  function StringToElementType(s: string, t: ElementType): (r: (bool, ElementType))
    ensures !r.0 && r.1 == t
  {
    (false, t)
  }

  /** Hence no type name can be read back, not even one `elementTypeToString` produced. */
  lemma ElementTypeNoRoundTrip(t: ElementType, previous: ElementType)
    requires t < COUNT
    ensures StringToElementType(ElementTypeToString(t), previous) != (true, t)
  {
  }

  // ---- colours and vectors ----------------------------------------------------------------------

  datatype Color = Color(r: int, g: int, b: int, a: int)

  const WHITE := Color(255, 255, 255, 255)
  const RED := Color(255, 0, 0, 255)
  const YELLOW := Color(255, 255, 0, 255)

  datatype Vec2 = Vec2(x: real, y: real)

  /** `HANDLE_4`. */
  const HANDLE_4 := Vec2(4.0, 4.0)

  function Add(a: Vec2, b: Vec2): Vec2 { Vec2(a.x + b.x, a.y + b.y) }

  function Sub(a: Vec2, b: Vec2): Vec2 { Vec2(a.x - b.x, a.y - b.y) }

  /** `ImClamp` on one coordinate: `v < lo ? lo : (v > hi ? hi : v)`. */
  function ClampScalar(v: real, lo: real, hi: real): (r: real)
    ensures lo <= hi ==> lo <= r <= hi
    ensures lo <= v <= hi ==> r == v
    ensures v < lo ==> r == lo
  {
    if v < lo then lo else if v > hi then hi else v
  }

  /** `ImClamp` on a vector, coordinate by coordinate. */
  function Clamp(v: Vec2, lo: Vec2, hi: Vec2): Vec2
  {
    Vec2(ClampScalar(v.x, lo.x, hi.x), ClampScalar(v.y, lo.y, hi.y))
  }

  // ---- attributes -------------------------------------------------------------------------------

  /** `ImGuiCanvasAttributeValueType`. */
  datatype ValueType = String | Boolean | Integer | PredefinedAnswerList

  /** `ElementAttribute`. */
  datatype ElementAttribute =
    ElementAttribute(attributeName: string, attributeValue: string, attributeValueType: ValueType, enumTypes: seq<string>)

  /** The three-argument constructor; the value type defaults to `String`. */
  function MakeAttribute(name: string, value: string, valueType: ValueType := String): (a: ElementAttribute)
    ensures a.attributeName == name && a.attributeValue == value
    ensures a.attributeValueType == valueType && a.enumTypes == []
  {
    ElementAttribute(name, value, valueType, [])
  }

  /** The variadic constructor: a list of predefined answers, kept in the order given. */
  function AnswerListAttribute(name: string, value: string, answers: seq<string>): (a: ElementAttribute)
    ensures a.attributeName == name && a.attributeValue == value
    ensures a.attributeValueType == PredefinedAnswerList && a.enumTypes == answers
  {
    ElementAttribute(name, value, PredefinedAnswerList, answers)
  }

  function Bool(name: string, value: string): ElementAttribute { MakeAttribute(name, value, Boolean) }

  function Int(name: string, value: string): ElementAttribute { MakeAttribute(name, value, Integer) }

  /** The attributes `predifineElement` gives a `TButton` (note the source's "FoubleBuffered"). */
  function ButtonAttributes(name: string): (r: seq<ElementAttribute>)
    ensures |r| == 33
    ensures r[7] == MakeAttribute("Caption", name)
  {
    ButtonAttributes1(name) + ButtonAttributes2() + ButtonAttributes3()
  }

  function ButtonAttributes1(name: string): (r: seq<ElementAttribute>)
    ensures |r| == 11 && r[7] == MakeAttribute("Caption", name)
  {
    [ MakeAttribute("Action", ""), MakeAttribute("Align", ""), MakeAttribute("Anchors", ""),
      Bool("AutoSize", ""), MakeAttribute("BidiMode", ""), MakeAttribute("BorderSpacing", ""),
      Bool("Cancel", ""), MakeAttribute("Caption", name), MakeAttribute("Color", ""),
      MakeAttribute("Constraints", ""), MakeAttribute("Cursor", "") ]
  }

  function ButtonAttributes2(): (r: seq<ElementAttribute>)
    ensures |r| == 11
  {
    [ Bool("Default", ""), Bool("FoubleBuffered", "true"), MakeAttribute("DragCursor", ""),
      MakeAttribute("DragKind", ""), MakeAttribute("DragMode", ""), Bool("Enabled", "true"),
      MakeAttribute("Font", ""), MakeAttribute("HelpContext", ""), MakeAttribute("HelpKeyword", ""),
      MakeAttribute("HelpType", ""), MakeAttribute("Hint", "") ]
  }

  function ButtonAttributes3(): (r: seq<ElementAttribute>)
    ensures |r| == 11
  {
    [ MakeAttribute("ModalResult", ""), Bool("ParentBidiMode", "true"), Bool("ParentDoubleBuffered", "true"),
      Bool("ParentFont", "true"), Bool("ParentShowHint", "true"), MakeAttribute("PopupMenu", ""),
      Bool("ShowHint", "true"), Int("TabOrder", ""), Bool("TabStop", "true"),
      Int("Tag", "0"), Bool("Visible", "") ]
  }

  /** The attributes `predifineElement` gives a `TLabel`. */
  function LabelAttributes(name: string): (r: seq<ElementAttribute>)
    ensures |r| == 33
    ensures r[6] == MakeAttribute("Caption", name)
  {
    LabelAttributes1(name) + LabelAttributes2() + LabelAttributes3()
  }

  function LabelAttributes1(name: string): (r: seq<ElementAttribute>)
    ensures |r| == 11 && r[6] == MakeAttribute("Caption", name)
  {
    [ MakeAttribute("Align", ""), MakeAttribute("Alignment", ""), MakeAttribute("Anchors", ""),
      Bool("AutoSize", "true"), MakeAttribute("BidiMode", ""), MakeAttribute("BorderSpacing", ""),
      MakeAttribute("Caption", name), MakeAttribute("Color", ""), MakeAttribute("Constraints", ""),
      MakeAttribute("Cursor", ""), MakeAttribute("DragCursor", "") ]
  }

  function LabelAttributes2(): (r: seq<ElementAttribute>)
    ensures |r| == 11
  {
    [ MakeAttribute("DragKind", ""), MakeAttribute("DragMode", ""), Bool("Enabled", "true"),
      MakeAttribute("FocusControl", ""), MakeAttribute("Font", ""), Int("HelpContext", "0"),
      MakeAttribute("HelpKeyword", ""), MakeAttribute("HelpType", ""), MakeAttribute("Hint", ""),
      MakeAttribute("Layout", ""), Bool("OptimalFill", "") ]
  }

  function LabelAttributes3(): (r: seq<ElementAttribute>)
    ensures |r| == 11
  {
    [ Bool("ParentBidiMode", "true"), Bool("ParentColor", "true"), Bool("ParentFont", "true"),
      Bool("ParentShowHint", "true"), MakeAttribute("Popup", ""), Bool("ShowAccelChar", "true"),
      Bool("ShowHint", ""), Int("Tag", "0"), Bool("Transparent", "true"),
      Bool("Visible", "true"), Bool("WordWrap", "true") ]
  }

  /** The attributes `predifineElement` gives a `TEdit`; they do not depend on the name. */
  function EditAttributes(): (r: seq<ElementAttribute>)
    ensures |r| == 37
  {
    EditAttributes1() + EditAttributes2() + EditAttributes3()
  }

  function EditAttributes1(): (r: seq<ElementAttribute>)
    ensures |r| == 12
  {
    [ MakeAttribute("Align", ""), MakeAttribute("Alignment", ""), MakeAttribute("Anchors", ""),
      Bool("AutoSize", "true"), Bool("AutoSelect", "true"), MakeAttribute("BidiMode", ""),
      MakeAttribute("BorderSpacing", ""), MakeAttribute("BorderStyle", ""), MakeAttribute("CharCase", ""),
      MakeAttribute("Color", ""), MakeAttribute("Constraints", ""), Bool("DoubleBuffered", "true") ]
  }

  function EditAttributes2(): (r: seq<ElementAttribute>)
    ensures |r| == 12
  {
    [ MakeAttribute("DragCursor", ""), MakeAttribute("DragMode", ""), MakeAttribute("EchoMode", ""),
      Bool("Enabled", "true"), MakeAttribute("Font", ""), Int("HelpContext", ""),
      MakeAttribute("HelpKeyword", ""), Bool("HideSelection", "true"), MakeAttribute("Hint", ""),
      Int("MaxLength", ""), Bool("NumbersOnly", ""), Bool("ParentBidiMode", "true") ]
  }

  function EditAttributes3(): (r: seq<ElementAttribute>)
    ensures |r| == 13
  {
    [ Bool("ParentColor", ""), Bool("ParentDoubleBuffered", "true"), Bool("ParentFont", "true"),
      Bool("ParentShowHint", "true"), MakeAttribute("PasswordChar", "#0"), MakeAttribute("PopupMenu", ""),
      Bool("ReadOnly", ""), Bool("ShowHint", ""), Bool("TabStop", ""),
      Int("TabOrder", "0"), MakeAttribute("Text", ""), MakeAttribute("TextHint", ""),
      Bool("Visible", "") ]
  }

  /**
   * The attributes `predifineElement` installs for a type: a table for
   * buttons, labels and edits, none for the other types.
   */
  function PredefinedAttributes(t: ElementType, name: string): (r: seq<ElementAttribute>)
    ensures t == TButton || t == TLabel <==> |r| == 33
    ensures t == TEdit <==> |r| == 37
    ensures t != TButton && t != TLabel && t != TEdit <==> r == []
    ensures t == TButton ==> r[7] == MakeAttribute("Caption", name)
    ensures t == TLabel ==> r[6] == MakeAttribute("Caption", name)
  {
    if t == TButton then ButtonAttributes(name)
    else if t == TLabel then LabelAttributes(name)
    else if t == TEdit then EditAttributes()
    else []
  }

  /** The placeholder-name prefix of each element type. */
  function NamePrefix(t: ElementType): (p: string)
    requires t < COUNT
    ensures p != [] && ElementTypeToString(t) == "T" + p
  {
    ["Button", "Label", "Edit", "Memo", "ToggleBox", "CheckBox"][t]
  }

  /**
   * A placeholder name is the type's prefix followed by a decimal number
   * without leading zeros that reads back as `rand() % 10000 + 1`, which
   * lies in 1..10000.
   */
  lemma PlaceholderName(t: ElementType, randValue: nat)
    requires t < COUNT
    ensures var name := NamePrefix(t) + Text.DecimalString(randValue % 10000 + 1);
      var digits := name[|NamePrefix(t)|..];
      && name[..|NamePrefix(t)|] == NamePrefix(t)
      && digits != [] && digits[0] != '0'
      && (forall i :: 0 <= i < |digits| ==> Text.IsDigit(digits[i]))
      && 1 <= Text.ParseDecimal(digits) <= 10000
      && Text.ParseDecimal(digits) == randValue % 10000 + 1
  {
    var prefix := NamePrefix(t);
    var digits := Text.DecimalString(randValue % 10000 + 1);
    assert (prefix + digits)[|prefix|..] == digits;
    assert (prefix + digits)[..|prefix|] == prefix;
    Text.DecimalRoundTrip(randValue % 10000 + 1);
  }

  // ---- clipping tests ---------------------------------------------------------------------------

  /** Two-argument `applyClip`, on the element's clip: `a > b` for `Out`, `a < b` for `In`. */
  function ApplyClip(clip: Clip, a: real, b: real): (r: bool)
    ensures r ==> a != b
  {
    if ClipFlag(clip) then a > b else a < b
  }

  /** Four-argument `applyClip`: both below for `Out`, either above for `In`. */
  function ApplyClip4(clip: Clip, a1: real, b1: real, a2: real, b2: real): (r: bool)
    ensures clip == Out && r ==> a1 != b1 && a2 != b2
    ensures clip == In && r ==> a1 != b1 || a2 != b2
  {
    if ClipFlag(clip) then a1 < b1 && a2 < b2 else a1 > b1 || a2 > b2
  }

  /** Off the boundary, the two clips disagree on every two-argument test. */
  lemma ApplyClipComplement(a: real, b: real)
    requires a != b
    ensures ApplyClip(In, a, b) != ApplyClip(Out, a, b)
  {
  }

  /** Off both boundaries, the two clips disagree on every four-argument test. */
  lemma ApplyClip4Complement(a1: real, b1: real, a2: real, b2: real)
    requires a1 != b1 && a2 != b2
    ensures ApplyClip4(In, a1, b1, a2, b2) != ApplyClip4(Out, a1, b1, a2, b2)
  {
  }

  // ---- control points ---------------------------------------------------------------------------

  /** `ImGuiCanvasElement::CtrlPoint`. */
  class CtrlPoint {
    var position: Vec2
    var size: Vec2
    var selected: bool
    var hovered: bool
    var color: Color

    constructor (p: Vec2)
      ensures position == p && size == HANDLE_4
      ensures !selected && !hovered && color == WHITE
    {
      position := p;
      size := HANDLE_4;
      selected := false;
      hovered := false;
      color := WHITE;
    }

    method SetSelected(s: bool)
      modifies this
      ensures selected == s && color == (if s then RED else WHITE)
      ensures position == old(position) && size == old(size) && hovered == old(hovered)
    {
      selected := s;
      color := if s then RED else WHITE;
    }

    method SetHovered(h: bool)
      modifies this
      ensures hovered == h && color == (if h then YELLOW else WHITE)
      ensures position == old(position) && size == old(size) && selected == old(selected)
    {
      hovered := h;
      color := if h then YELLOW else WHITE;
    }

    method Move(delta: Vec2)
      modifies this
      ensures position == Add(old(position), delta)
      ensures size == old(size) && selected == old(selected) && hovered == old(hovered) && color == old(color)
    {
      position := Vec2(position.x + delta.x, position.y + delta.y);
    }

    method MoveTo(p: Vec2)
      modifies this
      ensures position == p
      ensures size == old(size) && selected == old(selected) && hovered == old(hovered) && color == old(color)
    {
      position := p;
    }
  }

  // ---- elements ---------------------------------------------------------------------------------

  /** `ImGuiCanvasElement`, with the members the designer's logic uses. */
  class Element {
    var elementLabel: string
    var size: Vec2
    var drawCtrls: bool
    var name: string
    var attributes: seq<ElementAttribute>
    var elementType: ElementType
    var center: CtrlPoint
    var ctrlPoints: seq<CtrlPoint>
    var clip: Clip
    var color: Color
    var selected: bool
    var hovered: bool
    var visible: bool

    /** The centre and the control points are separate objects, as the element holds them by value. */
    ghost predicate Valid()
      reads this
    {
      center !in ctrlPoints && forall i, j :: 0 <= i < j < |ctrlPoints| ==> ctrlPoints[i] != ctrlPoints[j]
    }

    /**
     * The constructor taking the control points themselves; it ends with
     * `predifineElement`, whose `rand()` value is `randValue`.
     */
    constructor (lbl: string, c: Vec2, sz: Vec2, t: ElementType, points: seq<Vec2>, initialClip: Clip,
                 draw: bool, randValue: nat)
      ensures Valid() && fresh(center) && center.position == c && !center.selected && !center.hovered
      ensures center.size == HANDLE_4 && center.color == WHITE
      ensures |ctrlPoints| == |points| && forall i :: 0 <= i < |points| ==> ctrlPoints[i].position == points[i]
      ensures forall i :: 0 <= i < |points| ==> fresh(ctrlPoints[i]) && !ctrlPoints[i].selected && !ctrlPoints[i].hovered
      ensures forall i :: 0 <= i < |points| ==> ctrlPoints[i].size == HANDLE_4 && ctrlPoints[i].color == WHITE
      ensures elementLabel == lbl && size == sz && drawCtrls == draw && elementType == t && clip == initialClip
      ensures !selected && !hovered && visible && color == WHITE
      ensures t < COUNT ==> name == NamePrefix(t) + Text.DecimalString(randValue % 10000 + 1)
      ensures t >= COUNT ==> name == ""
      ensures attributes == PredefinedAttributes(t, name)
    {
      elementLabel := lbl;
      size := sz;
      drawCtrls := draw;
      name := "";
      attributes := [];
      elementType := t;
      var centerPoint := new CtrlPoint(c);
      center := centerPoint;
      clip := initialClip;
      color := WHITE;
      selected := false;
      hovered := false;
      visible := true;
      var created := NewCtrlPoints(points);
      assert centerPoint !in created;
      ctrlPoints := created;
      var predefinedName, predefinedAttributes := Predefined(t, randValue, "");
      name, attributes := predefinedName, predefinedAttributes;
    }

    /** The loop of the constructor: one new control point per given position, in order. */
    static method NewCtrlPoints(points: seq<Vec2>) returns (created: seq<CtrlPoint>)
      ensures |created| == |points|
      ensures forall k :: 0 <= k < |points| ==> fresh(created[k])
      ensures forall k :: 0 <= k < |points| ==>
        created[k].position == points[k] && !created[k].selected && !created[k].hovered
      ensures forall k :: 0 <= k < |points| ==> created[k].size == HANDLE_4 && created[k].color == WHITE
      ensures forall i, j :: 0 <= i < j < |created| ==> created[i] != created[j]
    {
      created := [];
      for i := 0 to |points|
        invariant |created| == i
        invariant forall k :: 0 <= k < i ==> fresh(created[k])
        invariant forall k :: 0 <= k < i ==>
          created[k].position == points[k] && !created[k].selected && !created[k].hovered
        invariant forall k :: 0 <= k < i ==> created[k].size == HANDLE_4 && created[k].color == WHITE
        invariant forall k, l :: 0 <= k < l < i ==> created[k] != created[l]
      {
        var p := new CtrlPoint(points[i]);
        created := created + [p];
      }
    }

    /**
     * The constructors taking two parameters: one control point lies
     * `parameters.0` to the right of the centre, the other `parameters.1` below it.
     */
    constructor WithParameters(lbl: string, c: Vec2, sz: Vec2, t: ElementType, parameters: (real, real),
                               initialClip: Clip, draw: bool, randValue: nat)
      ensures Valid() && fresh(center) && center.position == c && !center.selected && !center.hovered
      ensures center.size == HANDLE_4 && center.color == WHITE
      ensures |ctrlPoints| == 2 && fresh(ctrlPoints[0]) && fresh(ctrlPoints[1])
      ensures ctrlPoints[0].size == HANDLE_4 && ctrlPoints[0].color == WHITE && !ctrlPoints[0].selected && !ctrlPoints[0].hovered
      ensures ctrlPoints[1].size == HANDLE_4 && ctrlPoints[1].color == WHITE && !ctrlPoints[1].selected && !ctrlPoints[1].hovered
      ensures ctrlPoints[0].position == Add(c, Vec2(parameters.0, 0.0))
      ensures ctrlPoints[1].position == Add(c, Vec2(0.0, parameters.1))
      ensures elementLabel == lbl && size == sz && drawCtrls == draw && elementType == t && clip == initialClip
      ensures !selected && !hovered && visible && color == WHITE
      ensures t < COUNT ==> name == NamePrefix(t) + Text.DecimalString(randValue % 10000 + 1)
      ensures t >= COUNT ==> name == ""
      ensures attributes == PredefinedAttributes(t, name)
    {
      elementLabel := lbl;
      size := sz;
      drawCtrls := draw;
      name := "";
      attributes := [];
      elementType := t;
      var centerPoint := new CtrlPoint(c);
      center := centerPoint;
      clip := initialClip;
      color := WHITE;
      selected := false;
      hovered := false;
      visible := true;
      var created := NewCtrlPoints([Add(c, Vec2(parameters.0, 0.0)), Add(c, Vec2(0.0, parameters.1))]);
      assert centerPoint !in created;
      ctrlPoints := created;
      var predefinedName, predefinedAttributes := Predefined(t, randValue, "");
      name, attributes := predefinedName, predefinedAttributes;
    }

    method SetSelected(s: bool)
      modifies this
      ensures selected == s && color == (if s then RED else WHITE)
      ensures hovered == old(hovered) && visible == old(visible)
      ensures center == old(center) && ctrlPoints == old(ctrlPoints) && clip == old(clip)
      ensures name == old(name) && attributes == old(attributes) && elementType == old(elementType)
      ensures elementLabel == old(elementLabel) && size == old(size) && drawCtrls == old(drawCtrls)
    {
      selected := s;
      color := if s then RED else WHITE;
    }

    method SetHovered(h: bool)
      modifies this
      ensures hovered == h && color == (if h then YELLOW else WHITE)
      ensures selected == old(selected) && visible == old(visible)
      ensures center == old(center) && ctrlPoints == old(ctrlPoints) && clip == old(clip)
      ensures name == old(name) && attributes == old(attributes) && elementType == old(elementType)
      ensures elementLabel == old(elementLabel) && size == old(size) && drawCtrls == old(drawCtrls)
    {
      hovered := h;
      color := if h then YELLOW else WHITE;
    }

    /** `setVisible`, whose argument defaults to true. */
    method SetVisible(v: bool := true)
      modifies this
      ensures visible == v
      ensures selected == old(selected) && hovered == old(hovered) && color == old(color)
      ensures center == old(center) && ctrlPoints == old(ctrlPoints) && clip == old(clip)
      ensures name == old(name) && attributes == old(attributes) && elementType == old(elementType)
      ensures elementLabel == old(elementLabel) && size == old(size) && drawCtrls == old(drawCtrls)
    {
      visible := v;
    }

    /**
     * `predifineElement`: the attributes are cleared and refilled from the
     * type's table; known types get a placeholder name made of their prefix
     * and `rand() % 10000 + 1`. `randValue` is what `rand()` returned.
     */
    method PredifineElement(t: ElementType, randValue: nat)
      modifies this
      ensures attributes == PredefinedAttributes(t, name)
      ensures t < COUNT ==> name == NamePrefix(t) + Text.DecimalString(randValue % 10000 + 1)
      ensures t >= COUNT ==> name == old(name)
      ensures elementType == old(elementType) && center == old(center) && ctrlPoints == old(ctrlPoints)
      ensures elementLabel == old(elementLabel) && size == old(size) && drawCtrls == old(drawCtrls)
      ensures clip == old(clip) && color == old(color)
      ensures selected == old(selected) && hovered == old(hovered) && visible == old(visible)
    {
      name, attributes := Predefined(t, randValue, name);
    }

    /** The body of `predifineElement` on the element's current name: the new name and attribute list. */
    static method Predefined(t: ElementType, randValue: nat, currentName: string)
      returns (newName: string, newAttributes: seq<ElementAttribute>)
      ensures newAttributes == PredefinedAttributes(t, newName)
      ensures t < COUNT ==> newName == NamePrefix(t) + Text.DecimalString(randValue % 10000 + 1)
      ensures t >= COUNT ==> newName == currentName
    {
      newName := currentName;
      newAttributes := [];
      var range := 10000 - 1 + 1;
      var randNum := randValue % range + 1;
      if t < COUNT {
        newName := NamePrefix(t) + Text.DecimalString(randNum);
      }
      newAttributes := PredefinedAttributes(t, newName);
    }

    /** `MoveCenter(delta)`: a selected element moves its centre and every control point by `delta`. */
    method MoveCenter(delta: Vec2)
      requires Valid()
      modifies center, ctrlPoints
      ensures !selected ==> center.position == old(center.position)
      ensures !selected ==> forall k :: 0 <= k < |ctrlPoints| ==> ctrlPoints[k].position == old(ctrlPoints[k].position)
      ensures selected ==> center.position == Add(old(center.position), delta)
      ensures selected ==> forall k :: 0 <= k < |ctrlPoints| ==>
        ctrlPoints[k].position == Add(old(ctrlPoints[k].position), delta)
      ensures center.selected == old(center.selected) && center.hovered == old(center.hovered)
      ensures center.color == old(center.color) && center.size == old(center.size)
      ensures forall k :: 0 <= k < |ctrlPoints| ==>
        ctrlPoints[k].selected == old(ctrlPoints[k].selected) && ctrlPoints[k].hovered == old(ctrlPoints[k].hovered)
        && ctrlPoints[k].color == old(ctrlPoints[k].color) && ctrlPoints[k].size == old(ctrlPoints[k].size)
    {
      if selected {
        center.Move(delta);
        MovePoints(delta);
      }
    }

    /**
     * `MoveCenter(delta, canvasSize)`: a selected element moves its centre by
     * `delta`, clamps it to the canvas, and moves every control point by the
     * distance the centre actually travelled.
     */
    method MoveCenterClamped(delta: Vec2, canvasSize: Vec2)
      requires Valid()
      modifies center, ctrlPoints
      ensures !selected ==> center.position == old(center.position)
      ensures !selected ==> forall k :: 0 <= k < |ctrlPoints| ==> ctrlPoints[k].position == old(ctrlPoints[k].position)
      ensures selected ==> center.position == Clamp(Add(old(center.position), delta), Vec2(0.0, 0.0), canvasSize)
      ensures forall k :: 0 <= k < |ctrlPoints| ==>
        ctrlPoints[k].position == Add(old(ctrlPoints[k].position), Sub(center.position, old(center.position)))
      ensures center.selected == old(center.selected) && center.hovered == old(center.hovered)
      ensures center.color == old(center.color) && center.size == old(center.size)
      ensures forall k :: 0 <= k < |ctrlPoints| ==>
        ctrlPoints[k].selected == old(ctrlPoints[k].selected) && ctrlPoints[k].hovered == old(ctrlPoints[k].hovered)
        && ctrlPoints[k].color == old(ctrlPoints[k].color) && ctrlPoints[k].size == old(ctrlPoints[k].size)
    {
      if selected {
        var c := center.position;
        center.Move(delta);
        center.MoveTo(Clamp(center.position, Vec2(0.0, 0.0), canvasSize));
        var d := Sub(center.position, c);
        MovePoints(d);
      } else {
        forall k | 0 <= k < |ctrlPoints|
          ensures ctrlPoints[k].position == Add(old(ctrlPoints[k].position), Sub(center.position, old(center.position)))
        {
          assert Sub(center.position, old(center.position)) == Vec2(0.0, 0.0);
        }
      }
    }

    /** The loop over `m_ctrlPoints` shared by both `MoveCenter` overloads. */
    method MovePoints(delta: Vec2)
      requires Valid()
      modifies ctrlPoints
      ensures forall k :: 0 <= k < |ctrlPoints| ==> ctrlPoints[k].position == Add(old(ctrlPoints[k].position), delta)
      ensures forall k :: 0 <= k < |ctrlPoints| ==>
        ctrlPoints[k].selected == old(ctrlPoints[k].selected) && ctrlPoints[k].hovered == old(ctrlPoints[k].hovered)
        && ctrlPoints[k].color == old(ctrlPoints[k].color) && ctrlPoints[k].size == old(ctrlPoints[k].size)
    {
      for i := 0 to |ctrlPoints|
        invariant forall k :: 0 <= k < i ==> ctrlPoints[k].position == Add(old(ctrlPoints[k].position), delta)
        invariant forall k :: i <= k < |ctrlPoints| ==> ctrlPoints[k].position == old(ctrlPoints[k].position)
        invariant forall k :: 0 <= k < |ctrlPoints| ==>
          ctrlPoints[k].selected == old(ctrlPoints[k].selected) && ctrlPoints[k].hovered == old(ctrlPoints[k].hovered)
          && ctrlPoints[k].color == old(ctrlPoints[k].color) && ctrlPoints[k].size == old(ctrlPoints[k].size)
      {
        ctrlPoints[i].Move(delta);
      }
    }
  }

  /** The clamped move keeps the centre on the canvas and every control point's offset from it. */
  lemma ClampedMoveKeepsShape(oldCenter: Vec2, delta: Vec2, canvasSize: Vec2, oldPoint: Vec2)
    requires canvasSize.x >= 0.0 && canvasSize.y >= 0.0
    ensures var c := Clamp(Add(oldCenter, delta), Vec2(0.0, 0.0), canvasSize);
      && 0.0 <= c.x <= canvasSize.x && 0.0 <= c.y <= canvasSize.y
      && Sub(Add(oldPoint, Sub(c, oldCenter)), c) == Sub(oldPoint, oldCenter)
  {
  }

  // ---- hit mask ---------------------------------------------------------------------------------

  /** Cell `(x, y)` of a `width` x `height` mask stored row by row. */
  function Cell(width: nat, height: nat, x: nat, y: nat): (c: nat)
    requires x < width && y < height
    ensures c < width * height
  {
    CellBound(width, height, x, y);
    x + width * y
  }

  lemma MulMono(w: nat, a: nat, b: nat)
    requires a <= b
    ensures w * a <= w * b
  {
    assert w * b - w * a == w * (b - a);
  }

  lemma CellBound(width: nat, height: nat, x: nat, y: nat)
    requires x < width && y < height
    ensures x + width * y < width * height
  {
    MulMono(width, y, height - 1);
    assert width * (height - 1) == width * height - width;
  }

  /** Distinct points of the canvas have distinct cells. */
  lemma CellInjective(width: nat, height: nat, x: nat, y: nat, x': nat, y': nat)
    requires x < width && x' < width && y < height && y' < height
    requires Cell(width, height, x, y) == Cell(width, height, x', y')
    ensures x == x' && y == y'
  {
    if y < y' {
      assert width * (y + 1) == width * y + width;
      MulMono(width, y + 1, y');
    } else if y' < y {
      assert width * (y' + 1) == width * y' + width;
      MulMono(width, y' + 1, y);
    }
  }

  /** The value the mask loop leaves in a cell after OR-ing in the first `n` shapes. */
  function Covered(shapes: seq<Element>, inside: (nat, nat, nat) -> bool, x: nat, y: nat, n: nat): bool
    requires n <= |shapes|
    reads shapes
  {
    n > 0 && (Covered(shapes, inside, x, y, n - 1) || (shapes[n - 1].visible && inside(n - 1, x, y)))
  }

  /** A cell is covered exactly when some visible shape contains it; invisible shapes never count. */
  lemma {:induction false} CoveredIff(shapes: seq<Element>, inside: (nat, nat, nat) -> bool, x: nat, y: nat, n: nat)
    requires n <= |shapes|
    ensures Covered(shapes, inside, x, y, n) <==> exists k :: 0 <= k < n && shapes[k].visible && inside(k, x, y)
  {
    if n > 0 {
      CoveredIff(shapes, inside, x, y, n - 1);
    }
  }

  function Bit(b: bool): bv8 { if b then 1 else 0 }

  /**
   * `UpdateMask` on a `width` x `height` canvas. `inside(k, x, y)` is shape
   * `k`'s `isInside` at point `(x, y)`.
   */
  method UpdateMask(mask: array<bv8>, width: nat, height: nat, shapes: seq<Element>, inside: (nat, nat, nat) -> bool)
    requires mask.Length >= width * height
    modifies mask
    ensures forall x: nat, y: nat :: x < width && y < height ==>
      mask[Cell(width, height, x, y)] == Bit(Covered(shapes, inside, x, y, |shapes|))
    ensures forall i :: width * height <= i < mask.Length ==> mask[i] == old(mask[i])
  {
    for x := 0 to width
      invariant forall x': nat, y': nat :: x' < x && y' < height ==>
        mask[Cell(width, height, x', y')] == Bit(Covered(shapes, inside, x', y', |shapes|))
      invariant forall i :: width * height <= i < mask.Length ==> mask[i] == old(mask[i])
    {
      for y := 0 to height
        invariant forall x': nat, y': nat :: (x' < x || (x' == x && y' < y)) && y' < height ==>
          mask[Cell(width, height, x', y')] == Bit(Covered(shapes, inside, x', y', |shapes|))
        invariant forall i :: width * height <= i < mask.Length ==> mask[i] == old(mask[i])
      {
        var c := Cell(width, height, x, y);
        FillCell(mask, c, shapes, inside, x, y);
        forall x': nat, y': nat | (x' < x || (x' == x && y' < y)) && y' < height
          ensures Cell(width, height, x', y') != c
        {
          if Cell(width, height, x', y') == c {
            CellInjective(width, height, x, y, x', y');
          }
        }
      }
    }
  }

  /** The innermost loop of `UpdateMask`: one cell is cleared, then OR-ed with each visible shape. */
  method FillCell(mask: array<bv8>, c: nat, shapes: seq<Element>, inside: (nat, nat, nat) -> bool, x: nat, y: nat)
    requires c < mask.Length
    modifies mask
    ensures mask[c] == Bit(Covered(shapes, inside, x, y, |shapes|))
    ensures forall i :: 0 <= i < mask.Length && i != c ==> mask[i] == old(mask[i])
  {
    mask[c] := 0;
    for k := 0 to |shapes|
      invariant mask[c] == Bit(Covered(shapes, inside, x, y, k))
      invariant forall i :: 0 <= i < mask.Length && i != c ==> mask[i] == old(mask[i])
    {
      if !shapes[k].visible {
        continue;
      }
      mask[c] := mask[c] | Bit(inside(k, x, y));
    }
  }
}
