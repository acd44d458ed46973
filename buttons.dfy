/**
 * UI elements and their per-frame updates (src/bnuui/buttons.cpp, the
 * Element class of include/bnuui/bnuui.hpp).
 *
 * The C++ subclasses SquareButton, PlayButton, Box, LongBox and
 * PlayerStatus become one Element class with a `kind` and one named
 * constructor per subclass; doUpdate dispatches on the kind. The
 * onHover/onActive/onUpdate callbacks are code this model cannot see: an
 * element records whether each is set, and doUpdate appends the calls it
 * makes, in order, to `calls`.
 */
module Buttons {
  import opened Common
  import opened Components

  datatype ElementKind = SquareButton | PlayButton | Box | LongBox | PlayerStatus

  /** A callback invocation, as doUpdate makes it. */
  datatype Callback = OnHover | OnActive | OnUpdate(dt: real)

  datatype Color = Color(r: real, g: real, b: real)

  /** The time a PlayerStatus face stays up: ANIMATION_TIME / 1.5. */
  const FACE_TIME: real := ANIMATION_TIME / 1.5

  /** GetNextFaceTexture: NEUTRAL09 wraps to NEUTRAL01; any other texture moves to the next id. */
  function GetNextFaceTexture(t: TextureId): TextureId
  {
    if t == BUNNY_FACE_NEUTRAL09 then BUNNY_FACE_NEUTRAL01 else t + 1
  }

  predicate IsNeutralFace(t: TextureId)
  {
    BUNNY_FACE_NEUTRAL01 <= t <= BUNNY_FACE_NEUTRAL09
  }

  /** The face after n advances. */
  function FaceAfter(t: TextureId, n: nat): TextureId
  {
    if n == 0 then t else GetNextFaceTexture(FaceAfter(t, n - 1))
  }

  /** From a neutral face, n advances land n steps further round the nine-face cycle. */
  lemma {:induction false} FaceAfterCycles(t: TextureId, n: nat)
    requires IsNeutralFace(t)
    ensures FaceAfter(t, n) == BUNNY_FACE_NEUTRAL01 + (t - BUNNY_FACE_NEUTRAL01 + n) % 9
  {
    if n > 0 {
      FaceAfterCycles(t, n - 1);
    }
  }

  /** The neutral faces cycle with period exactly 9, and never leave the neutral range. */
  lemma FaceCycle(t: TextureId)
    requires IsNeutralFace(t)
    ensures FaceAfter(t, 9) == t
    ensures forall n: nat :: 0 < n < 9 ==> FaceAfter(t, n) != t
    ensures forall n: nat :: IsNeutralFace(FaceAfter(t, n))
  {
    FaceAfterCycles(t, 9);
    forall n: nat ensures IsNeutralFace(FaceAfter(t, n)) && (0 < n < 9 ==> FaceAfter(t, n) != t) {
      FaceAfterCycles(t, n);
    }
  }

  /** The callbacks a button's doUpdate fires: onHover, onActive, then onUpdate, each only if set. */
  function ButtonCalls(hoverFires: bool, activeFires: bool, updateSet: bool, dt: real): seq<Callback>
  {
    (if hoverFires then [OnHover] else []) + (if activeFires then [OnActive] else []) +
    (if updateSet then [OnUpdate(dt)] else [])
  }

  /** The part of an element's state doUpdate changes. */
  datatype Dynamics = Dynamics(texture: TextureId, timeMs: real, calls: seq<Callback>)

  class Element {
    const kind: ElementKind
    var position: Vec2
    var scale: Vec2
    var rotation: real
    var offset: Vec2
    var color: Color
    var texture: TextureId
    var effect: Effect
    var geometry: Geometry
    var visible: bool
    var hovering: bool
    var active: bool
    var timeMs: real
    var hasOnHover: bool
    var hasOnActive: bool
    var hasOnUpdate: bool
    var calls: seq<Callback>
    var children: seq<Element>

    /** The decoration every constructor of buttons.cpp applies. */
    ghost predicate Decorated(pos: Vec2, sc: Vec2, rot: real)
      reads this
    {
      position == pos && scale == sc && rotation == rot && offset == Vec2(0.0, 0.0) &&
      color == Color(1.0, 1.0, 1.0) && effect == TEXTURED && geometry == SPRITE && visible
    }

    constructor SquareButton(pos: Vec2, sc: Vec2, rot: real)
      ensures kind == ElementKind.SquareButton && Decorated(pos, sc, rot) && texture == SQUARE_3_NORMAL
      ensures children == [] && calls == [] && !hovering && !active
    {
      kind := ElementKind.SquareButton;
      position, scale, rotation := pos, sc, rot;
      offset, color := Vec2(0.0, 0.0), Color(1.0, 1.0, 1.0);
      texture, effect, geometry, visible := SQUARE_3_NORMAL, TEXTURED, SPRITE, true;
      hovering, active, timeMs := false, false, 0.0;
      hasOnHover, hasOnActive, hasOnUpdate := false, false, false;
      calls, children := [], [];
    }

    constructor PlayButton(pos: Vec2, sc: Vec2, rot: real)
      ensures kind == ElementKind.PlayButton && Decorated(pos, sc, rot) && texture == PLAY_BUTTON_NORMAL
      ensures children == [] && calls == [] && !hovering && !active
    {
      kind := ElementKind.PlayButton;
      position, scale, rotation := pos, sc, rot;
      offset, color := Vec2(0.0, 0.0), Color(1.0, 1.0, 1.0);
      texture, effect, geometry, visible := PLAY_BUTTON_NORMAL, TEXTURED, SPRITE, true;
      hovering, active, timeMs := false, false, 0.0;
      hasOnHover, hasOnActive, hasOnUpdate := false, false, false;
      calls, children := [], [];
    }

    constructor Box(pos: Vec2, sc: Vec2, rot: real)
      ensures kind == ElementKind.Box && Decorated(pos, sc, rot) && texture == SQUARE_3_NORMAL
      ensures children == [] && calls == [] && !hovering && !active
    {
      kind := ElementKind.Box;
      position, scale, rotation := pos, sc, rot;
      offset, color := Vec2(0.0, 0.0), Color(1.0, 1.0, 1.0);
      texture, effect, geometry, visible := SQUARE_3_NORMAL, TEXTURED, SPRITE, true;
      hovering, active, timeMs := false, false, 0.0;
      hasOnHover, hasOnActive, hasOnUpdate := false, false, false;
      calls, children := [], [];
    }

    constructor LongBox(pos: Vec2, sc: Vec2, rot: real)
      ensures kind == ElementKind.LongBox && Decorated(pos, sc, rot) && texture == LONG_BOX
      ensures children == [] && calls == [] && !hovering && !active
    {
      kind := ElementKind.LongBox;
      position, scale, rotation := pos, sc, rot;
      offset, color := Vec2(0.0, 0.0), Color(1.0, 1.0, 1.0);
      texture, effect, geometry, visible := LONG_BOX, TEXTURED, SPRITE, true;
      hovering, active, timeMs := false, false, 0.0;
      hasOnHover, hasOnActive, hasOnUpdate := false, false, false;
      calls, children := [], [];
    }

    /** The health face; the C++ constructor also keeps a reference to the health value, which no update reads. */
    constructor PlayerStatus(pos: Vec2, sc: Vec2, rot: real)
      ensures kind == ElementKind.PlayerStatus && Decorated(pos, sc, rot) && texture == BUNNY_FACE_NEUTRAL01
      ensures children == [] && calls == [] && timeMs == 0.0
    {
      kind := ElementKind.PlayerStatus;
      position, scale, rotation := pos, sc, rot;
      offset, color := Vec2(0.0, 0.0), Color(1.0, 1.0, 1.0);
      texture, effect, geometry, visible := BUNNY_FACE_NEUTRAL01, TEXTURED, SPRITE, true;
      hovering, active, timeMs := false, false, 0.0;
      hasOnHover, hasOnActive, hasOnUpdate := false, false, false;
      calls, children := [], [];
    }

    /** SquareButton::doUpdate: clicked beats hover beats normal. */
    method UpdateSquareButton(dt: real)
      modifies this`texture, this`calls
      ensures texture == (if active then SQUARE_3_CLICKED else if hovering then SQUARE_3_HOVER else SQUARE_3_NORMAL)
      ensures calls == old(calls) + ButtonCalls(hovering && hasOnHover, active && hasOnActive, hasOnUpdate, dt)
    {
      var fired: seq<Callback> := [];
      if hovering {
        texture := SQUARE_3_HOVER;
        if hasOnHover { fired := fired + [OnHover]; }
      }
      if active {
        texture := SQUARE_3_CLICKED;
        if hasOnActive { fired := fired + [OnActive]; }
      }
      if !hovering && !active {
        texture := SQUARE_3_NORMAL;
      }
      if hasOnUpdate { fired := fired + [OnUpdate(dt)]; }
      calls := calls + fired;
    }

    /** PlayButton::doUpdate: hovering alone keeps whatever texture the button had. */
    method UpdatePlayButton(dt: real)
      modifies this`texture, this`calls
      ensures texture == (if active then PLAY_BUTTON_CLICKED else if hovering then old(texture) else PLAY_BUTTON_NORMAL)
      ensures calls == old(calls) + ButtonCalls(hovering && hasOnHover, active && hasOnActive, hasOnUpdate, dt)
    {
      var fired: seq<Callback> := [];
      if hovering && hasOnHover { fired := fired + [OnHover]; }
      if active {
        texture := PLAY_BUTTON_CLICKED;
        if hasOnActive { fired := fired + [OnActive]; }
      }
      if !hovering && !active {
        texture := PLAY_BUTTON_NORMAL;
      }
      if hasOnUpdate { fired := fired + [OnUpdate(dt)]; }
      calls := calls + fired;
    }

    /** Box::doUpdate and LongBox::doUpdate: only the callbacks, never the texture. */
    method UpdateBox(dt: real)
      modifies this`calls
      ensures calls == old(calls) + ButtonCalls(hovering && hasOnHover, active && hasOnActive, hasOnUpdate, dt)
    {
      var fired: seq<Callback> := [];
      if hovering && hasOnHover { fired := fired + [OnHover]; }
      if active && hasOnActive { fired := fired + [OnActive]; }
      if hasOnUpdate { fired := fired + [OnUpdate(dt)]; }
      calls := calls + fired;
    }

    /** PlayerStatus::doUpdate: an expired timer shows the next face and restarts; dt is always taken off. */
    method UpdateFace(dt: real)
      modifies this`texture, this`timeMs
      ensures texture == (if old(timeMs) <= 0.0 then GetNextFaceTexture(old(texture)) else old(texture))
      ensures timeMs == (if old(timeMs) <= 0.0 then FACE_TIME else old(timeMs)) - dt
      ensures IsNeutralFace(old(texture)) ==> IsNeutralFace(texture)
    {
      if timeMs <= 0.0 {
        texture := GetNextFaceTexture(texture);
        timeMs := FACE_TIME;
      }
      timeMs := timeMs - dt;
    }

    /** The texture, timer and callback record doUpdate leaves, by the element's class, from the current state. */
    function Updated(dt: real): Dynamics
      reads this
    {
      match kind
      case SquareButton =>
        Dynamics(if active then SQUARE_3_CLICKED else if hovering then SQUARE_3_HOVER else SQUARE_3_NORMAL,
                 timeMs, calls + ButtonCalls(hovering && hasOnHover, active && hasOnActive, hasOnUpdate, dt))
      case PlayButton =>
        Dynamics(if active then PLAY_BUTTON_CLICKED else if hovering then texture else PLAY_BUTTON_NORMAL,
                 timeMs, calls + ButtonCalls(hovering && hasOnHover, active && hasOnActive, hasOnUpdate, dt))
      case Box => Dynamics(texture, timeMs, calls + ButtonCalls(hovering && hasOnHover, active && hasOnActive, hasOnUpdate, dt))
      case LongBox => Dynamics(texture, timeMs, calls + ButtonCalls(hovering && hasOnHover, active && hasOnActive, hasOnUpdate, dt))
      case PlayerStatus =>
        Dynamics(if timeMs <= 0.0 then GetNextFaceTexture(texture) else texture,
                 (if timeMs <= 0.0 then FACE_TIME else timeMs) - dt, calls)
    }

    /** The element is in the state its doUpdate leaves from the old state. */
    twostate predicate DidUpdate(dt: real)
      reads this
    {
      Dynamics(texture, timeMs, calls) == old(Updated(dt))
    }

    /** doUpdate of the element's class; the call is appended to the ghost trace of calls. */
    method DoUpdate(dt: real, ghost trace: seq<Element>) returns (ghost trace': seq<Element>)
      modifies this`texture, this`timeMs, this`calls
      ensures trace' == trace + [this]
      ensures DidUpdate(dt)
      ensures kind == ElementKind.SquareButton ==>
                texture == (if active then SQUARE_3_CLICKED else if hovering then SQUARE_3_HOVER else SQUARE_3_NORMAL)
      ensures kind == ElementKind.PlayButton ==>
                texture == (if active then PLAY_BUTTON_CLICKED else if hovering then old(texture) else PLAY_BUTTON_NORMAL)
      ensures kind == ElementKind.Box || kind == ElementKind.LongBox ==> texture == old(texture)
      ensures kind != ElementKind.PlayerStatus ==>
                timeMs == old(timeMs) &&
                calls == old(calls) + ButtonCalls(hovering && hasOnHover, active && hasOnActive, hasOnUpdate, dt)
      ensures kind == ElementKind.PlayerStatus ==>
                texture == (if old(timeMs) <= 0.0 then GetNextFaceTexture(old(texture)) else old(texture)) &&
                timeMs == (if old(timeMs) <= 0.0 then FACE_TIME else old(timeMs)) - dt &&
                calls == old(calls)
      ensures kind == ElementKind.PlayerStatus && IsNeutralFace(old(texture)) ==> IsNeutralFace(texture)
    {
      match kind {
        case SquareButton => UpdateSquareButton(dt);
        case PlayButton => UpdatePlayButton(dt);
        case Box => UpdateBox(dt);
        case LongBox => UpdateBox(dt);
        case PlayerStatus => UpdateFace(dt);
      }
      trace' := trace + [this];
    }
  }
}
