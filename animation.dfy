/**
 * The animation system (src/animation_system.cpp): classification of the
 * bunny sprite frames, the first and next frame of the player's two-frame
 * animations, the per-frame player animation update over the registry, and
 * the arrival of a freed bunny on the ship.
 *
 * The sixteen player frames are laid out in the texture enumeration as
 * idle UP0, UP1, RIGHT0, RIGHT1, DOWN0, DOWN1, LEFT0, LEFT1 followed by the
 * walking frames in the same order, so the direction of frame t is
 * DirectionAt((t % 8) / 2) and its frame number is t % 2; the lemmas below
 * use that layout as the independent reference for the switch statements.
 */
module Animation {
  import opened Wrappers
  import opened Common
  import opened Components
  import opened Registry

  /** The directions in enumeration order. */
  function DirectionAt(k: int): Direction
  {
    if k == 0 then UP else if k == 1 then RIGHT else if k == 2 then DOWN else LEFT
  }

  /** isIdleAnim: one of the eight BUNNY_IDLE_* frames. */
  function IsIdleAnim(t: TextureId): (r: bool)
    ensures r <==> BUNNY_IDLE_UP0 <= t <= BUNNY_IDLE_LEFT1
  {
    t == BUNNY_IDLE_UP0 || t == BUNNY_IDLE_UP1 || t == BUNNY_IDLE_DOWN0 || t == BUNNY_IDLE_DOWN1 ||
    t == BUNNY_IDLE_LEFT0 || t == BUNNY_IDLE_LEFT1 || t == BUNNY_IDLE_RIGHT0 || t == BUNNY_IDLE_RIGHT1
  }

  /** isWalkAnim: one of the eight BUNNY_*_WALK* frames. */
  function IsWalkAnim(t: TextureId): (r: bool)
    ensures r <==> BUNNY_UP_WALK0 <= t <= BUNNY_LEFT_WALK1
  {
    t == BUNNY_UP_WALK0 || t == BUNNY_UP_WALK1 || t == BUNNY_RIGHT_WALK0 || t == BUNNY_RIGHT_WALK1 ||
    t == BUNNY_DOWN_WALK0 || t == BUNNY_DOWN_WALK1 || t == BUNNY_LEFT_WALK0 || t == BUNNY_LEFT_WALK1
  }

  /** No frame is both an idle and a walking frame. */
  lemma IdleWalkDisjoint(t: TextureId)
    ensures !(IsIdleAnim(t) && IsWalkAnim(t))
  {
  }

  /** getAnimDirection: the direction named in a bunny frame, DOWN for any other texture. */
  function GetAnimDirection(t: TextureId): (r: Direction)
    ensures IsIdleAnim(t) || IsWalkAnim(t) ==> r == DirectionAt((t % 8) / 2)
    ensures !IsIdleAnim(t) && !IsWalkAnim(t) ==> r == DOWN
  {
    if t == BUNNY_IDLE_UP0 || t == BUNNY_IDLE_UP1 || t == BUNNY_UP_WALK0 || t == BUNNY_UP_WALK1 then UP
    else if t == BUNNY_IDLE_RIGHT0 || t == BUNNY_IDLE_RIGHT1 || t == BUNNY_RIGHT_WALK0 || t == BUNNY_RIGHT_WALK1 then RIGHT
    else if t == BUNNY_IDLE_DOWN0 || t == BUNNY_IDLE_DOWN1 || t == BUNNY_DOWN_WALK0 || t == BUNNY_DOWN_WALK1 then DOWN
    else if t == BUNNY_IDLE_LEFT0 || t == BUNNY_IDLE_LEFT1 || t == BUNNY_LEFT_WALK0 || t == BUNNY_LEFT_WALK1 then LEFT
    else DOWN
  }

  /** The frame set a player in this state is expected to show (IDLE and WALKING only). */
  predicate InStateSet(p: Player, t: TextureId)
  {
    (p.state == IDLE && IsIdleAnim(t)) || (p.state == WALKING && IsWalkAnim(t))
  }

  /**
   * GetFirstPlayerAnimation: frame 0 of the idle or walking set facing the
   * player's direction; BUNNY_IDLE_DOWN0 for any other state.
   */
  function GetFirstPlayerAnimation(p: Player): (r: TextureId)
    ensures p.state == IDLE || p.state == WALKING ==>
              InStateSet(p, r) && GetAnimDirection(r) == p.direction && r % 2 == 0
    ensures p.state != IDLE && p.state != WALKING ==> r == BUNNY_IDLE_DOWN0
  {
    if p.state == IDLE then
      match p.direction
      case UP => BUNNY_IDLE_UP0
      case RIGHT => BUNNY_IDLE_RIGHT0
      case DOWN => BUNNY_IDLE_DOWN0
      case LEFT => BUNNY_IDLE_LEFT0
    else if p.state == WALKING then
      match p.direction
      case UP => BUNNY_UP_WALK0
      case RIGHT => BUNNY_RIGHT_WALK0
      case DOWN => BUNNY_DOWN_WALK0
      case LEFT => BUNNY_LEFT_WALK0
    else BUNNY_IDLE_DOWN0
  }

  /**
   * GetNextPlayerAnimation: on a frame of the player's state set, the other
   * frame of the same direction; on a state/frame mismatch (or any state
   * other than IDLE and WALKING) BUNNY_IDLE_DOWN0.
   */
  function GetNextPlayerAnimation(t: TextureId, p: Player): (r: TextureId)
    ensures InStateSet(p, t) ==>
              InStateSet(p, r) && GetAnimDirection(r) == GetAnimDirection(t) && r != t
    ensures !InStateSet(p, t) ==> r == BUNNY_IDLE_DOWN0
  {
    if p.state == IDLE && t == BUNNY_IDLE_DOWN0 then BUNNY_IDLE_DOWN1
    else if p.state == IDLE && t == BUNNY_IDLE_DOWN1 then BUNNY_IDLE_DOWN0
    else if p.state == IDLE && t == BUNNY_IDLE_UP0 then BUNNY_IDLE_UP1
    else if p.state == IDLE && t == BUNNY_IDLE_UP1 then BUNNY_IDLE_UP0
    else if p.state == IDLE && t == BUNNY_IDLE_RIGHT0 then BUNNY_IDLE_RIGHT1
    else if p.state == IDLE && t == BUNNY_IDLE_RIGHT1 then BUNNY_IDLE_RIGHT0
    else if p.state == IDLE && t == BUNNY_IDLE_LEFT0 then BUNNY_IDLE_LEFT1
    else if p.state == IDLE && t == BUNNY_IDLE_LEFT1 then BUNNY_IDLE_LEFT0
    else if p.state == WALKING && t == BUNNY_DOWN_WALK0 then BUNNY_DOWN_WALK1
    else if p.state == WALKING && t == BUNNY_DOWN_WALK1 then BUNNY_DOWN_WALK0
    else if p.state == WALKING && t == BUNNY_UP_WALK0 then BUNNY_UP_WALK1
    else if p.state == WALKING && t == BUNNY_UP_WALK1 then BUNNY_UP_WALK0
    else if p.state == WALKING && t == BUNNY_RIGHT_WALK0 then BUNNY_RIGHT_WALK1
    else if p.state == WALKING && t == BUNNY_RIGHT_WALK1 then BUNNY_RIGHT_WALK0
    else if p.state == WALKING && t == BUNNY_LEFT_WALK0 then BUNNY_LEFT_WALK1
    else if p.state == WALKING && t == BUNNY_LEFT_WALK1 then BUNNY_LEFT_WALK0
    else BUNNY_IDLE_DOWN0
  }

  /** Toggling twice gives the frame back. */
  lemma NextPlayerAnimationTwice(t: TextureId, p: Player)
    requires InStateSet(p, t)
    ensures GetNextPlayerAnimation(GetNextPlayerAnimation(t, p), p) == t
  {
  }

  /** The condition under which HandlePlayerAnimation restarts the animation and returns. */
  predicate Mismatch(p: Player, t: TextureId)
  {
    (p.state == IDLE && !IsIdleAnim(t)) || (p.state == WALKING && !IsWalkAnim(t)) || p.direction != GetAnimDirection(t)
  }

  /**
   * The first frame is accepted on the next update exactly when the player is
   * IDLE or WALKING, or faces DOWN: a STATIONING or BUILDING player facing
   * elsewhere is reset (and the update cut short) on every frame.
   */
  lemma FirstFrameAccepted(p: Player)
    ensures !Mismatch(p, GetFirstPlayerAnimation(p)) <==>
            (p.state == IDLE || p.state == WALKING || p.direction == DOWN)
  {
  }

  /** Advancing an accepted frame of an IDLE or WALKING player gives an accepted frame. */
  lemma NextFrameAccepted(p: Player, t: TextureId)
    requires p.state == IDLE || p.state == WALKING
    requires !Mismatch(p, t)
    ensures !Mismatch(p, GetNextPlayerAnimation(t, p))
  {
  }

  // ---- HandlePlayerAnimation over the registry ----

  /** The int timer_ms set from the float ANIMATION_TIME. */
  function AnimationTimeMs(): (r: int)
    ensures r as real == ANIMATION_TIME
  {
    Trunc(ANIMATION_TIME)
  }

  function SetAnimation(s: Store, e: Entity, a: PlayerAnimation): Store
  {
    Set(s, PlayerAnimations, e, AnimationC(a))
  }

  function SetTexture(s: Store, e: Entity, t: TextureId): Store
  {
    Set(s, RenderRequests, e, RenderC(RenderRequest(t)))
  }

  /**
   * One iteration of HandlePlayerAnimation on entity e: the new store, and
   * whether the function returns early. An entity lacking its player or
   * animation component is passed over.
   */
  function PlayerAnimStep(s: Store, e: Entity, elapsedMs: real): (r: (Store, bool))
    ensures forall id :: id != PlayerAnimations && id != RenderRequests ==> Slot(r.0, id) == Slot(s, id)
    ensures r.1 <==> GetPlayer(s, e).Some? && GetAnimation(s, e).Some? &&
                     Mismatch(GetPlayer(s, e).value, GetAnimation(s, e).value.currAnim)
  {
    match (GetPlayer(s, e), GetAnimation(s, e))
    case (Some(p), Some(a)) =>
      if Mismatch(p, a.currAnim) then
        var t := GetFirstPlayerAnimation(p);
        (SetTexture(SetAnimation(s, e, PlayerAnimation(t, AnimationTimeMs())), e, t), true)
      else if a.timerMs <= 0 then
        var t := GetNextPlayerAnimation(a.currAnim, p);
        (SetTexture(SetAnimation(s, e, PlayerAnimation(t, AnimationTimeMs())), e, t), false)
      else
        (SetAnimation(s, e, PlayerAnimation(a.currAnim, SubTrunc(a.timerMs, elapsedMs))), false)
    case _ => (s, false)
  }

  /** The loop of HandlePlayerAnimation over the entities es, stopping after the first reset. */
  function PlayerAnimFold(s: Store, es: seq<Entity>, elapsedMs: real): Store
    decreases |es|
  {
    if es == [] then s
    else
      var r := PlayerAnimStep(s, es[0], elapsedMs);
      if r.1 then r.0 else PlayerAnimFold(r.0, es[1..], elapsedMs)
  }

  /** Reading e's animation and texture after a write to both. */
  lemma ReadBackAnimation(s: Store, e: Entity, a: PlayerAnimation, t: TextureId)
    requires Has(s, PlayerAnimations, e)
    ensures GetAnimation(SetAnimation(s, e, a), e) == Some(a)
    ensures GetAnimation(SetTexture(SetAnimation(s, e, a), e, t), e) == Some(a)
    ensures Has(s, RenderRequests, e) ==> GetRender(SetTexture(SetAnimation(s, e, a), e, t), e) == Some(RenderRequest(t))
  {
    GetAfterSet(s, PlayerAnimations, e, AnimationC(a), PlayerAnimations, e);
    var s1 := SetAnimation(s, e, a);
    GetAfterSet(s1, RenderRequests, e, RenderC(RenderRequest(t)), PlayerAnimations, e);
    GetAfterSet(s1, RenderRequests, e, RenderC(RenderRequest(t)), RenderRequests, e);
  }

  /**
   * On a state or direction mismatch the animation restarts at the first
   * frame with a full timer, the texture follows, and the rest of the
   * entities are not visited.
   */
  lemma MismatchRestartsAndReturns(s: Store, e: Entity, rest: seq<Entity>, elapsedMs: real, p: Player, a: PlayerAnimation)
    requires GetPlayer(s, e) == Some(p) && GetAnimation(s, e) == Some(a)
    requires Mismatch(p, a.currAnim)
    ensures var s' := PlayerAnimFold(s, [e] + rest, elapsedMs);
            GetAnimation(s', e) == Some(PlayerAnimation(GetFirstPlayerAnimation(p), 250)) &&
            (Has(s, RenderRequests, e) ==> GetRender(s', e) == Some(RenderRequest(GetFirstPlayerAnimation(p)))) &&
            s' == PlayerAnimStep(s, e, elapsedMs).0
  {
    ReadBackAnimation(s, e, PlayerAnimation(GetFirstPlayerAnimation(p), AnimationTimeMs()), GetFirstPlayerAnimation(p));
  }

  /** With an accepted frame and an expired timer the frame advances and the timer restarts. */
  lemma ExpiredTimerAdvances(s: Store, e: Entity, elapsedMs: real, p: Player, a: PlayerAnimation)
    requires GetPlayer(s, e) == Some(p) && GetAnimation(s, e) == Some(a)
    requires !Mismatch(p, a.currAnim) && a.timerMs <= 0
    ensures var r := PlayerAnimStep(s, e, elapsedMs);
            !r.1 &&
            GetAnimation(r.0, e) == Some(PlayerAnimation(GetNextPlayerAnimation(a.currAnim, p), 250)) &&
            (Has(s, RenderRequests, e) ==> GetRender(r.0, e) == Some(RenderRequest(GetNextPlayerAnimation(a.currAnim, p))))
  {
    ReadBackAnimation(s, e, PlayerAnimation(GetNextPlayerAnimation(a.currAnim, p), AnimationTimeMs()), GetNextPlayerAnimation(a.currAnim, p));
  }

  /** With an accepted frame and time left only the timer moves, by elapsed_ms truncated to int. */
  lemma RunningTimerCountsDown(s: Store, e: Entity, elapsedMs: real, p: Player, a: PlayerAnimation)
    requires GetPlayer(s, e) == Some(p) && GetAnimation(s, e) == Some(a)
    requires !Mismatch(p, a.currAnim) && a.timerMs > 0
    ensures var r := PlayerAnimStep(s, e, elapsedMs);
            !r.1 &&
            GetAnimation(r.0, e) == Some(PlayerAnimation(a.currAnim, SubTrunc(a.timerMs, elapsedMs))) &&
            Slot(r.0, RenderRequests) == Slot(s, RenderRequests)
  {
    ReadBackAnimation(s, e, PlayerAnimation(a.currAnim, SubTrunc(a.timerMs, elapsedMs)), 0);
  }

  /** Entities the loop never reaches keep their animation and texture; other containers are untouched. */
  lemma {:induction false} PlayerAnimFoldFrame(s: Store, es: seq<Entity>, elapsedMs: real, x: Entity)
    requires x !in es
    ensures Get(PlayerAnimFold(s, es, elapsedMs), PlayerAnimations, x) == Get(s, PlayerAnimations, x)
    ensures Get(PlayerAnimFold(s, es, elapsedMs), RenderRequests, x) == Get(s, RenderRequests, x)
    ensures forall id :: id != PlayerAnimations && id != RenderRequests ==>
              Slot(PlayerAnimFold(s, es, elapsedMs), id) == Slot(s, id)
    decreases |es|
  {
    if es != [] {
      var e := es[0];
      var r := PlayerAnimStep(s, e, elapsedMs);
      StepFrame(s, e, elapsedMs, x);
      if !r.1 {
        PlayerAnimFoldFrame(r.0, es[1..], elapsedMs, x);
      }
    }
  }

  /** One step changes only entity e's animation and texture. */
  lemma StepFrame(s: Store, e: Entity, elapsedMs: real, x: Entity)
    requires x != e
    ensures Get(PlayerAnimStep(s, e, elapsedMs).0, PlayerAnimations, x) == Get(s, PlayerAnimations, x)
    ensures Get(PlayerAnimStep(s, e, elapsedMs).0, RenderRequests, x) == Get(s, RenderRequests, x)
  {
    match (GetPlayer(s, e), GetAnimation(s, e))
    case (Some(p), Some(a)) =>
      var t := if Mismatch(p, a.currAnim) then GetFirstPlayerAnimation(p) else GetNextPlayerAnimation(a.currAnim, p);
      var a' := if Mismatch(p, a.currAnim) || a.timerMs <= 0 then PlayerAnimation(t, AnimationTimeMs())
                else PlayerAnimation(a.currAnim, SubTrunc(a.timerMs, elapsedMs));
      GetAfterSet(s, PlayerAnimations, e, AnimationC(a'), PlayerAnimations, x);
      GetAfterSet(s, PlayerAnimations, e, AnimationC(a'), RenderRequests, x);
      var s1 := SetAnimation(s, e, a');
      GetAfterSet(s1, RenderRequests, e, RenderC(RenderRequest(t)), PlayerAnimations, x);
      GetAfterSet(s1, RenderRequests, e, RenderC(RenderRequest(t)), RenderRequests, x);
    case _ =>
  }

  /**
   * HandlePlayerAnimation: visit the entities of the player-animation
   * container in order; a mismatch resets that entity and ends the update.
   */
  method HandlePlayerAnimation(reg: ECSRegistry, elapsedMs: real)
    modifies reg
    ensures reg.registryList == old(reg.registryList)
    ensures reg.store == PlayerAnimFold(old(reg.store), Entities(Slot(old(reg.store), PlayerAnimations)), elapsedMs)
  {
    var es := Entities(Slot(reg.store, PlayerAnimations));
    var i := 0;
    while i < |es|
      invariant 0 <= i <= |es|
      invariant reg.registryList == old(reg.registryList)
      invariant PlayerAnimFold(reg.store, es[i..], elapsedMs) == PlayerAnimFold(old(reg.store), es, elapsedMs)
    {
      assert es[i..][1..] == es[i + 1..];
      var e := es[i];
      var player := GetPlayer(reg.store, e);
      var anim := GetAnimation(reg.store, e);
      if player.Some? && anim.Some? {
        var p, a := player.value, anim.value;
        if Mismatch(p, a.currAnim) {
          var t := GetFirstPlayerAnimation(p);
          reg.store := SetTexture(SetAnimation(reg.store, e, PlayerAnimation(t, AnimationTimeMs())), e, t);
          return;
        }
        if a.timerMs <= 0 {
          var t := GetNextPlayerAnimation(a.currAnim, p);
          reg.store := SetTexture(SetAnimation(reg.store, e, PlayerAnimation(t, AnimationTimeMs())), e, t);
        } else {
          reg.store := SetAnimation(reg.store, e, PlayerAnimation(a.currAnim, SubTrunc(a.timerMs, elapsedMs)));
        }
      }
      i := i + 1;
    }
  }

  // ---- HandleBunnyAnimation: the freed bunny reaching the ship ----

  /** std::round on a float: to the nearest integer, halves away from zero. */
  function Round(x: real): (r: int)
    ensures x - 0.5 <= r as real <= x + 0.5
    ensures x >= 0.0 ==> r as real > x - 0.5
    ensures x < 0.0 ==> r as real < x + 0.5
  {
    if x >= 0.0 then (x + 0.5).Floor else -((-x + 0.5).Floor)
  }

  /** The rounded position is the hard-coded empty ship tile (364, 252). */
  predicate AtDropTile(pos: Vec2)
  {
    Round(pos.x) == 364 && Round(pos.y) == 252
  }

  /** A bunny the animation leaves alone: still jailed, or already on the ship. */
  predicate Settled(b: Bunny)
  {
    b.isJailed || b.onShip
  }

  function SetBunny(s: Store, e: Entity, b: Bunny): Store
  {
    Set(s, Bunnies, e, BunnyC(b))
  }

  function SetMotion(s: Store, e: Entity, m: Motion): Store
  {
    Set(s, Motions, e, MotionC(m))
  }

  /**
   * One iteration of HandleBunnyAnimation. A freed bunny not yet on the
   * ship is steered toward the drop tile (`towardShip` is the C++
   * floating-point unit vector times 100) until its rounded position is the
   * tile; then it leaves the island, boards the ship and stops.
   */
  function BunnyArrivalStep(s: Store, e: Entity, towardShip: Vec2 -> Vec2): (r: Store)
    ensures forall id :: id != Bunnies && id != Motions ==> Slot(r, id) == Slot(s, id)
  {
    match (GetBunny(s, e), GetMotion(s, e))
    case (Some(b), Some(m)) =>
      if !b.isJailed && !b.onShip then
        if !AtDropTile(m.position) then SetMotion(s, e, m.(velocity := towardShip(m.position)))
        else SetMotion(SetBunny(s, e, b.(onIsland := false, onShip := true)), e, m.(velocity := Vec2(0.0, 0.0)))
      else s
    case _ => s
  }

  function BunnyArrivalFold(s: Store, es: seq<Entity>, towardShip: Vec2 -> Vec2): Store
    decreases |es|
  {
    if es == [] then s else BunnyArrivalFold(BunnyArrivalStep(s, es[0], towardShip), es[1..], towardShip)
  }

  /** A freed bunny at the drop tile ends up on the ship, off the island, with zero velocity. */
  lemma BunnyArrives(s: Store, e: Entity, towardShip: Vec2 -> Vec2, b: Bunny, m: Motion)
    requires GetBunny(s, e) == Some(b) && GetMotion(s, e) == Some(m)
    requires !b.isJailed && !b.onShip && AtDropTile(m.position)
    ensures var r := BunnyArrivalStep(s, e, towardShip);
            GetBunny(r, e) == Some(b.(onIsland := false, onShip := true)) &&
            GetMotion(r, e) == Some(Motion(m.position, Vec2(0.0, 0.0)))
  {
    var b' := b.(onIsland := false, onShip := true);
    GetAfterSet(s, Bunnies, e, BunnyC(b'), Bunnies, e);
    GetAfterSet(s, Bunnies, e, BunnyC(b'), Motions, e);
    var s1 := SetBunny(s, e, b');
    var m' := m.(velocity := Vec2(0.0, 0.0));
    GetAfterSet(s1, Motions, e, MotionC(m'), Bunnies, e);
    GetAfterSet(s1, Motions, e, MotionC(m'), Motions, e);
  }

  /** One step: settled bunnies and other entities are untouched, and no bunny is jailed or taken off the ship. */
  lemma BunnyStepKeeps(s: Store, e: Entity, towardShip: Vec2 -> Vec2, x: Entity)
    ensures var r := BunnyArrivalStep(s, e, towardShip);
            GetBunny(r, x).Some? == GetBunny(s, x).Some? &&
            (GetBunny(s, x).Some? ==>
               GetBunny(r, x).value.isJailed == GetBunny(s, x).value.isJailed &&
               (GetBunny(s, x).value.onShip ==> GetBunny(r, x).value.onShip)) &&
            (x != e || (GetBunny(s, x).Some? && Settled(GetBunny(s, x).value)) ==>
               GetBunny(r, x) == GetBunny(s, x) && GetMotion(r, x) == GetMotion(s, x))
  {
    match (GetBunny(s, e), GetMotion(s, e))
    case (Some(b), Some(m)) =>
      if !b.isJailed && !b.onShip && !AtDropTile(m.position) {
        var m' := m.(velocity := towardShip(m.position));
        GetAfterSet(s, Motions, e, MotionC(m'), Bunnies, x);
        GetAfterSet(s, Motions, e, MotionC(m'), Motions, x);
      } else if !b.isJailed && !b.onShip {
        var b' := b.(onIsland := false, onShip := true);
        var m' := m.(velocity := Vec2(0.0, 0.0));
        GetAfterSet(s, Bunnies, e, BunnyC(b'), Bunnies, x);
        GetAfterSet(s, Bunnies, e, BunnyC(b'), Motions, x);
        var s1 := SetBunny(s, e, b');
        GetAfterSet(s1, Motions, e, MotionC(m'), Bunnies, x);
        GetAfterSet(s1, Motions, e, MotionC(m'), Motions, x);
      }
    case _ =>
  }

  /**
   * Over a whole HandleBunnyAnimation pass: every bunny stays a bunny, the
   * jail flag never changes, a bunny on the ship stays on it, and a settled
   * bunny keeps its component and its motion.
   */
  lemma {:induction false} BunnyFoldKeeps(s: Store, es: seq<Entity>, towardShip: Vec2 -> Vec2, x: Entity)
    ensures var r := BunnyArrivalFold(s, es, towardShip);
            GetBunny(r, x).Some? == GetBunny(s, x).Some? &&
            (GetBunny(s, x).Some? ==>
               GetBunny(r, x).value.isJailed == GetBunny(s, x).value.isJailed &&
               (GetBunny(s, x).value.onShip ==> GetBunny(r, x).value.onShip)) &&
            ((GetBunny(s, x).Some? && Settled(GetBunny(s, x).value)) || x !in es ==>
               GetBunny(r, x) == GetBunny(s, x) && GetMotion(r, x) == GetMotion(s, x))
    decreases |es|
  {
    if es != [] {
      BunnyStepKeeps(s, es[0], towardShip, x);
      BunnyFoldKeeps(BunnyArrivalStep(s, es[0], towardShip), es[1..], towardShip, x);
    }
  }

  /** HandleBunnyAnimation: one arrival step per entity of the bunnies container, in order. */
  method HandleBunnyAnimation(reg: ECSRegistry, towardShip: Vec2 -> Vec2)
    modifies reg
    ensures reg.registryList == old(reg.registryList)
    ensures reg.store == BunnyArrivalFold(old(reg.store), Entities(Slot(old(reg.store), Bunnies)), towardShip)
  {
    var es := Entities(Slot(reg.store, Bunnies));
    var i := 0;
    while i < |es|
      invariant 0 <= i <= |es|
      invariant reg.registryList == old(reg.registryList)
      invariant BunnyArrivalFold(reg.store, es[i..], towardShip) == BunnyArrivalFold(old(reg.store), es, towardShip)
    {
      assert es[i..][1..] == es[i + 1..];
      var e := es[i];
      var bunny := GetBunny(reg.store, e);
      var motion := GetMotion(reg.store, e);
      if bunny.Some? && motion.Some? && !bunny.value.isJailed && !bunny.value.onShip {
        var b, m := bunny.value, motion.value;
        if !AtDropTile(m.position) {
          reg.store := SetMotion(reg.store, e, m.(velocity := towardShip(m.position)));
        } else {
          reg.store := SetBunny(reg.store, e, b.(onIsland := false, onShip := true));
          reg.store := SetMotion(reg.store, e, m.(velocity := Vec2(0.0, 0.0)));
        }
      }
      i := i + 1;
    }
  }
}
