/// PlayerSystem of src/player.cpp: key presses and releases set the flags
/// moveLeft and moveRight and the speed factor, and update turns them into
/// the horizontal velocity of the player. The key codes of the six
/// controls (game::config's getControl(0..5)) are the parameter `controls`;
/// the UI and game flags the handlers read are the datatype Ui; the
/// actions the handlers start elsewhere are the datatype Effect.

module Player {
  import opened Common
  import opened CText

  /** PLAYER_SPEED_CONSTANT. */
  const SpeedConstant: real := 0.15

  /** SDLK_DELETE and SDLK_t. */
  const DeleteKey: int := 127
  const TickKey: int := 116

  /** What a key press asks of the rest of the game besides the flags:
      nothing, game::endGame, or game::time::tick(n). */
  datatype Effect = Nothing | EndGame | Tick(ticks: nat)

  /** The fields the handlers change. */
  datatype Motion = Motion(moveLeft: bool, moveRight: bool, speed: real)

  /** The flags the key-down handler reads: ui::dialogBoxExists,
      ui::dialogPassive, ui::fadeEnable and game::canSprint. */
  datatype Ui = Ui(dialogBoxExists: bool, dialogPassive: bool, fadeEnable: bool, canSprint: bool)

  /** A dialog box that waits for the player takes the keyboard. */
  predicate Blocking(ui: Ui) {
    ui.dialogBoxExists && !ui.dialogPassive
  }

  /** Six key codes, no two alike. */
  predicate Controls(controls: seq<int>) {
    |controls| == 6 && forall i, j :: 0 <= i < j < 6 ==> controls[i] != controls[j]
  }

  /** The speed factors the handlers set: normal, sprint and crouch. */
  predicate SpeedFactor(s: real) {
    s == 1.0 || s == 2.0 || s == 0.5
  }

  /** receive(KeyDownEvent) on the fields: the first control whose code
      matches decides, in the order 0 to 5; with a blocking dialog only
      Delete and T do anything. */
  function Down(m: Motion, kc: int, controls: seq<int>, ui: Ui): (Motion, Effect)
    requires |controls| == 6
  {
    if !Blocking(ui) then
      if kc == controls[0] then (m, Nothing)
      else if kc == controls[1] then
        (if !ui.fadeEnable then m.(moveLeft := true, moveRight := false) else m, Nothing)
      else if kc == controls[2] then
        (if !ui.fadeEnable then m.(moveLeft := false, moveRight := true) else m, Nothing)
      else if kc == controls[3] then
        (if ui.canSprint then m.(speed := 2.0) else m, Nothing)
      else if kc == controls[4] then (m.(speed := 0.5), Nothing)
      else (m, Nothing)
    else if kc == DeleteKey then (m, EndGame)
    else if kc == TickKey then (m, Tick(50))
    else (m, Nothing)
  }

  /** receive(KeyUpEvent) on the fields. */
  function Up(m: Motion, kc: int, controls: seq<int>): Motion
    requires |controls| == 6
  {
    if kc == controls[1] then m.(moveLeft := false)
    else if kc == controls[2] then m.(moveRight := false)
    else if kc == controls[3] || kc == controls[4] then m.(speed := 1.0)
    else m
  }

  /** The velocity update gives before the Slow setting: the direction the
      flags pick, times the speed constant, times the speed factor. */
  function Walk(m: Motion): real {
    (if m.moveLeft && !m.moveRight then -SpeedConstant
     else if !m.moveLeft && m.moveRight then SpeedConstant
     else 0.0) * m.speed
  }

  /** update's velocity: Walk halved when the Slow setting reads 1; None is
      the exception std::stoi throws when the setting does not start with
      a number. */
  function Velocity(m: Motion, slow: string): Option<real> {
    match ParseLeadingInt(slow)
    case None => None
    case Some(v) => Some(if v == 1 then Walk(m) / 2.0 else Walk(m))
  }

  class PlayerSystem {
    var moveLeft: bool
    var moveRight: bool
    var speed: real

    /** The player starts standing, at normal speed. */
    constructor ()
      ensures Now() == Motion(false, false, 1.0)
    {
      moveLeft, moveRight, speed := false, false, 1.0;
    }

    function Now(): Motion
      reads this
    {
      Motion(moveLeft, moveRight, speed)
    }

    /** receive(KeyDownEvent). */
    method KeyDown(kc: int, controls: seq<int>, ui: Ui) returns (e: Effect)
      requires |controls| == 6
      modifies this
      ensures (Now(), e) == Down(old(Now()), kc, controls, ui)
    {
      e := Nothing;
      if !ui.dialogBoxExists || ui.dialogPassive {
        if kc == controls[0] {
        } else if kc == controls[1] {
          if !ui.fadeEnable {
            moveLeft := true;
            moveRight := false;
          }
        } else if kc == controls[2] {
          if !ui.fadeEnable {
            moveLeft := false;
            moveRight := true;
          }
        } else if kc == controls[3] {
          if ui.canSprint {
            speed := 2.0;
          }
        } else if kc == controls[4] {
          speed := 0.5;
        }
      } else if kc == DeleteKey {
        e := EndGame;
      } else if kc == TickKey {
        e := Tick(50);
      }
    }

    /** receive(KeyUpEvent). */
    method KeyUp(kc: int, controls: seq<int>)
      requires |controls| == 6
      modifies this
      ensures Now() == Up(old(Now()), kc, controls)
    {
      if kc == controls[1] {
        moveLeft := false;
      } else if kc == controls[2] {
        moveRight := false;
      } else if kc == controls[3] || kc == controls[4] {
        speed := 1.0;
      }
    }

    /** update: writes the velocity into vel.x, which std::stoi may throw
        out of after the unhalved value is written (ok false). */
    method Update(vel: Vec2Var, slow: string) returns (ok: bool)
      modifies vel
      ensures vel.y == old(vel.y)
      ensures ok <==> Velocity(Now(), slow).Some?
      ensures ok ==> vel.x == Velocity(Now(), slow).value
      ensures !ok ==> vel.x == Walk(Now())
    {
      if moveLeft && !moveRight {
        vel.x := -SpeedConstant;
      } else if !moveLeft && moveRight {
        vel.x := SpeedConstant;
      } else {
        vel.x := 0.0;
      }
      vel.x := vel.x * speed;
      var n := ParseLeadingInt(slow);
      if n.None? {
        return false;
      }
      if n.value == 1 {
        vel.x := vel.x / 2.0;
      }
      return true;
    }
  }

  /** Pressing left (no blocking dialog, no fade) sets moveLeft and clears
      moveRight; pressing right does the reverse; the speed stays. */
  lemma PressDirection(m: Motion, controls: seq<int>, ui: Ui)
    requires Controls(controls) && !Blocking(ui) && !ui.fadeEnable
    ensures Down(m, controls[1], controls, ui) == (Motion(true, false, m.speed), Nothing)
    ensures Down(m, controls[2], controls, ui) == (Motion(false, true, m.speed), Nothing)
  {
  }

  /** During a fade the direction keys change nothing. */
  lemma FadeIgnoresDirection(m: Motion, controls: seq<int>, ui: Ui, k: nat)
    requires Controls(controls) && ui.fadeEnable && (k == 1 || k == 2)
    ensures Down(m, controls[k], controls, ui).0 == m
  {
  }

  /** Releasing a direction key clears only its own flag. */
  lemma ReleaseDirection(m: Motion, controls: seq<int>)
    requires Controls(controls)
    ensures Up(m, controls[1], controls) == m.(moveLeft := false)
    ensures Up(m, controls[2], controls) == m.(moveRight := false)
  {
  }

  /** Sprint sets the factor 2 only when sprinting is allowed, crouch sets
      0.5, and releasing either goes back to 1. */
  lemma SprintAndCrouch(m: Motion, controls: seq<int>, ui: Ui)
    requires Controls(controls) && !Blocking(ui)
    ensures Down(m, controls[3], controls, ui).0.speed == if ui.canSprint then 2.0 else m.speed
    ensures Down(m, controls[4], controls, ui).0.speed == 0.5
    ensures Up(m, controls[3], controls).speed == 1.0 && Up(m, controls[4], controls).speed == 1.0
  {
  }

  /** With a blocking dialog no key changes the flags; Delete ends the game
      and T advances time by 50 ticks. */
  lemma BlockedKeys(m: Motion, kc: int, controls: seq<int>, ui: Ui)
    requires |controls| == 6 && Blocking(ui)
    ensures Down(m, kc, controls, ui).0 == m
    ensures Down(m, kc, controls, ui).1 == EndGame <==> kc == DeleteKey
    ensures Down(m, kc, controls, ui).1 == Tick(50) <==> kc == TickKey
  {
  }

  /** A key press starts an action elsewhere only with a blocking dialog. */
  lemma EffectsOnlyWhenBlocked(m: Motion, kc: int, controls: seq<int>, ui: Ui)
    requires |controls| == 6 && !Blocking(ui)
    ensures Down(m, kc, controls, ui).1 == Nothing
  {
  }

  /** The handlers only ever set the speed factor to 1, 2 or 0.5. */
  lemma SpeedStaysAFactor(m: Motion, kc: int, controls: seq<int>, ui: Ui)
    requires |controls| == 6 && SpeedFactor(m.speed)
    ensures SpeedFactor(Down(m, kc, controls, ui).0.speed)
    ensures SpeedFactor(Up(m, kc, controls).speed)
  {
  }

  /** The player walks left exactly when only moveLeft is set, right
      exactly when only moveRight is set, and stands otherwise; never
      faster than twice the speed constant. */
  lemma WalkDirection(m: Motion)
    requires SpeedFactor(m.speed)
    ensures Walk(m) < 0.0 <==> m.moveLeft && !m.moveRight
    ensures Walk(m) > 0.0 <==> !m.moveLeft && m.moveRight
    ensures -2.0 * SpeedConstant <= Walk(m) <= 2.0 * SpeedConstant
  {
  }

  /** Holding left and right together cancels out. */
  lemma BothDirectionsStand(m: Motion)
    requires m.moveLeft && m.moveRight
    ensures Walk(m) == 0.0
  {
  }

  /** A Slow setting saved as the number v halves the velocity when v is 1
      and leaves it otherwise. */
  lemma SlowHalves(m: Motion, v: int)
    ensures Velocity(m, ToDecimal(v)) == Some(if v == 1 then Walk(m) / 2.0 else Walk(m))
  {
    var s := ToDecimal(v);
    ParseToDecimal(v);
    assert ParseLeadingInt(s) == Some(v);
  }

  /** An empty Slow setting makes update throw. */
  lemma SlowUnset(m: Motion)
    ensures Velocity(m, "") == None
  {
  }

  /** Pressing and releasing left, from standing still, leaves the player
      standing still at the same speed. */
  lemma PressReleaseStands(m: Motion, controls: seq<int>, ui: Ui)
    requires Controls(controls) && !Blocking(ui) && !ui.fadeEnable
    requires !m.moveLeft && !m.moveRight
    ensures Up(Down(m, controls[1], controls, ui).0, controls[1], controls) == m
    ensures Walk(Up(Down(m, controls[1], controls, ui).0, controls[1], controls)) == 0.0
  {
  }

  /** Pressing right while holding left turns the player round, and
      releasing left afterwards keeps them walking right. */
  lemma TurnRound(m: Motion, controls: seq<int>, ui: Ui)
    requires Controls(controls) && !Blocking(ui) && !ui.fadeEnable && m.speed > 0.0
    requires m.moveLeft && !m.moveRight
    ensures var turned := Down(m, controls[2], controls, ui).0;
            Walk(turned) > 0.0 && Walk(Up(turned, controls[1], controls)) > 0.0
  {
  }
}
