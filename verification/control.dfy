/**
 The remap state and the control surface that mutates it: the tray menu's
 commands, the tray icon's left click, and the check marks the menu shows.
 The program keeps `enabled` and `switchMode` in globals; here they are one
 immutable `RemapState` value that every transition returns anew.
 */
module Control {
  import opened Win32
  import opened Modes

  datatype RemapState = RemapState(enabled: bool, switchMode: SwitchMode)

  /** The state at process start. */
  const Initial: RemapState := RemapState(true, ModeAltShift)

  predicate IsModeCommand(cmd: uint32) {
    cmd == CMD_MODE_CTRLSHIFT || cmd == CMD_MODE_ALTSHIFT || cmd == CMD_MODE_WINSPACE
  }

  /** The mode a mode command selects. */
  function ModeOfCommand(cmd: uint32): (m: SwitchMode)
    requires IsModeCommand(cmd)
    ensures ValidMode(m)
    ensures cmd == CMD_MODE_CTRLSHIFT ==> m == ModeCtrlShift
    ensures cmd == CMD_MODE_ALTSHIFT ==> m == ModeAltShift
    ensures cmd == CMD_MODE_WINSPACE ==> m == ModeWinSpace
  {
    if cmd == CMD_MODE_CTRLSHIFT then ModeCtrlShift
    else if cmd == CMD_MODE_ALTSHIFT then ModeAltShift
    else ModeWinSpace
  }

  /** The menu item that stands for a mode. */
  function CommandOfMode(m: SwitchMode): (cmd: uint32)
    requires ValidMode(m)
    ensures IsModeCommand(cmd)
    ensures m == ModeCtrlShift ==> cmd == CMD_MODE_CTRLSHIFT
    ensures m == ModeAltShift ==> cmd == CMD_MODE_ALTSHIFT
    ensures m == ModeWinSpace ==> cmd == CMD_MODE_WINSPACE
  {
    if m == ModeCtrlShift then CMD_MODE_CTRLSHIFT
    else if m == ModeAltShift then CMD_MODE_ALTSHIFT
    else CMD_MODE_WINSPACE
  }

  /** Mode commands and valid modes correspond one to one. */
  lemma ModeCommandRoundTrip(m: SwitchMode, cmd: uint32)
    ensures ValidMode(m) ==> ModeOfCommand(CommandOfMode(m)) == m
    ensures IsModeCommand(cmd) ==> CommandOfMode(ModeOfCommand(cmd)) == cmd
  {
  }

  /** The effect of `handleCommand(cmd)` on the state. */
  function Step(s: RemapState, cmd: uint32): (r: RemapState)
    ensures r.enabled == (s.enabled != (cmd == CMD_TOGGLE_ENABLED))
    ensures IsModeCommand(cmd) ==> r.switchMode == ModeOfCommand(cmd)
    ensures !IsModeCommand(cmd) ==> r.switchMode == s.switchMode
    ensures ValidMode(s.switchMode) ==> ValidMode(r.switchMode)
  {
    if cmd == CMD_TOGGLE_ENABLED then s.(enabled := !s.enabled)
    else if IsModeCommand(cmd) then s.(switchMode := ModeOfCommand(cmd))
    else s
  }

  /** Toggling twice restores the state. */
  lemma ToggleTwiceIsIdentity(s: RemapState)
    ensures Step(Step(s, CMD_TOGGLE_ENABLED), CMD_TOGGLE_ENABLED) == s
    ensures Step(s, CMD_TOGGLE_ENABLED) != s
  {
  }

  /** A mode command keeps `enabled`, is idempotent, and the last one issued wins. */
  lemma ModeCommandsOverwrite(s: RemapState, cmd: uint32, cmd': uint32)
    requires IsModeCommand(cmd) && IsModeCommand(cmd')
    ensures Step(s, cmd).enabled == s.enabled
    ensures Step(Step(s, cmd), cmd) == Step(s, cmd)
    ensures Step(Step(s, cmd), cmd') == Step(s, cmd')
  {
  }

  /** Exit and every id the menu does not define leave the state as it is. */
  lemma OtherCommandsKeepState(s: RemapState, cmd: uint32)
    requires cmd != CMD_TOGGLE_ENABLED && !IsModeCommand(cmd)
    ensures Step(s, cmd) == s
  {
  }

  datatype Menu = RootMenu | ModeMenu

  /** One `CheckMenuItem` call: menu, item id and check state. */
  datatype CheckMark = CheckMark(menu: Menu, id: uint32, flag: uint32)

  /** The check state `checkMenuItem` passes for a wanted mark. */
  function CheckFlag(checked: bool): (flag: uint32)
    ensures flag == MF_CHECKED || flag == MF_UNCHECKED
    ensures flag == MF_CHECKED <==> checked
  {
    if checked then MF_CHECKED else MF_UNCHECKED
  }

  /** The ids of the mode items a list of check marks shows as checked. */
  function CheckedModeItems(marks: seq<CheckMark>): set<uint32> {
    set i | 0 <= i < |marks| && marks[i].menu == ModeMenu && marks[i].flag == MF_CHECKED :: marks[i].id
  }

  /** The check marks `updateMenuChecks` applies for state `s`, in call order. */
  function MenuChecks(s: RemapState): (r: seq<CheckMark>)
    ensures |r| == 4
    ensures r[0].menu == RootMenu && r[0].id == CMD_TOGGLE_ENABLED
    ensures r[1].id == CMD_MODE_CTRLSHIFT && r[2].id == CMD_MODE_ALTSHIFT && r[3].id == CMD_MODE_WINSPACE
    ensures r[0].flag == MF_CHECKED <==> s.enabled
    ensures forall i :: 1 <= i < |r| ==>
      r[i].menu == ModeMenu && IsModeCommand(r[i].id) &&
      (r[i].flag == MF_CHECKED <==> ModeOfCommand(r[i].id) == s.switchMode)
    ensures forall i :: 0 <= i < |r| ==> r[i].flag == MF_CHECKED || r[i].flag == MF_UNCHECKED
    ensures CheckedModeItems(r) == if ValidMode(s.switchMode) then {CommandOfMode(s.switchMode)} else {}
  {
    var r := [
      CheckMark(RootMenu, CMD_TOGGLE_ENABLED, CheckFlag(s.enabled)),
      CheckMark(ModeMenu, CMD_MODE_CTRLSHIFT, CheckFlag(s.switchMode == ModeCtrlShift)),
      CheckMark(ModeMenu, CMD_MODE_ALTSHIFT, CheckFlag(s.switchMode == ModeAltShift)),
      CheckMark(ModeMenu, CMD_MODE_WINSPACE, CheckFlag(s.switchMode == ModeWinSpace))
    ];
    assert forall x :: x in CheckedModeItems(r) ==> ValidMode(s.switchMode) && x == CommandOfMode(s.switchMode);
    assert ValidMode(s.switchMode) ==> r[1 + s.switchMode].id in CheckedModeItems(r);
    r
  }

  /** What the user sees: the state and the check marks last applied to the menu. */
  datatype Ui = Ui(state: RemapState, checks: seq<CheckMark>)

  /** Set the state and refresh the check marks, as every mutating branch does. */
  function Render(s: RemapState): Ui {
    Ui(s, MenuChecks(s))
  }

  /** After start-up: the initial state, with `buildMenus` having applied its marks. */
  const Startup: Ui := Render(Initial)

  /** The mode is one of the three, and the menu shows the state exactly. */
  predicate Consistent(ui: Ui) {
    ValidMode(ui.state.switchMode) && ui.checks == MenuChecks(ui.state)
  }

  /** The outcome of handling one message: the new view, and whether the window is destroyed. */
  datatype Reaction = Reaction(ui: Ui, destroyWindow: bool)

  /** `handleCommand(cmd)`: mutate, refresh the marks, or destroy the window on Exit. */
  function HandleCommand(ui: Ui, cmd: uint32): (r: Reaction)
    ensures r.ui.state == Step(ui.state, cmd)
    ensures r.destroyWindow <==> cmd == CMD_EXIT
    ensures cmd != CMD_TOGGLE_ENABLED && !IsModeCommand(cmd) ==> r.ui == ui
    ensures cmd == CMD_TOGGLE_ENABLED || IsModeCommand(cmd) ==> r.ui == Render(r.ui.state)
    ensures Consistent(ui) ==> Consistent(r.ui)
  {
    if cmd == CMD_TOGGLE_ENABLED || IsModeCommand(cmd) then Reaction(Render(Step(ui.state, cmd)), false)
    else Reaction(ui, cmd == CMD_EXIT)
  }

  /** A message delivered to the hidden window. */
  datatype WindowMessage = WindowMessage(msg: uint32, wParam: nat, lParam: nat)

  /**
   The state effects of the window procedure. `menuChoice` is the id the
   popup menu returns when the tray icon is right-clicked (0 if dismissed);
   it stands for the user's pick, which the model cannot see.
   */
  function WndProc(ui: Ui, m: WindowMessage, menuChoice: nat): (r: Reaction)
    ensures m.msg != WM_TRAYICON && m.msg != WM_COMMAND ==> r.ui == ui
    ensures m.msg == WM_TRAYICON && ToUint32(m.lParam) != WM_LBUTTONUP && ToUint32(m.lParam) != WM_RBUTTONUP ==>
      r == Reaction(ui, false)
    ensures m.msg == WM_TRAYICON && ToUint32(m.lParam) == WM_LBUTTONUP ==> r == HandleCommand(ui, CMD_TOGGLE_ENABLED)
    ensures m.msg == WM_TRAYICON && ToUint32(m.lParam) == WM_RBUTTONUP ==>
      r == if menuChoice == 0 then Reaction(ui, false) else HandleCommand(ui, ToUint32(menuChoice))
    ensures m.msg == WM_COMMAND ==> r == HandleCommand(ui, LowWord(m.wParam))
    ensures m.msg == WM_CLOSE ==> r == Reaction(ui, true)
    ensures r.destroyWindow <==>
      || m.msg == WM_CLOSE
      || (m.msg == WM_COMMAND && LowWord(m.wParam) == CMD_EXIT)
      || (m.msg == WM_TRAYICON && ToUint32(m.lParam) == WM_RBUTTONUP && menuChoice != 0 && ToUint32(menuChoice) == CMD_EXIT)
    ensures Consistent(ui) ==> Consistent(r.ui)
  {
    if m.msg == WM_TRAYICON then
      var click := ToUint32(m.lParam);
      if click == WM_LBUTTONUP then Reaction(Render(ui.state.(enabled := !ui.state.enabled)), false)
      else if click == WM_RBUTTONUP && menuChoice != 0 then HandleCommand(ui, ToUint32(menuChoice))
      else Reaction(ui, false)
    else if m.msg == WM_COMMAND then HandleCommand(ui, LowWord(m.wParam))
    else Reaction(ui, m.msg == WM_CLOSE)
  }

  /**
   A left click on the tray icon, whatever icon id the notification carries
   in `wParam`, has the same effect as the Enabled menu item.
   */
  lemma LeftClickIsToggle(ui: Ui, wParam: nat, lParam: nat, menuChoice: nat)
    requires ToUint32(lParam) == WM_LBUTTONUP
    ensures WndProc(ui, WindowMessage(WM_TRAYICON, wParam, lParam), menuChoice) == HandleCommand(ui, CMD_TOGGLE_ENABLED)
  {
  }

  /** One message together with the menu pick the user makes if it opens the menu. */
  datatype Delivery = Delivery(message: WindowMessage, menuChoice: nat)

  /** A message the window procedure hands to DefWindowProc or to teardown, leaving the state alone. */
  predicate Inert(m: WindowMessage) {
    m.msg != WM_TRAYICON && m.msg != WM_COMMAND
  }

  /**
   The message loop over a sequence of messages; it stops once the window is
   destroyed. Only tray and command messages can change what the user sees.
   */
  function Run(ui: Ui, msgs: seq<Delivery>): (r: Ui)
    ensures (forall i :: 0 <= i < |msgs| ==> Inert(msgs[i].message)) ==> r == ui
    decreases |msgs|
  {
    if msgs == [] then ui
    else
      var r := WndProc(ui, msgs[0].message, msgs[0].menuChoice);
      if r.destroyWindow then r.ui else Run(r.ui, msgs[1..])
  }

  /** Once a message destroys the window, the messages after it have no effect. */
  lemma RunStopsAtDestroy(ui: Ui, d: Delivery, rest: seq<Delivery>)
    requires WndProc(ui, d.message, d.menuChoice).destroyWindow
    ensures Run(ui, [d] + rest) == WndProc(ui, d.message, d.menuChoice).ui
  {
  }

  /** Every message keeps the mode valid and the menu in step with the state. */
  lemma {:induction false} RunStaysConsistent(ui: Ui, msgs: seq<Delivery>)
    requires Consistent(ui)
    ensures Consistent(Run(ui, msgs))
    decreases |msgs|
  {
    if msgs != [] {
      var r := WndProc(ui, msgs[0].message, msgs[0].menuChoice);
      if !r.destroyWindow {
        RunStaysConsistent(r.ui, msgs[1..]);
      }
    }
  }

  /**
   Every state reachable from start-up has one of the three modes, and the
   menu shows it: exactly one mode item and the Enabled item as the state says.
   */
  lemma ReachableStatesAreConsistent(msgs: seq<Delivery>)
    ensures Consistent(Run(Startup, msgs))
    ensures ValidMode(Run(Startup, msgs).state.switchMode)
    ensures |CheckedModeItems(Run(Startup, msgs).checks)| == 1
  {
    assert Consistent(Startup);
    RunStaysConsistent(Startup, msgs);
    var s := Run(Startup, msgs).state;
    assert CheckedModeItems(MenuChecks(s)) == {CommandOfMode(s.switchMode)};
  }
}
