/**
 The low-level keyboard hook: for each keyboard event, whether it is passed
 down the hook chain or swallowed, and which SendInput calls it causes.
 The Shift state, which the program reads with GetAsyncKeyState at the
 moment of the decision, is a parameter.
 */
module Hook {
  import opened Win32
  import opened Synthesis
  import opened Modes
  import opened Control

  /** What the hook receives: the hook code, the message, and the event's key and flags. */
  datatype HookEvent = HookEvent(nCode: int, wParam: nat, vkCode: uint32, flags: bv32)

  /** CallNext: hand the event to the next hook. Suppress: return 1 and swallow it. */
  datatype Verdict = CallNext | Suppress

  /** The hook's answer and the SendInput calls made before answering. */
  datatype Decision = Decision(verdict: Verdict, sent: seq<seq<KeyInput>>)

  const PassOn: Decision := Decision(CallNext, [])

  predicate IsKeyDown(wParam: nat) {
    wParam == WM_KEYDOWN || wParam == WM_SYSKEYDOWN
  }

  predicate IsKeyUp(wParam: nat) {
    wParam == WM_KEYUP || wParam == WM_SYSKEYUP
  }

  /** The event came from SendInput rather than from the keyboard. */
  predicate IsInjected(flags: bv32) {
    flags & LLKHF_INJECTED != 0
  }

  /** A real Caps Lock event the engine takes over: enabled, not injected, Shift up. */
  predicate Remapped(s: RemapState, ev: HookEvent, shiftDown: bool) {
    ev.nCode == HC_ACTION && s.enabled && !IsInjected(ev.flags) && ev.vkCode == VK_CAPITAL as uint32 && !shiftDown
  }

  /** The body of the hook procedure. */
  function Decide(s: RemapState, ev: HookEvent, shiftDown: bool): (r: Decision)
    ensures r.verdict == Suppress <==> Remapped(s, ev, shiftDown) && (IsKeyDown(ev.wParam) || IsKeyUp(ev.wParam))
    ensures Remapped(s, ev, shiftDown) && IsKeyDown(ev.wParam) ==> r.sent == TriggerLanguageSwitch(s.switchMode)
    ensures !(Remapped(s, ev, shiftDown) && IsKeyDown(ev.wParam)) ==> r.sent == []
  {
    if ev.nCode == HC_ACTION then
      if !s.enabled then PassOn
      else if IsInjected(ev.flags) then PassOn
      else if ev.vkCode == VK_CAPITAL as uint32 then
        if shiftDown then PassOn
        else
          var sent := if IsKeyDown(ev.wParam) then TriggerLanguageSwitch(s.switchMode) else [];
          if IsKeyDown(ev.wParam) || IsKeyUp(ev.wParam) then Decision(Suppress, sent)
          else Decision(CallNext, sent)
      else PassOn
    else PassOn
  }

  /** Each guard ahead of the Caps Lock branch lets the event through untouched. */
  lemma PassThroughCases(s: RemapState, ev: HookEvent, shiftDown: bool)
    ensures ev.nCode != HC_ACTION ==> Decide(s, ev, shiftDown) == PassOn
    ensures !s.enabled ==> Decide(s, ev, shiftDown) == PassOn
    ensures IsInjected(ev.flags) ==> Decide(s, ev, shiftDown) == PassOn
    ensures ev.vkCode != VK_CAPITAL as uint32 ==> Decide(s, ev, shiftDown) == PassOn
    ensures ev.vkCode == VK_CAPITAL as uint32 && shiftDown ==> Decide(s, ev, shiftDown) == PassOn
  {
  }

  /**
   A taken-over Caps Lock press is swallowed and sends exactly one combo, that
   of the current mode; its release is swallowed and sends nothing; any other
   message for the key goes on unchanged.
   */
  lemma CapsLockCases(s: RemapState, ev: HookEvent, shiftDown: bool)
    requires Remapped(s, ev, shiftDown)
    ensures IsKeyDown(ev.wParam) ==>
      Decide(s, ev, shiftDown).verdict == Suppress &&
      |Decide(s, ev, shiftDown).sent| == 1 &&
      Decide(s, ev, shiftDown).sent[0] == Batch(ComboFor(s.switchMode).down, ComboFor(s.switchMode).up)
    ensures IsKeyUp(ev.wParam) ==> Decide(s, ev, shiftDown) == Decision(Suppress, [])
    ensures !IsKeyDown(ev.wParam) && !IsKeyUp(ev.wParam) ==> Decide(s, ev, shiftDown) == PassOn
  {
  }

  /**
   No key the engine synthesizes is Caps Lock, so its own input, fed back to
   the hook, is passed on even if the injected flag were missing.
   */
  lemma NoFeedback(s: RemapState, m: SwitchMode, ev: HookEvent, shiftDown: bool)
    requires exists k :: k in TriggerLanguageSwitch(m)[0] && k.vk == ev.vkCode
    ensures Decide(s, ev, shiftDown) == PassOn
  {
  }

  // A reference classifier over an abstract key event: the verdict is
  // decided by an ordered list of rules, with press and release told apart.

  datatype Transition = Press | Release | Unrecognised

  datatype KeyEvent = KeyEvent(vk: uint32, transition: Transition, synthetic: bool, shiftHeld: bool)

  datatype Classification = PassThrough | SuppressAndTrigger | SuppressSilently

  function Classify(e: KeyEvent, s: RemapState): Classification {
    if !s.enabled then PassThrough
    else if e.synthetic then PassThrough
    else if e.vk != VK_CAPITAL as uint32 then PassThrough
    else if e.shiftHeld then PassThrough
    else match e.transition
      case Press => SuppressAndTrigger
      case Release => SuppressSilently
      case Unrecognised => PassThrough
  }

  /** The engine on an abstract event: suppress unless passing through, synthesize on trigger. */
  function OnKeyEvent(e: KeyEvent, s: RemapState): Decision {
    var c := Classify(e, s);
    Decision(if c == PassThrough then CallNext else Suppress,
             if c == SuppressAndTrigger then TriggerLanguageSwitch(s.switchMode) else [])
  }

  function TransitionOf(wParam: nat): Transition {
    if IsKeyDown(wParam) then Press else if IsKeyUp(wParam) then Release else Unrecognised
  }

  /** The abstract event a hook event stands for. */
  function Abstract(ev: HookEvent, shiftDown: bool): KeyEvent {
    KeyEvent(ev.vkCode, TransitionOf(ev.wParam), IsInjected(ev.flags), shiftDown)
  }

  /** For every action event the hook decides as the reference classifier prescribes. */
  lemma DecideMatchesClassify(s: RemapState, ev: HookEvent, shiftDown: bool)
    requires ev.nCode == HC_ACTION
    ensures Decide(s, ev, shiftDown) == OnKeyEvent(Abstract(ev, shiftDown), s)
  {
  }

  /** Caps Lock pressed then released, both taken over: one combo for the pair, both swallowed. */
  lemma PressReleasePair(s: RemapState, down: HookEvent, up: HookEvent, shiftDown: bool)
    requires Remapped(s, down, shiftDown) && Remapped(s, up, shiftDown)
    requires IsKeyDown(down.wParam) && IsKeyUp(up.wParam)
    ensures Decide(s, down, shiftDown).verdict == Suppress && Decide(s, up, shiftDown).verdict == Suppress
    ensures |Decide(s, down, shiftDown).sent + Decide(s, up, shiftDown).sent| == 1
  {
  }

  /** The total number of SendInput calls the hook makes over a stream of events. */
  function SendCount(s: RemapState, evs: seq<HookEvent>, shifts: seq<bool>): nat
    requires |evs| == |shifts|
    decreases |evs|
  {
    if evs == [] then 0
    else |Decide(s, evs[0], shifts[0]).sent| + SendCount(s, evs[1..], shifts[1..])
  }

  /**
   The number of taken-over Caps Lock key-down messages in a stream of events.
   Holding the key makes the keyboard auto-repeat key-down messages, and each
   repeat counts here: the engine fires a switch on every one of them.
   */
  function Presses(s: RemapState, evs: seq<HookEvent>, shifts: seq<bool>): nat
    requires |evs| == |shifts|
    decreases |evs|
  {
    if evs == [] then 0
    else
      var hit := if Remapped(s, evs[0], shifts[0]) && IsKeyDown(evs[0].wParam) then 1 else 0;
      hit + Presses(s, evs[1..], shifts[1..])
  }

  /** Over any stream of events, the engine fires exactly one switch per taken-over key-down message, auto-repeats included. */
  lemma {:induction false} OneSwitchPerPress(s: RemapState, evs: seq<HookEvent>, shifts: seq<bool>)
    requires |evs| == |shifts|
    ensures SendCount(s, evs, shifts) == Presses(s, evs, shifts)
    decreases |evs|
  {
    if evs != [] {
      OneSwitchPerPress(s, evs[1..], shifts[1..]);
    }
  }

  /** From start-up the hook only ever sends one of the three table combos, never the fallback. */
  lemma ReachableSwitchesUseTable(msgs: seq<Delivery>, ev: HookEvent, shiftDown: bool)
    requires Remapped(Run(Startup, msgs).state, ev, shiftDown) && IsKeyDown(ev.wParam)
    ensures ValidMode(Run(Startup, msgs).state.switchMode)
    ensures Decide(Run(Startup, msgs).state, ev, shiftDown).sent == TriggerLanguageSwitch(Run(Startup, msgs).state.switchMode)
  {
    ReachableStatesAreConsistent(msgs);
  }

  /** Four end-to-end runs from the start-up state. */
  lemma Scenarios()
    ensures var press := HookEvent(HC_ACTION, WM_KEYDOWN, VK_CAPITAL as uint32, 0);
      && Decide(Initial, press, false) ==
           Decision(Suppress, [[KeyInput(INPUT_KEYBOARD, VK_MENU, 0), KeyInput(INPUT_KEYBOARD, VK_SHIFT, 0),
                                KeyInput(INPUT_KEYBOARD, VK_SHIFT, KEYEVENTF_KEYUP), KeyInput(INPUT_KEYBOARD, VK_MENU, KEYEVENTF_KEYUP)]])
      && Decide(Initial, press, true) == PassOn
      && Decide(Step(Initial, CMD_MODE_WINSPACE), press, false) ==
           Decision(Suppress, [[KeyInput(INPUT_KEYBOARD, VK_LWIN, 0), KeyInput(INPUT_KEYBOARD, VK_SPACE, 0),
                                KeyInput(INPUT_KEYBOARD, VK_SPACE, KEYEVENTF_KEYUP), KeyInput(INPUT_KEYBOARD, VK_LWIN, KEYEVENTF_KEYUP)]])
      && Decide(Step(Initial, CMD_TOGGLE_ENABLED), press, false) == PassOn
  {
    var press := HookEvent(HC_ACTION, WM_KEYDOWN, VK_CAPITAL as uint32, 0);
    assert !IsInjected(press.flags);
    ComboTable(ModeAltShift);
    ComboTable(ModeWinSpace);
    var alt := Batch([VK_MENU, VK_SHIFT], [VK_SHIFT, VK_MENU]);
    assert alt == [KeyInput(INPUT_KEYBOARD, VK_MENU, 0), KeyInput(INPUT_KEYBOARD, VK_SHIFT, 0),
                   KeyInput(INPUT_KEYBOARD, VK_SHIFT, KEYEVENTF_KEYUP), KeyInput(INPUT_KEYBOARD, VK_MENU, KEYEVENTF_KEYUP)];
    var win := Batch([VK_LWIN, VK_SPACE], [VK_SPACE, VK_LWIN]);
    assert win == [KeyInput(INPUT_KEYBOARD, VK_LWIN, 0), KeyInput(INPUT_KEYBOARD, VK_SPACE, 0),
                   KeyInput(INPUT_KEYBOARD, VK_SPACE, KEYEVENTF_KEYUP), KeyInput(INPUT_KEYBOARD, VK_LWIN, KEYEVENTF_KEYUP)];
  }
}
