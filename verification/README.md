# Caps Lock language switch: the remapping engine

A Windows tray program turns Caps Lock into a keyboard-layout switch. A
low-level keyboard hook sees every key event. A physical Caps Lock press,
when the engine is enabled and Shift is not held, is swallowed, and the
engine injects the key combination of the selected mode in its place:
Ctrl+Shift, Alt+Shift or Win+Space. Shift+Caps Lock keeps its normal
behaviour. The tray icon's left click and its menu switch the engine on and
off and select the mode. The menu shows check marks for the current state.

This project models that engine in Dafny as pure functions over explicit
values. The program's globals `enabled` and `switchMode` become one
`RemapState` value. The Shift state is a parameter of the hook decision.
SendInput calls are an output list of the batches submitted.

- `Win32` (`win32.dfy`): the constants the engine uses, plus the 16/32-bit
  widths and the truncations `uint32(x)` and `x & 0xffff`.
- `Synthesis` (`synthesis.dfy`): the INPUT batch of `sendKeyCombo`. It has a
  pure definition and a loop-based method that mirrors the program's two
  loops. It also has a replay of a batch onto a stack of held keys, most recent press on top,, used to
  show that a mirrored combo is properly nested and leaves no key down.
- `Modes` (`modes.dfy`): the mode table of `triggerLanguageSwitch`.
  `SwitchMode` is an integer, as in the program, so the fallback to
  Ctrl+Shift for an out-of-range value can be stated.
- `Control` (`control.dfy`): the state, `handleCommand`, the tray left
  click, `updateMenuChecks`, and the state effects of the window procedure
  over a stream of messages.
- `Hook` (`hook.dfy`): the body of the hook procedure. It is compared with a
  reference classifier that states the same policy as an ordered list of
  rules over an abstract key event.

`hookProc` tests its guards in this order. First, any event whose `nCode`
is not `HC_ACTION` is passed on. Then a disabled engine passes the event on.
Then an injected event is passed on. Then any key other than Caps Lock is
passed on. Then Caps Lock with Shift held is passed on. Last, a key-down
message sends the combo, and a key-down or key-up message is swallowed.
Caps Lock messages other than those four are passed on. `Decide` follows
this order. The reference classifier `Classify` states the last four guards
as rules over an abstract event. It has an `Unrecognised` transition for
the other messages. `DecideMatchesClassify` covers action events only,
because the classifier has no hook code.

## Model

| member | source | states |
|---|---|---|
| Win32.ToUint32 | main.go:428 | the 32-bit truncation of the tray message's lParam keeps values below 2^32 and is congruent to its input modulo 2^32 |
| Win32.LowWord | main.go:440 | the command id taken from WM_COMMAND's wParam is its low 16 bits: values below 2^16 are kept, others reduced modulo 2^16 |
| Synthesis.Phase | main.go:215-232 | one loop of sendKeyCombo yields one keyboard record per key, in list order, each carrying that loop's flags |
| Synthesis.Batch | main.go:212-233 | the batch has length \|down\|+\|up\|; entry i < \|down\| presses down[i] with flags 0; entry \|down\|+j releases up[j] with KEYEVENTF_KEYUP |
| Synthesis.BatchKeys | main.go:212-232 | every record of a batch carries a key taken from the down list or the up list |
| Synthesis.Submit | main.go:234-241 | SendInput is called once with the whole batch, and not at all when the batch is empty |
| Synthesis.SendKeyCombo | main.go:212-242 | the two appending loops build exactly the batch above, entry by entry; the batch is submitted once unless both lists are empty |
| Synthesis.Reverse | main.go:247-253 | the release list of a combo is the press list read backwards: element i is the press list's element n-1-i |
| Synthesis.ReverseSameKeys | main.go:247-253 | reversing a key list keeps every key with its number of occurrences, so a combo releases exactly the keys it pressed |
| Synthesis.ReplayPresses | main.go:215-223 | replaying the press phase of a batch pushes its keys, in order, onto the keys held |
| Synthesis.ReplayReleases | main.go:224-232 | replaying releases in the reverse of the press order lifts, one by one, the most recently pressed key still held |
| Synthesis.MirroredBatchIsBalanced | main.go:212-242 | a batch whose releases mirror its presses never releases a key that is not on top of the held stack, and leaves nothing held |
| Modes.ComboFor | main.go:244-255 | for every mode value the combo presses at least one key, no key twice, never Caps Lock (pressed or released), and releases in exactly the reverse order |
| Modes.Pair | main.go:247 | a two-key combo of different keys presses a then b, presses no key twice, and releases b then a |
| Modes.ComboTable | main.go:244-255 | Ctrl+Shift, Alt+Shift and Win+Space for the three modes; any other mode value gives the Ctrl+Shift combo |
| Modes.ComboReleasesWhatItPresses | main.go:244-255 | in every mode the release list holds the same keys as the press list, each as often |
| Modes.TriggerLanguageSwitch | main.go:244-255 | a language switch makes exactly one SendInput call, with the mode's combo batch, and injects no Caps Lock event |
| Modes.SwitchIsBalanced | main.go:244-255 | in every mode the injected batch is properly nested and leaves no key held down |
| Modes.ModesAreDistinguishable | main.go:244-251 | the three valid modes send three different combos |
| Control.ModeOfCommand | main.go:409-417 | the Ctrl + Shift item selects ModeCtrlShift, Alt + Shift selects ModeAltShift, Win + Space selects ModeWinSpace |
| Control.CommandOfMode | main.go:377-379 | ModeCtrlShift, ModeAltShift and ModeWinSpace are shown by the items 1101, 1102 and 1103 respectively |
| Control.ModeCommandRoundTrip | main.go:409-417 | mode commands and valid modes correspond one to one, in both directions |
| Control.Step | main.go:403-422 | toggle flips enabled and nothing else changes it; a mode command sets the mode it names; other ids keep the mode; a valid mode stays valid |
| Control.ToggleTwiceIsIdentity | main.go:405-406 | toggling changes the state, and toggling twice restores it |
| Control.ModeCommandsOverwrite | main.go:409-417 | a mode command leaves enabled unchanged, is idempotent, and a later mode command overrides an earlier one |
| Control.OtherCommandsKeepState | main.go:403-422 | Exit and every id the menu does not define leave both fields unchanged |
| Control.CheckFlag | main.go:366-372 | the check state passed to CheckMenuItem is MF_CHECKED exactly when the item should be checked, and MF_UNCHECKED otherwise |
| Control.MenuChecks | main.go:374-380 | the four calls go to Enabled, Ctrl + Shift, Alt + Shift and Win + Space in that order; the Enabled item is checked iff enabled; each mode item is checked iff it is the current mode; the set of checked mode items is exactly the current mode's item, or empty for an invalid mode |
| Control.HandleCommand | main.go:403-422 | the state becomes Step's; only Exit destroys the window; ids that change nothing leave the view untouched; a toggle or mode command re-applies the marks of the new state whatever the marks were before; the menu's marks stay in step with the state |
| Control.WndProc | main.go:424-445 | only tray and command messages affect the state; a tray left click, whatever the icon id in wParam, acts as the Enabled command; the window is destroyed exactly on WM_CLOSE, on WM_COMMAND whose low word is Exit, and on a right-click menu pick of Exit; a tray notification other than a left or right button-up changes nothing; a right click runs the picked command, or nothing if the menu was dismissed; WM_COMMAND hands its low word to handleCommand; WM_CLOSE destroys the window and changes nothing else; every message keeps the marks in step and the mode valid |
| Control.LeftClickIsToggle | main.go:429-432 | a left click on the tray icon, for any icon id in wParam, has the same effect as the Enabled menu command |
| Control.Run | main.go:519-529 | a run of messages none of which is a tray or command message leaves the view unchanged |
| Control.RunStopsAtDestroy | main.go:443-453 | once a message destroys the window (Exit or WM_CLOSE), the messages after it have no effect |
| Control.RunStaysConsistent | main.go:424-441 | over any sequence of window messages the mode stays valid and the menu marks match the state |
| Control.ReachableStatesAreConsistent | main.go:198-199 | from the start-up state (enabled, Alt+Shift, marks applied by buildMenus) every reachable state has a valid mode and exactly one checked mode item |
| Hook.Decide | main.go:262-289 | an event is swallowed iff it is an action event for Caps Lock, enabled, not injected, Shift up, and a key-down or key-up message; exactly the key-down ones send the mode's switch; all others send nothing |
| Hook.PassThroughCases | main.go:263-277 | a non-action hook code, a disabled engine, an injected event, a key other than Caps Lock, or Shift held each pass the event on with nothing sent |
| Hook.CapsLockCases | main.go:279-288 | a taken-over press is swallowed and sends exactly one batch, the mode's combo; its release is swallowed with nothing sent; other messages pass on |
| Hook.NoFeedback | main.go:269-273 | any key the engine itself injects, fed back to the hook, is passed on even without the injected flag |
| Hook.DecideMatchesClassify | main.go:262-289 | for action events the hook agrees with the ordered-rule classifier: enabled, then synthetic, then key, then Shift, then press/release |
| Hook.PressReleasePair | main.go:279-285 | a taken-over press and release are both swallowed, with one combo sent for the pair |
| Hook.OneSwitchPerPress | main.go:280-282 | over any stream of events, the number of SendInput calls equals the number of taken-over Caps Lock key-down messages, auto-repeats of a held key included |
| Hook.ReachableSwitchesUseTable | main.go:244-255 | from start-up the hook only ever sends the combo of a valid mode; the fallback branch is never reached |
| Hook.Scenarios | main.go:262-289 | from start-up a press sends Alt, Shift, Shift-up, Alt-up; with Shift held it passes on; after selecting Win+Space it sends Win, Space, Space-up, Win-up; after disabling it passes on |

## Left out

- Every Win32 call (SetWindowsHookExW, CallNextHookEx, SendInput, GetAsyncKeyState, CheckMenuItem, DestroyWindow, TrackPopupMenu). These are foreign calls. CallNextHookEx is the `CallNext` verdict, SendInput is the list of submitted batches with its return value ignored, GetAsyncKeyState is the `shiftDown` parameter, and the popup menu's pick is the `menuChoice` parameter.
- The memory layout of INPUT, KEYBDINPUT and KBDLLHOOKSTRUCT (padding to 40 bytes, pointer casts). These are ABI details. A record keeps only the type, key and flags; scan code, time and extra info are always zero.
- Window class registration, hidden window creation, tray icon add and remove, menu construction and tracking, WM_DESTROY teardown, the GetMessage loop's exit on WM_QUIT, and process start-up. These are GUI and OS lifecycle plumbing. `Run` stops at the first message that destroys the window instead.
- The wndProc return values and DefWindowProc. They have no effect on the engine's state.
- Threading (`runtime.LockOSThread`) and the OS's hook time-out. The model is single-threaded and has no clock.
