/**
 The Win32 constants and integer widths the remapping engine works with.
 Values are those of the Windows SDK headers (winuser.h) as used by the
 program; only the ones the engine's logic consults are listed.
 */
module Win32 {

  type uint16 = x: int | 0 <= x < 0x1_0000
  type uint32 = x: int | 0 <= x < 0x1_0000_0000

  /** Truncation of a pointer-sized value to 32 bits, as Go's `uint32(x)`. */
  function ToUint32(x: nat): (r: uint32)
    ensures x < 0x1_0000_0000 ==> r == x
    ensures (r - x) % 0x1_0000_0000 == 0
  {
    x % 0x1_0000_0000
  }

  /** The low word of a message parameter, as `wParam & 0xffff`. */
  function LowWord(x: nat): (r: uint16)
    ensures x < 0x1_0000 ==> r == x
    ensures (r - x) % 0x1_0000 == 0
  {
    x % 0x1_0000
  }

  // Low-level keyboard hook
  const HC_ACTION: int := 0
  const LLKHF_INJECTED: bv32 := 0x0000_0010

  // Keyboard messages delivered to the hook as wParam
  const WM_KEYDOWN: nat := 0x0100
  const WM_KEYUP: nat := 0x0101
  const WM_SYSKEYDOWN: nat := 0x0104
  const WM_SYSKEYUP: nat := 0x0105

  // Virtual-key codes
  const VK_SHIFT: uint16 := 0x10
  const VK_CONTROL: uint16 := 0x11
  const VK_MENU: uint16 := 0x12   // Alt
  const VK_CAPITAL: uint16 := 0x14
  const VK_SPACE: uint16 := 0x20
  const VK_LWIN: uint16 := 0x5B

  // SendInput
  const INPUT_KEYBOARD: uint32 := 1
  const KEYEVENTF_KEYUP: uint32 := 0x0002

  // Window messages
  const WM_CLOSE: uint32 := 0x0010
  const WM_COMMAND: uint32 := 0x0111
  const WM_APP: uint32 := 0x8000
  const WM_TRAYICON: uint32 := WM_APP + 1
  const WM_LBUTTONUP: uint32 := 0x0202
  const WM_RBUTTONUP: uint32 := 0x0205

  // Menu check states
  const MF_UNCHECKED: uint32 := 0x0000
  const MF_CHECKED: uint32 := 0x0008

  // Menu command identifiers of the tray menu
  const CMD_TOGGLE_ENABLED: uint32 := 1001
  const CMD_MODE_CTRLSHIFT: uint32 := 1101
  const CMD_MODE_ALTSHIFT: uint32 := 1102
  const CMD_MODE_WINSPACE: uint32 := 1103
  const CMD_EXIT: uint32 := 1201
}
