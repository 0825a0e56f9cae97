/**
 The mode table: which key combination a language switch synthesizes for
 each switch mode. `SwitchMode` is an integer, as in the program, so an
 out-of-range value can be represented; it falls back to Ctrl+Shift.
 */
module Modes {
  import opened Win32
  import opened Synthesis

  type SwitchMode = int

  const ModeCtrlShift: SwitchMode := 0
  const ModeAltShift: SwitchMode := 1
  const ModeWinSpace: SwitchMode := 2

  predicate ValidMode(m: SwitchMode) {
    m == ModeCtrlShift || m == ModeAltShift || m == ModeWinSpace
  }

  /** A combo: the keys pressed, in order, then the keys released, in order. */
  datatype Combo = Combo(down: seq<uint16>, up: seq<uint16>)

  /** No key appears twice in the list. */
  predicate Distinct(vks: seq<uint16>) {
    forall i, j :: 0 <= i < j < |vks| ==> vks[i] != vks[j]
  }

  /** The combo `triggerLanguageSwitch` sends for mode `m`. */
  function ComboFor(m: SwitchMode): (r: Combo)
    ensures |r.down| > 0 && Distinct(r.down)
    ensures r.up == Reverse(r.down)
    ensures VK_CAPITAL !in r.down && VK_CAPITAL !in r.up
  {
    if m == ModeCtrlShift then Pair(VK_CONTROL, VK_SHIFT)
    else if m == ModeAltShift then Pair(VK_MENU, VK_SHIFT)
    else if m == ModeWinSpace then Pair(VK_LWIN, VK_SPACE)
    else Pair(VK_CONTROL, VK_SHIFT)
  }

  /** Press `a` then `b`; release `b` then `a`. */
  function Pair(a: uint16, b: uint16): (r: Combo)
    requires a != b
    ensures r.down == [a, b] && r.up == Reverse(r.down)
    ensures Distinct(r.down)
    ensures forall k :: k in r.up <==> k == a || k == b
  {
    assert Reverse([a, b]) == [b] + Reverse([a]);
    Combo([a, b], [b, a])
  }

  /** The table of the program, mode by mode; any other value sends Ctrl+Shift. */
  lemma ComboTable(m: SwitchMode)
    ensures m == ModeCtrlShift ==> ComboFor(m) == Combo([VK_CONTROL, VK_SHIFT], [VK_SHIFT, VK_CONTROL])
    ensures m == ModeAltShift ==> ComboFor(m) == Combo([VK_MENU, VK_SHIFT], [VK_SHIFT, VK_MENU])
    ensures m == ModeWinSpace ==> ComboFor(m) == Combo([VK_LWIN, VK_SPACE], [VK_SPACE, VK_LWIN])
    ensures !ValidMode(m) ==> ComboFor(m) == ComboFor(ModeCtrlShift)
  {
  }

  /** Every combo releases exactly the keys it pressed, each once. */
  lemma ComboReleasesWhatItPresses(m: SwitchMode)
    ensures multiset(ComboFor(m).up) == multiset(ComboFor(m).down)
    ensures forall k :: k in ComboFor(m).up <==> k in ComboFor(m).down
  {
    var c := ComboFor(m);
    ReverseSameKeys(c.down);
    assert multiset(c.up) == multiset(c.down);
    forall k
      ensures k in c.up <==> k in c.down
    {
      assert k in c.up <==> k in multiset(c.up);
      assert k in c.down <==> k in multiset(c.down);
    }
  }

  /** The SendInput calls one language switch makes in mode `m`. */
  function TriggerLanguageSwitch(m: SwitchMode): (calls: seq<seq<KeyInput>>)
    ensures |calls| == 1
    ensures calls[0] == Batch(ComboFor(m).down, ComboFor(m).up)
    ensures forall k :: k in calls[0] ==> k.vk != VK_CAPITAL
  {
    var c := ComboFor(m);
    var b := Batch(c.down, c.up);
    BatchKeys(c.down, c.up);
    Submit(b)
  }

  /** Every language switch leaves no key held and releases in reverse press order. */
  lemma SwitchIsBalanced(m: SwitchMode)
    ensures Replay([], TriggerLanguageSwitch(m)[0]) == Nested([])
  {
    MirroredBatchIsBalanced(ComboFor(m).down);
  }

  /** The three valid modes synthesize three different combos. */
  lemma ModesAreDistinguishable(m1: SwitchMode, m2: SwitchMode)
    requires ValidMode(m1) && ValidMode(m2) && m1 != m2
    ensures ComboFor(m1) != ComboFor(m2)
  {
  }
}
