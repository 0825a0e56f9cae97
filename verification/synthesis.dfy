/**
 The input synthesizer: the batch of keyboard INPUT records that
 `sendKeyCombo` hands to SendInput. A batch is all presses of the down list
 in order, with no flags, followed by all releases of the up list in order,
 flagged KEYEVENTF_KEYUP. An empty batch is never submitted.
 */
module Synthesis {
  import opened Win32

  /** One keyboard INPUT record; scan code, time and extra info stay zero. */
  datatype KeyInput = KeyInput(inputType: uint32, vk: uint16, flags: uint32)

  predicate IsRelease(k: KeyInput) {
    k.flags == KEYEVENTF_KEYUP
  }

  /** The records for one phase of a combo: every key of `vks`, in order, with `flags`. */
  function Phase(vks: seq<uint16>, flags: uint32): (r: seq<KeyInput>)
    ensures |r| == |vks|
    ensures forall i :: 0 <= i < |r| ==> r[i] == KeyInput(INPUT_KEYBOARD, vks[i], flags)
  {
    if vks == [] then [] else [KeyInput(INPUT_KEYBOARD, vks[0], flags)] + Phase(vks[1..], flags)
  }

  /** The batch `sendKeyCombo(down, up)` builds. */
  function Batch(down: seq<uint16>, up: seq<uint16>): (r: seq<KeyInput>)
    ensures |r| == |down| + |up|
    ensures forall i :: 0 <= i < |down| ==> r[i] == KeyInput(INPUT_KEYBOARD, down[i], 0)
    ensures forall j :: 0 <= j < |up| ==> r[|down| + j] == KeyInput(INPUT_KEYBOARD, up[j], KEYEVENTF_KEYUP)
  {
    Phase(down, 0) + Phase(up, KEYEVENTF_KEYUP)
  }

  /** Every record of a batch carries a key of its down list or of its up list. */
  lemma BatchKeys(down: seq<uint16>, up: seq<uint16>)
    ensures forall k :: k in Batch(down, up) ==> k.vk in down || k.vk in up
  {
    var b := Batch(down, up);
    forall k | k in b
      ensures k.vk in down || k.vk in up
    {
      var i :| 0 <= i < |b| && b[i] == k;
      if i >= |down| {
        assert b[|down| + (i - |down|)].vk == up[i - |down|];
      }
    }
  }

  /** The SendInput calls made for a batch: none for an empty batch, else one. */
  function Submit(batch: seq<KeyInput>): (calls: seq<seq<KeyInput>>)
    ensures batch == [] <==> calls == []
    ensures batch != [] ==> calls == [batch]
  {
    if |batch| == 0 then [] else [batch]
  }

  /**
   `sendKeyCombo` as the program writes it: two loops appending to `inputs`,
   then one SendInput call unless `inputs` is empty. `calls` lists the
   batches submitted.
   */
  method SendKeyCombo(down: seq<uint16>, up: seq<uint16>) returns (inputs: seq<KeyInput>, calls: seq<seq<KeyInput>>)
    ensures |inputs| == |down| + |up|
    ensures forall i :: 0 <= i < |down| ==> inputs[i] == KeyInput(INPUT_KEYBOARD, down[i], 0)
    ensures forall j :: 0 <= j < |up| ==> inputs[|down| + j] == KeyInput(INPUT_KEYBOARD, up[j], KEYEVENTF_KEYUP)
    ensures inputs == Batch(down, up)
    ensures |down| + |up| == 0 ==> calls == []
    ensures |down| + |up| > 0 ==> calls == [inputs]
  {
    inputs := [];
    var i := 0;
    while i < |down|
      invariant 0 <= i <= |down|
      invariant |inputs| == i
      invariant forall k :: 0 <= k < i ==> inputs[k] == KeyInput(INPUT_KEYBOARD, down[k], 0)
    {
      inputs := inputs + [KeyInput(INPUT_KEYBOARD, down[i], 0)];
      i := i + 1;
    }
    var j := 0;
    while j < |up|
      invariant 0 <= j <= |up|
      invariant |inputs| == |down| + j
      invariant forall k :: 0 <= k < |down| ==> inputs[k] == KeyInput(INPUT_KEYBOARD, down[k], 0)
      invariant forall k :: 0 <= k < j ==> inputs[|down| + k] == KeyInput(INPUT_KEYBOARD, up[k], KEYEVENTF_KEYUP)
    {
      inputs := inputs + [KeyInput(INPUT_KEYBOARD, up[j], KEYEVENTF_KEYUP)];
      j := j + 1;
    }
    var batch := Batch(down, up);
    assert forall k :: 0 <= k < |inputs| ==> inputs[k] == batch[k] by {
      forall k | 0 <= k < |inputs|
        ensures inputs[k] == batch[k]
      {
        if k >= |down| {
          assert batch[|down| + (k - |down|)] == KeyInput(INPUT_KEYBOARD, up[k - |down|], KEYEVENTF_KEYUP);
        }
      }
    }
    assert inputs == batch;
    calls := Submit(inputs);
  }

  /** Outcome of replaying a batch: the keys left held, or a crossed release. */
  datatype Replayed = Nested(held: seq<uint16>) | Crossed

  /**
   The keys a batch leaves held when it is replayed onto the keys already
   held in `held` (a stack, most recent press last). A release must lift the
   most recently pressed key that is still down; otherwise the batch is not
   properly nested and the replay yields Crossed.
   */
  function Replay(held: seq<uint16>, batch: seq<KeyInput>): Replayed
    decreases |batch|
  {
    if batch == [] then Nested(held)
    else if !IsRelease(batch[0]) then Replay(held + [batch[0].vk], batch[1..])
    else if |held| > 0 && held[|held| - 1] == batch[0].vk then Replay(held[..|held| - 1], batch[1..])
    else Crossed
  }

  /** The reverse of a key list: last key first. */
  function Reverse(vks: seq<uint16>): (r: seq<uint16>)
    ensures |r| == |vks|
    ensures forall i :: 0 <= i < |vks| ==> r[i] == vks[|vks| - 1 - i]
  {
    if vks == [] then [] else [vks[|vks| - 1]] + Reverse(vks[..|vks| - 1])
  }

  /** Reversing a key list keeps each key and its number of occurrences. */
  lemma {:induction false} ReverseSameKeys(vks: seq<uint16>)
    ensures multiset(Reverse(vks)) == multiset(vks)
    decreases |vks|
  {
    if vks != [] {
      var init := vks[..|vks| - 1];
      ReverseSameKeys(init);
      assert vks == init + [vks[|vks| - 1]];
    }
  }

  /** Replaying a press phase pushes its keys, in order, onto the held stack. */
  lemma {:induction false} ReplayPresses(held: seq<uint16>, down: seq<uint16>, rest: seq<KeyInput>)
    ensures Replay(held, Phase(down, 0) + rest) == Replay(held + down, rest)
    decreases |down|
  {
    if down == [] {
      assert Phase(down, 0) + rest == rest;
      assert held + down == held;
    } else {
      var p := KeyInput(INPUT_KEYBOARD, down[0], 0);
      assert Phase(down, 0) + rest == [p] + (Phase(down[1..], 0) + rest);
      assert ([p] + (Phase(down[1..], 0) + rest))[1..] == Phase(down[1..], 0) + rest;
      ReplayPresses(held + [down[0]], down[1..], rest);
      assert held + [down[0]] + down[1..] == held + down;
    }
  }

  /** Replaying the reversed releases of `down` pops exactly what pressing `down` pushed. */
  lemma {:induction false} ReplayReleases(held: seq<uint16>, down: seq<uint16>, rest: seq<KeyInput>)
    ensures Replay(held + down, Phase(Reverse(down), KEYEVENTF_KEYUP) + rest) == Replay(held, rest)
    decreases |down|
  {
    if down == [] {
      assert Phase(Reverse(down), KEYEVENTF_KEYUP) + rest == rest;
      assert held + down == held;
    } else {
      var last := down[|down| - 1];
      var init := down[..|down| - 1];
      var r := KeyInput(INPUT_KEYBOARD, last, KEYEVENTF_KEYUP);
      var tail := Phase(Reverse(init), KEYEVENTF_KEYUP) + rest;
      assert Reverse(down) == [last] + Reverse(init);
      assert Phase(Reverse(down), KEYEVENTF_KEYUP) == [r] + Phase(Reverse(init), KEYEVENTF_KEYUP);
      assert Phase(Reverse(down), KEYEVENTF_KEYUP) + rest == [r] + tail;
      assert ([r] + tail)[1..] == tail;
      var h := held + down;
      assert h[|h| - 1] == last;
      assert h[..|h| - 1] == held + init;
      ReplayReleases(held, init, rest);
    }
  }

  /**
   A batch whose up list is the reverse of its down list is properly nested
   and leaves nothing held: every release lifts the most recent press.
   */
  lemma MirroredBatchIsBalanced(down: seq<uint16>)
    ensures Replay([], Batch(down, Reverse(down))) == Nested([])
  {
    var ups := Phase(Reverse(down), KEYEVENTF_KEYUP);
    ReplayPresses([], down, ups);
    assert [] + down == down;
    ReplayReleases([], down, []);
    assert ups + [] == ups;
    assert [] + down == down;
    assert Replay([], []) == Nested([]);
  }
}
