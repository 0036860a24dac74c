/** The register as a function of the set calls made since construction,
    and a reference definition of it: the OR of the `mux` values of the bits
    whose most recent set was "on". */
module MaskHistory {
  import opened PhaseBits

  datatype Option<T> = None | Some(value: T)

  /** One `_set_bit(val, bit_string)` call whose name was found in the table. */
  datatype SetCall = SetCall(on: bool, bit: PhaseBit)

  /** The register after `calls`, starting from the 0x00 of construction. */
  function Replay(calls: seq<SetCall>): Byte {
    if calls == [] then 0x00
    else
      var c := calls[|calls| - 1];
      Switch(Replay(calls[..|calls| - 1]), c.on, MuxOf(c.bit))
  }

  /** One more call switches the replayed register once more. */
  lemma ReplayAppend(calls: seq<SetCall>, c: SetCall)
    ensures Replay(calls + [c]) == Switch(Replay(calls), c.on, MuxOf(c.bit))
  {
  }

  /** The value given by the most recent call that names `b`, if any. */
  function LastSet(calls: seq<SetCall>, b: PhaseBit): Option<bool> {
    if calls == [] then None
    else if calls[|calls| - 1].bit == b then Some(calls[|calls| - 1].on)
    else LastSet(calls[..|calls| - 1], b)
  }

  /** `LastSet` finds the last call that names a bit: a call with no later
      call on the same bit decides it. */
  lemma {:induction false} LastSetIsLastMention(calls: seq<SetCall>, k: nat)
    requires k < |calls|
    requires forall j :: k < j < |calls| ==> calls[j].bit != calls[k].bit
    ensures LastSet(calls, calls[k].bit) == Some(calls[k].on)
  {
    if k < |calls| - 1 {
      var prefix := calls[..|calls| - 1];
      assert prefix[k] == calls[k];
      LastSetIsLastMention(prefix, k);
    }
  }

  /** Reference register: the OR of the `mux` values of those of `bits`
      whose most recent set was "on". */
  function OnMask(bits: seq<PhaseBit>, calls: seq<SetCall>): Byte {
    if bits == [] then 0x00
    else
      (if LastSet(calls, bits[0]) == Some(true) then MuxOf(bits[0]) else 0x00)
      | OnMask(bits[1..], calls)
  }

  /** One bit of the replayed register is on exactly when the most recent
      set of that bit was "on"; bits never set are off. */
  lemma {:induction false} ReplayBit(calls: seq<SetCall>, b: PhaseBit)
    ensures Replay(calls) & MuxOf(b) != 0 <==> LastSet(calls, b) == Some(true)
  {
    if calls != [] {
      var prefix, c := calls[..|calls| - 1], calls[|calls| - 1];
      ReplayBit(prefix, b);
      if c.bit == b {
        MuxIsSingleBit(b);
        SwitchDecides(Replay(prefix), c.on, MuxOf(b));
      } else {
        MuxDisjoint(c.bit, b);
        SwitchKeeps(Replay(prefix), c.on, MuxOf(c.bit), MuxOf(b));
      }
    }
  }

  /** One bit of the reference register is on exactly when it is listed
      and its most recent set was "on". */
  lemma {:induction false} OnMaskBit(bits: seq<PhaseBit>, calls: seq<SetCall>, b: PhaseBit)
    ensures OnMask(bits, calls) & MuxOf(b) != 0 <==> b in bits && LastSet(calls, b) == Some(true)
  {
    if bits != [] {
      var head: Byte := if LastSet(calls, bits[0]) == Some(true) then MuxOf(bits[0]) else 0x00;
      var rest := OnMask(bits[1..], calls);
      OnMaskBit(bits[1..], calls, b);
      assert b in bits <==> b == bits[0] || b in bits[1..];
      OrAtBit(head, rest, MuxOf(b));
      if bits[0] == b {
        MuxIsSingleBit(b);
      } else {
        MuxDisjoint(bits[0], b);
      }
    }
  }

  /** After any sequence of set calls the register is the OR of the `mux`
      values of exactly the bits whose most recent set was "on". */
  lemma ReplayIsOnMask(calls: seq<SetCall>)
    ensures Replay(calls) == OnMask(AllBits, calls)
  {
    forall p: PhaseBit
      ensures Replay(calls) & MuxOf(p) == OnMask(AllBits, calls) & MuxOf(p)
    {
      MuxIsSingleBit(p);
      AllBitsComplete(p);
      ReplayBit(calls, p);
      OnMaskBit(AllBits, calls, p);
    }
    MuxCoversByte(Replay(calls), OnMask(AllBits, calls));
  }

  /** Setting a bit leaves the other seven bits of the register as they were. */
  lemma OtherBitsUnchanged(mask: Byte, on: bool, b: PhaseBit, other: PhaseBit)
    requires b != other
    ensures Switch(mask, on, MuxOf(b)) & MuxOf(other) == mask & MuxOf(other)
  {
  }

  /** Repeating a set call leaves the register where the first call put it. */
  lemma {:induction false} RepeatIsIdempotent(calls: seq<SetCall>, c: SetCall)
    ensures Replay(calls + [c, c]) == Replay(calls + [c])
  {
    assert (calls + [c, c])[..|calls| + 1] == calls + [c];
    assert (calls + [c])[..|calls|] == calls;
  }

  /** Registers for a few call sequences: none on, 1.4 with 90 on, and 45
      switched on and off again around 90. */
  lemma Examples()
    ensures Replay([]) == 0x00
    ensures Replay([SetCall(true, P1_4), SetCall(true, P90)]) == 0x41
    ensures Replay([SetCall(true, P45), SetCall(true, P90), SetCall(false, P45)]) == 0x40
  {
  }

  /** Switching every bit on, in table order, gives the full byte 0xFF. */
  lemma AllOnIsFullByte()
    ensures Replay(seq(8, i requires 0 <= i < 8 => SetCall(true, AllBits[i]))) == 0xFF
  {
    var calls := seq(8, i requires 0 <= i < 8 => SetCall(true, AllBits[i]));
    forall p: PhaseBit
      ensures Replay(calls) & MuxOf(p) == 0xFF & MuxOf(p)
    {
      MuxIsSingleBit(p);
      ReplayBit(calls, p);
      AllBitsComplete(p);
      var k :| 0 <= k < 8 && AllBits[k] == p;
      LastSetIsLastMention(calls, k);
    }
    MuxCoversByte(Replay(calls), 0xFF);
  }
}
