/** The Pulsar driver: an in-memory copy of the device's 8-bit phase register,
    switched one named bit at a time and written to the device after every
    change, each write checked against the byte the device echoes back.

    The serial transport is abstract: the byte the device echoes is a
    parameter of each operation, and the ghost `transcript` records every
    write/read exchange. */
module PulsarDriver {
  import opened PhaseBits
  import opened MaskHistory

  /** The answer of `_get_bit`: the strings 'on' and 'off'. */
  datatype OnOff = On | Off

  datatype Error =
    | UnknownBit(name: string)              // the table lookup raises KeyError
    | EchoMismatch(sent: Byte, echoed: Byte) // the echo assertion fails

  datatype Outcome = Pass | Fail(error: Error)

  datatype Result<T> = Success(value: T) | Failure(error: Error)

  /** One call of `_write`: the byte sent, then the byte read back. */
  datatype Exchange = Exchange(sent: Byte, echoed: Byte)

  /** The two kinds of Python value the echo check compares: an integer and
      a tuple of integers. */
  datatype PyValue = PyInt(n: int) | PyTuple(items: seq<int>)

  /** Python's `==` on these values: an integer never equals a tuple. */
  function PyEquals(a: PyValue, b: PyValue): bool {
    match (a, b)
    case (PyInt(x), PyInt(y)) => x == y
    case (PyTuple(xs), PyTuple(ys)) => xs == ys
    case _ => false
  }

  /** `struct.unpack('B', raw)` on one read byte: a 1-tuple. */
  function Unpack(raw: Byte): PyValue {
    PyTuple([raw as int])
  }

  /** The echo check as written: the unpacked tuple compared with the mask. */
  function EchoCheckAsWritten(raw: Byte, mask: Byte): bool {
    PyEquals(Unpack(raw), PyInt(mask as int))
  }

  /** As written, the check rejects every echo, even a faithful one. */
  lemma AsWrittenRejectsEveryEcho(raw: Byte, mask: Byte)
    ensures !EchoCheckAsWritten(raw, mask)
  {
  }

  /** The first write, at construction, sends 0x00; a device that echoes 0x00
      back still fails the check as written. */
  lemma AsWrittenRejectsConstructionEcho()
    ensures !EchoCheckAsWritten(0x00, 0x00)
  {
  }

  /** The echo check as intended: the single unpacked value compared with
      the mask, passing exactly when the device echoed the byte sent. */
  function EchoMatches(raw: Byte, mask: Byte): (ok: bool)
    ensures ok <==> raw == mask
  {
    PyEquals(PyInt(Unpack(raw).items[0]), PyInt(mask as int))
  }

  /** Looks a bit name up in the table, as `phase_bits[bit_string]` does. The
      entry found is named by no other key, and its `mux` bit is shared with
      no other name, so callers that address bits by name address disjoint
      bits. */
  function Lookup(name: string): (r: Result<PhaseBit>)
    ensures r.Success? <==> name in Table
    ensures r.Success? ==> Table[name] == r.value && NameOf(r.value) == name
    ensures r.Success? ==> forall n :: n in Table && n != name ==>
      Table[n] != r.value && MuxOf(Table[n]) & MuxOf(r.value) == 0
    ensures r.Failure? ==> r.error == UnknownBit(name)
  {
    if name in Table then
      var b := Table[name];
      NameRoundTrip(name, b);
      assert forall n :: n in Table && n != name ==> Table[n] != b by {
        forall n | n in Table && n != name
          ensures Table[n] != b
        {
          NameRoundTrip(n, b);
        }
      }
      assert forall n :: n in Table && n != name ==> MuxOf(Table[n]) & MuxOf(b) == 0 by {
        forall n | n in Table && n != name
          ensures MuxOf(Table[n]) & MuxOf(b) == 0
        {
          MuxDisjoint(Table[n], b);
        }
      }
      Success(b)
    else
      Failure(UnknownBit(name))
  }

  /** The bytes of an exchange log that were sent to the device, in order. */
  ghost function SentBytes(exchanges: seq<Exchange>): seq<Byte> {
    if exchanges == [] then []
    else SentBytes(exchanges[..|exchanges| - 1]) + [exchanges[|exchanges| - 1].sent]
  }

  /** The bytes the device should have been sent after `calls`: 0x00 at
      construction, then the register each call produced. */
  ghost function Written(calls: seq<SetCall>): seq<Byte> {
    if calls == [] then [0x00]
    else Written(calls[..|calls| - 1]) + [Replay(calls)]
  }

  /** The k-th byte written is the register after the first k set calls: one
      write at construction and exactly one per set call. */
  lemma {:induction false} WrittenAt(calls: seq<SetCall>, k: nat)
    requires k <= |calls|
    ensures |Written(calls)| == |calls| + 1
    ensures Written(calls)[k] == Replay(calls[..k])
  {
    if calls != [] {
      var prefix := calls[..|calls| - 1];
      if k < |calls| {
        WrittenAt(prefix, k);
        assert prefix[..k] == calls[..k];
      } else {
        WrittenAt(prefix, 0);
        assert calls[..k] == calls;
      }
    }
  }

  /** A set call followed by a write of the register it produced extends
      both logs by one byte. */
  lemma AppendExchange(calls: seq<SetCall>, exchanges: seq<Exchange>, c: SetCall, echo: Byte)
    requires SentBytes(exchanges) == Written(calls)
    ensures SentBytes(exchanges + [Exchange(Replay(calls + [c]), echo)]) == Written(calls + [c])
  {
  }

  class Pulsar {
    /** `_bit_mask`: the in-memory copy of the device register. */
    var bitMask: Byte
    /** Every set call since construction whose name is in the table, whether
        or not its echo matched, oldest first. */
    ghost var history: seq<SetCall>
    /** Every write/read exchange with the device, oldest first. */
    ghost var transcript: seq<Exchange>

    /** The register is the replay of the set calls, and the device was sent
        the register once at construction and once after every set call. */
    ghost predicate Valid()
      reads this
    {
      && bitMask == Replay(history)
      && SentBytes(transcript) == Written(history)
    }

    /** The register before the first write: `self._bit_mask = 0x00`. The
        object it yields does not satisfy `Valid()` yet, since the write at
        construction has not happened; `Open` is the way to build a driver. */
    constructor ()
      ensures bitMask == 0x00 && history == [] && transcript == []
    {
      bitMask := 0x00;
      history := [];
      transcript := [];
    }

    /** Construction: the register starts at 0x00 and is written once. If the
        echo does not match, construction fails and no driver is returned. */
    static method Open(echo: Byte) returns (r: Result<Pulsar>)
      ensures r.Success? <==> echo == 0x00
      ensures r.Failure? ==> r.error == EchoMismatch(0x00, echo)
      ensures r.Success? ==>
        && fresh(r.value)
        && r.value.Valid()
        && r.value.history == []
        && r.value.transcript == [Exchange(0x00, echo)]
      ensures r.Success? ==> forall p :: r.value.State(p) == Off
    {
      var p := new Pulsar();
      var w := p.Write(echo);
      if w.Pass? {
        r := Success(p);
      } else {
        r := Failure(w.error);
      }
    }

    /** `_write`: sends the register as one byte, reads one byte back, and
        passes exactly when that byte equals the register. The register is
        left as it is either way. */
    method Write(echo: Byte) returns (r: Outcome)
      modifies this`transcript
      ensures transcript == old(transcript) + [Exchange(bitMask, echo)]
      ensures r.Pass? <==> echo == bitMask
      ensures r.Fail? ==> r.error == EchoMismatch(bitMask, echo)
    {
      transcript := transcript + [Exchange(bitMask, echo)];
      if EchoMatches(echo, bitMask) {
        r := Pass;
      } else {
        r := Fail(EchoMismatch(bitMask, echo));
      }
    }

    /** `_set_bit`: switches the named bit on or off, then writes. An unknown
        name fails before anything changes. A mismatched echo fails after the
        register has been changed, and the change is not undone. */
    method SetBit(on: bool, bitString: string, echo: Byte) returns (r: Outcome)
      requires Valid()
      modifies this
      ensures Valid()
      ensures bitString !in Table ==>
        && r == Fail(UnknownBit(bitString))
        && bitMask == old(bitMask)
        && history == old(history)
        && transcript == old(transcript)
      ensures bitString in Table ==>
        && bitMask == Switch(old(bitMask), on, MuxOf(Table[bitString]))
        && history == old(history) + [SetCall(on, Table[bitString])]
        && transcript == old(transcript) + [Exchange(bitMask, echo)]
        && (r.Pass? <==> echo == bitMask)
        && (r.Fail? ==> r.error == EchoMismatch(bitMask, echo))
      ensures bitString in Table ==> State(Table[bitString]) == (if on then On else Off)
      ensures bitString in Table ==> forall p :: p != Table[bitString] ==> State(p) == old(State(p))
      ensures forall n :: n != bitString ==> GetBit(n) == old(GetBit(n))
    {
      var found := Lookup(bitString);
      if found.Failure? {
        return Fail(found.error);
      }
      var b := found.value;
      bitMask := Switch(bitMask, on, MuxOf(b));
      ReplayAppend(history, SetCall(on, b));
      AppendExchange(history, transcript, SetCall(on, b), echo);
      history := history + [SetCall(on, b)];
      r := Write(echo);
      forall p | p != b
        ensures State(p) == old(State(p))
      {
        OtherBitsUnchanged(old(bitMask), on, b, p);
      }
      MuxIsSingleBit(b);
      SwitchDecides(old(bitMask), on, MuxOf(b));
      forall n | n != bitString
        ensures GetBit(n) == old(GetBit(n))
      {
        if n in Table {
          assert Table[n] != b;
        }
      }
    }

    /** `_get_bit`: whether the named bit is on in the register. It reads the
        register only: no write, no change. On a valid driver the answer is
        "on" exactly when the most recent set of that bit was "on". */
    function GetBit(bitString: string): (r: Result<OnOff>)
      reads this
      ensures r.Failure? <==> bitString !in Table
      ensures r.Failure? ==> r.error == UnknownBit(bitString)
      ensures r.Success? ==> r.value == State(Table[bitString])
      ensures Valid() && r.Success? ==>
        (r.value == On <==> LastSet(history, Table[bitString]) == Some(true))
    {
      match Lookup(bitString)
      case Failure(e) => Failure(e)
      case Success(b) =>
        ReplayBit(history, b);
        Success(State(b))
    }

    /** The state of one entry's bit in the register. */
    function State(b: PhaseBit): OnOff
      reads this
    {
      if MuxOf(b) & bitMask != 0 then On else Off
    }
  }

  /** Construction, then 45 and 90 switched on with faithful echoes: the
      device is sent 0x00, 0x20 and 0x60. Setting 90 again sends 0x60 once
      more. A wrong echo fails the call but keeps the new register. */
  method Scenario() {
    var started := Pulsar.Open(0x00);
    var p := started.value;
    var s1 := p.SetBit(true, "45", 0x20);
    var s2 := p.SetBit(true, "90", 0x60);
    assert s1 == Pass && s2 == Pass;
    assert p.transcript == [Exchange(0x00, 0x00), Exchange(0x20, 0x20), Exchange(0x60, 0x60)];
    assert p.GetBit("45") == Success(On) && p.GetBit("90") == Success(On);
    assert p.GetBit("1_4") == Success(Off);

    var s3 := p.SetBit(true, "90", 0x60);
    assert s3 == Pass && p.bitMask == 0x60 && |p.transcript| == 4;

    var s4 := p.SetBit(false, "45", 0x60);
    assert s4 == Fail(EchoMismatch(0x40, 0x60));
    assert p.bitMask == 0x40 && p.GetBit("45") == Success(Off);

    var s5 := p.SetBit(true, "360", 0x00);
    assert s5 == Fail(UnknownBit("360")) && p.bitMask == 0x40 && |p.transcript| == 5;
  }
}
