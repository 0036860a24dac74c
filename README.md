# Pulsar phase-shifter driver: the phase-bit register

The Pulsar is an 8-bit phase shifter on a serial line. Its driver keeps an
in-memory copy of the device register, `_bit_mask`. Eight named bits switch
the phase increments 1.4, 2.8, 5.6, 11.2, 22.5, 45, 90 and 180 degrees.
Setting a bit ORs its `mux` value into the register, or ANDs the register with
the 8-bit complement of that value. The driver then writes the register to the
device as one byte and reads one byte back. It checks that the echo equals the
register. Reading a bit tests the in-memory register only.

The model has three modules:

- `PhaseBits` (`phase_bits.dfy`): the table of eight entries and their `mux`
  values, and `Switch`, the register update `mask |= bit` / `mask &= ~bit & 0xFF`.
  The table's keys map to a `PhaseBit` datatype, and `MuxOf` gives each
  entry's bit.
- `MaskHistory` (`mask_history.dfy`): the register as a function of the set
  calls since construction (`Replay`). A reference definition, `OnMask`, is
  the OR of the bits whose most recent set was "on". The main theorem is that
  the two are equal.
- `PulsarDriver` (`pulsar.dfy`): the class `Pulsar`. Its field `bitMask` is
  updated in place, with `SetBit`, `GetBit` and `Write` as methods. Two ghost
  fields record every set call whose name is in the table, whether or not its
  echo matched (`history`), and every write/read exchange with the device (`transcript`). The object invariant `Valid()`
  has two parts. The register is the replay of the history. The device has
  been sent 0x00 at construction and then the register after each set call.

The serial transport is abstract. The byte the device echoes is a parameter
of each operation. Each `_write` appends one `Exchange(sent, echoed)` to the
ghost transcript. A failed echo check returns `Fail(EchoMismatch(sent, echoed))`.
An unknown bit name returns `Fail(UnknownBit(name))`, or `Failure(...)` from
`GetBit`. In the source these are an `AssertionError` and a `KeyError`.

The bit names are the table keys (`"1_4"`, ..., `"180"`) that
`_set_bit` and `_get_bit` receive. The `phase_` prefix belongs to the
parameter names of the instrument framework. The echo comparison is
discussed under Findings.

## Model

| member | source | states |
|---|---|---|
| PhaseBits.MuxOf | pulsar.py:5-38 | no contract; the `mux` column of the table, 0x01 for 1.4 up to 0x80 for 180 |
| PhaseBits.Table | pulsar.py:5-38 | no contract; the keys of the table, each mapped to its entry |
| PhaseBits.MuxIsSingleBit | pulsar.py:5-38 | every `mux` value in the table has exactly one bit set |
| PhaseBits.MuxDisjoint | pulsar.py:5-38 | two different table entries have disjoint `mux` bits, so the eight values are distinct |
| PhaseBits.AllBitsComplete | pulsar.py:5-38 | every entry is listed in `AllBits` and has a name in the table |
| PhaseBits.MuxCoversByte | pulsar.py:5-38 | the eight `mux` bits cover the byte: registers that agree on all eight bits are equal |
| PhaseBits.Switch | pulsar.py:127-130 | after `|=` (on) the bit is set, after `&= ~bit & 0xFF` (off) it is clear, and every other bit of the register is kept |
| PhaseBits.SwitchDecides | pulsar.py:127-130 | for a single-bit value, the switched bit reads on exactly when the call was "on" |
| PhaseBits.SwitchKeeps | pulsar.py:127-130 | switching a bit keeps every bit disjoint from it |
| PhaseBits.PyComplementByte | pulsar.py:130 | Python's `~bit & 0xFF` always lies in 0..255 |
| PhaseBits.NameRoundTrip | pulsar.py:5-38 | the table is one-to-one: every key names the entry it maps to, and every entry's key maps back to it |
| PhaseBits.ComplementMatchesPython | pulsar.py:130 | the 8-bit complement used by the model equals Python's `~bit & 0xFF`, that is 255 - bit |
| MaskHistory.ReplayBit | pulsar.py:125-139 | after any sequence of set calls from construction, a bit reads on exactly when its most recent set was "on"; a bit never set is off |
| MaskHistory.LastSetIsLastMention | pulsar.py:125-131 | a set call that no later call on the same bit follows decides that bit's most recent value |
| MaskHistory.ReplayIsOnMask | pulsar.py:125-131 | after any sequence of set calls, the register equals the OR of the `mux` values of exactly the bits whose most recent set was "on" |
| MaskHistory.OtherBitsUnchanged | pulsar.py:125-131 | setting or clearing one named bit leaves the other seven bits unchanged |
| MaskHistory.RepeatIsIdempotent | pulsar.py:125-131 | repeating a set call gives the same register as making it once |
| MaskHistory.Examples | pulsar.py:125-131 | concrete registers: no call gives 0x00, 1.4 and 90 on give 0x41, and 45 on, 90 on, 45 off give 0x40 |
| MaskHistory.AllOnIsFullByte | pulsar.py:5-38 | switching all eight bits on gives 0xFF |
| PulsarDriver.EchoCheckAsWritten | pulsar.py:144-145 | no contract; the comparison as written, the 1-tuple from `struct.unpack` against the integer register under Python's `==` |
| PulsarDriver.AsWrittenRejectsEveryEcho | pulsar.py:141-145 | the echo check as written (a 1-tuple compared with an int) fails for every echo |
| PulsarDriver.AsWrittenRejectsConstructionEcho | pulsar.py:117 | the write made at construction fails the check as written even when the device echoes 0x00 |
| PulsarDriver.EchoMatches | pulsar.py:143-145 | the intended check passes exactly when the echoed byte equals the register |
| PulsarDriver.Lookup | pulsar.py:126 | a name in the table yields its entry, whose key is that name; any other name is an `UnknownBit` error. No other name yields the same entry, and every other name's `mux` bit is disjoint from the one found, so bits addressed by different names never overlap |
| PulsarDriver.WrittenAt | pulsar.py:125-131 | the k-th byte written is the register after the first k set calls, with one write at construction and exactly one per set call |
| PulsarDriver.Pulsar.constructor | pulsar.py:48 | the register starts at 0x00, with no set calls and no exchanges yet |
| PulsarDriver.Pulsar.Open | pulsar.py:41-117 | construction writes 0x00 once. It succeeds exactly when the echo is 0x00, and then every bit reads off. Otherwise it fails with `EchoMismatch(0x00, echo)` and returns no driver |
| PulsarDriver.Pulsar.Write | pulsar.py:141-145 | appends exactly one exchange (the register sent, the echo read) and leaves the register as it is. It passes exactly when the echo equals the register; otherwise it fails with both bytes |
| PulsarDriver.Pulsar.SetBit | pulsar.py:125-131 | for a known name: the register becomes `Switch(old, on, mux)`, and the named bit then reads as given while the other seven keep their state. Exactly one exchange is recorded, carrying the new register. The call passes exactly when the echo matches, and on a mismatch the register is not reverted. `Valid()` is preserved. Every other name, known or unknown, reads the same through `GetBit` before and after. For an unknown name: `UnknownBit`, with nothing changed and nothing written |
| PulsarDriver.Pulsar.GetBit | pulsar.py:134-139 | a known name reads the state of its bit in the register; an unknown name is an `UnknownBit` error. On a valid driver the answer is "on" exactly when the most recent set of that bit was "on". As a function it changes nothing and writes nothing |

## Findings

| source | as written | input that shows it | evidently intended | confidence | as-written member | corrected member |
|---|---|---|---|---|---|---|
| pulsar.py:144-145 | `struct.unpack('B', raw)` returns a 1-tuple, and `mask == self._bit_mask` compares that tuple with an int, which is never equal in Python, so the assertion fails on every write | the write at construction (pulsar.py:117): the register 0x00 is sent and the device echoes 0x00, yet `(0,) == 0` is False | compare the unpacked byte itself, so the check passes exactly when the echo equals the byte sent | high; not executed | PulsarDriver.AsWrittenRejectsConstructionEcho | PulsarDriver.EchoMatches |

`PulsarDriver.EchoCheckAsWritten` models the comparison as written. It uses
`Unpack` and Python's `==` on an int and a tuple (`PyEquals`). The lemmas
`AsWrittenRejectsEveryEcho` and `AsWrittenRejectsConstructionEcho` show that
it never passes. `Pulsar.Write` uses the corrected `EchoMatches`.

## Left out

- The instrument framework (`VisaInstrument`, `add_parameter`, `validators.OnOff`, the `'on'/'off'` to 1/0 `val_mapping`, pulsar.py:1-2 and 50-116) is glue; the set value is a boolean.
- The serial transport (`visa_handle`, its baud rate, `write_raw`, `read_bytes`, `connect_message`, pulsar.py:45-46, 119, 142-143) is foreign I/O. It becomes an echo parameter and the ghost transcript of exchanges.
- `struct.pack('B', ...)` and `struct.unpack('B', ...)` are the identity on one unsigned byte, apart from the tuple returned by `unpack`, which is modelled for the finding above.
- The degree values (`'val'`) of the table are numbers (five floats and three ints) that no logic uses.
- `get_idn` (pulsar.py:121-122) returns a constant dictionary and has nothing to verify.
- Python integers are unbounded. The register is modelled as `bv8`, so its 0..255 range holds by type. `ComplementMatchesPython` shows that the 8-bit complement equals Python's `~bit & 0xFF`, and OR with a one-byte value cannot leave the byte.
- A failed assertion or table lookup raises an exception in Python. The model returns a `Fail`/`Failure` value instead. The driver object stays usable after a failed `SetBit`, as it does when a caller catches the exception. Running Python with assertions disabled (`-O`), which removes the echo check entirely, is not modelled.
- Pulsar.Open: the Python constructor cannot return a value, and Dafny constructors have no out-parameters. So construction is the static method `Open`, which builds the object with the bare constructor and then writes once. When the echo check fails, no object is returned, as when the Python constructor raises.
- Concurrency is out of scope: the driver is single-threaded and every write is a blocking round trip.
