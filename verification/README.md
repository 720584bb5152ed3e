# SPI command dispatch and half-duplex master toggle

A verified Dafny model of the two pieces of sequential logic in the plant-care
swarm firmware:

- **Command dispatch** (`interpretSPI.h`, module `InterpretSpi`). A slave that
  has received a message over SPI (a `command` byte and a `commandInfo` byte
  array) calls at most one actuator collaborator: command `0x01` (water
  plant) toggles the pump with `commandInfo[0]`; `0x02` (request sensor data)
  does nothing, its sampling call being commented out; `0x03` (audio) sends an
  audio command with `commandInfo[0..2]` verbatim; any other command does
  nothing and signals no error. The collaborators `togglePump` and the audio
  `sendCommand` are opaque: the `Action` datatype records which one is called
  and with which bytes. The message is a value and dispatch is a pure
  function, so dispatch cannot modify it, as in the source, which takes the
  `SPIdata` record by value.
- **Emulated SPI master** (`EmulateSPIMaster/mattoControlM.c`, module
  `SpiMaster`). The status variable toggles between transmit mode `'T'` and
  receive mode `'R'`. In `'T'`, `tx(d)` writes `d` to the data register SPDR
  and switches to `'R'`; in `'R'` it writes the dummy byte 120, whatever `d`
  is, and switches back to `'T'`. Both branches drive the slave-select line
  (port B pin 4) low before the write and high afterwards. The switch has no
  default case, so any other status makes `tx` a no-op. `tx` is modelled
  statement by statement as a list of register operations replayed on a
  `Machine` record (status, SPDR, PORTB). The driver loop of `main` is a
  fold of `tx` over the counter values 0..99 (`Run`), and also an imperative
  loop (`DriverPass`). The endless outer loop is modelled as any finite
  number of passes.

`bytes.dfy` defines the shared 8-bit `Byte` type (`bv8`); PORTB is a `bv8`,
so "no other port B pin changes" can be stated bit-exactly. The command
codes, the dummy byte 120, the select mask `_BV(PB4)` and the pass length
100 are the source's constants.

## Model

| member | source | states |
|---|---|---|
| InterpretSpi.TestReceived | interpretSPI.h:18-33 | The pump is toggled exactly when the command is 0x01 and audio is sent exactly when it is 0x03; every other command, 0x02 included, yields no action. The action's arguments are exactly the information bytes the command reads (one for watering, three for audio), unchanged and in order. The caller must supply that many information bytes, since the source indexes the array unchecked. |
| InterpretSpi.CommandCodesDistinct | interpretSPI.h:14-16 | The codes for watering, sensor request and audio are pairwise distinct. |
| InterpretSpi.WaterPlantTogglesPump | interpretSPI.h:21-24 | Command 0x01 with at least one information byte yields a single pump toggle carrying `commandInfo[0]`. |
| InterpretSpi.RequestSensorDataDoesNothing | interpretSPI.h:25-28 | Command 0x02 yields no actuator call. |
| InterpretSpi.AudioForwardsThreeBytes | interpretSPI.h:29-31 | Command 0x03 with at least three information bytes yields one audio command with `commandInfo[0]`, `[1]`, `[2]` in that order. |
| InterpretSpi.UnknownCommandDoesNothing | interpretSPI.h:20-32 | A command outside {1, 2, 3} yields no action and no error, as the switch has no default case. |
| InterpretSpi.DispatchReadsOnlyPrefix | interpretSPI.h:20-32 | Two messages with the same command that agree on the information bytes that command reads are dispatched to the same action, whatever else their arrays hold. |
| SpiMaster.Tx | EmulateSPIMaster/mattoControlM.c:36-54 | From `'T'`, `tx(d)` leaves `d` in SPDR and the status `'R'`. From `'R'` it leaves 120 in SPDR and the status `'T'`. In both modes the select line ends high and no other port B pin changes. From any other status nothing changes, and the status stays a mode exactly when it was one. |
| SpiMaster.TxEffect | EmulateSPIMaster/mattoControlM.c:38-53 | Replaying the four statements of either branch gives the next status, the mode's output byte in SPDR, and PORTB with the select bit cleared and then set. |
| SpiMaster.SelectBitFacts | EmulateSPIMaster/mattoControlM.c:40-51 | Clearing `_BV(PB4)` drives the select line low, setting it drives it high, and neither touches another port B pin. |
| SpiMaster.TxTwiceRestoresStatus | EmulateSPIMaster/mattoControlM.c:38-53 | Two consecutive `tx` calls restore the original status, whatever bytes are passed. |
| SpiMaster.TxWritesOnce | EmulateSPIMaster/mattoControlM.c:39-52 | In either mode a `tx` call writes the data register exactly once, with the caller's byte in `'T'` and 120 in `'R'`; otherwise it writes nothing. |
| SpiMaster.TxSelectsBeforeWrite | EmulateSPIMaster/mattoControlM.c:40-51 | The select line is low at the moment `tx` writes the data register. |
| SpiMaster.RunIsReplay | EmulateSPIMaster/mattoControlM.c:64-69 | Replaying the register operations of a sequence of `tx` calls gives the same master state as folding `tx` over the arguments. |
| SpiMaster.RunBusDiscipline | EmulateSPIMaster/mattoControlM.c:64-69 | Over any sequence of `tx` calls, every data-register write happens while the select line is low. |
| SpiMaster.RunStatus | EmulateSPIMaster/mattoControlM.c:64-69 | From either mode, an even number of `tx` calls returns to the starting status and an odd number leaves the other one. |
| SpiMaster.ReachableStatusIsMode | EmulateSPIMaster/mattoControlM.c:16-18 | Starting from the initial status `'T'`, the status is `'T'` or `'R'` after any sequence of `tx` calls. |
| SpiMaster.RunSends | EmulateSPIMaster/mattoControlM.c:39-52 | Over any sequence of calls from a mode, one byte goes out per call: the caller's byte on the calls made in transmit mode, 120 on the others. |
| SpiMaster.DriverPass | EmulateSPIMaster/mattoControlM.c:63-69 | One pass of the inner loop, started in `'T'`, ends in `'T'` with the select line high and the other pins unchanged. The hundred bytes written are `i` for even `i` and 120 for odd `i`. The result agrees with the fold over the counter values. |
| SpiMaster.PassSends | EmulateSPIMaster/mattoControlM.c:65-68 | The fold over the counter values 0..99 from `'T'` ends in `'T'` and sends `i` for even `i` and 120 for odd `i`. |
| SpiMaster.DriveSends | EmulateSPIMaster/mattoControlM.c:64-69 | After any number of passes of the endless outer loop from `'T'`, the status is `'T'` again and the bus has carried that hundred-byte pattern once per pass. |

## Left out

- SPI and port initialisation (`init_spi_master`, `init_interrupts`): hardware configuration. The model's initial state fixes only the status; the registers are parameters.
- `_delay_ms` and the `printf` debug output, including the read of SPDR in the receive-mode `printf`: timing and console I/O with no stated behaviour. The byte the slave clocks back is therefore not modelled.
- The bodies of `togglePump` and the audio `sendCommand`, and the layout of `SPIdata`: they are not part of this model. The actuator calls are opaque `Action` values, and the message is an abstract record with a byte sequence for `commandInfo`.
- The `printf` lines in `testReceived`: console output only.
- InterpretSpi.TestReceived: requires at least the information bytes the command reads. The source indexes a fixed C array without a check, and what a shorter message would yield depends on the unknown `SPIdata` layout.
- Clocking of the SPI hardware: the model records what is written to SPDR and PORTB, not when the shift register finishes. The source raises the select line without waiting for the transfer-complete flag.
