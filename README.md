# HBM port-access state machine

A model of `HBMReadAndWriteSM` from the litex-boards fork, the per-port machine
that performs one single-beat AXI write or one single-beat AXI read against an
HBM port of the Alveo U280, driven by CSRs the host writes over the SoC bus.

- It waits in `WAIT_INSTRUCTION` for `perform_read` or `perform_write`. A read
  request wins over a write request.
- A write goes `PREPARE_WRITE_COMMAND` (aw.valid, w.valid, the address
  `address_readwrite << 5`, the data `data_writein`, the strobe
  `strb_readwrite`) → `RESET_ADDR_WRITE` (waits for w.ready) →
  `PREPARE_W_RESPONSE` (b.ready) → `DONE_WRITE` (shows `b.resp` as `write_resp`).
- A read goes `PERFORM_READ_COMMAND` (ar.valid, the address) → `PERFORM_READ`
  (r.ready) → `DONE_READ` (shows `r.resp` as `read_resp` and `r.data`, split
  into eight 32-bit lanes, as `data_readout1..8`).
- A done state holds until `acknowledge_readwrite`, then the machine returns to
  `WAIT_INSTRUCTION`.

Every output is a migen combinational assignment made inside an FSM state, so a
signal a state does not drive is 0 in that state. The model follows that rule.

Files:

- `axi_words.dfy` (module `AxiWords`) holds the signal widths, the word-index to
  byte-address shift, and the 256-bit to 8 × 32-bit lane split with its inverse.
  The HBM port has a 256-bit data bus and a 33-bit address, so the strobe is 32
  bits wide.
- `port_fsm.dfy` (module `PortFsm`) holds the eight states and the next-state
  function `Next`. It also holds the AXI outputs of each state (`Outputs`, the
  code as written) and the status registers of each state (`StatusOf`).
- `port_traces.dfy` (module `PortTraces`) covers runs over many clocks. The host
  may rewrite the CSR storages and the slave may answer anything on every clock.
- `port_machine.dfy` (module `PortMachine`) holds the class
  `ReadAndWriteSM`. Its state register is updated by `Step` once per clock, and
  its CSR storages are rewritten by `HostWrite`.
- `channel_rules.dfy` (module `ChannelRules`) checks the AXI rule that VALID
  stays up until READY (section A3.2.1 of the AMBA AXI protocol specification).
  It holds the findings below and a corrected write path, with its own state,
  next-state function and outputs, that moves exactly one write beat per write.

## Model

| member | source | states |
|---|---|---|
| `AxiWords.ByteAddress` | litex_boards/targets/HBMPortAccess.py:133 | the shifted 28-bit word index fits the 33-bit AXI address, is 32-byte aligned, and divides back to the index |
| `AxiWords.AddressRoundTrip` | litex_boards/targets/HBMPortAccess.py:34-36 | word index and aligned byte address determine each other in both directions |
| `AxiWords.Lane` | litex_boards/targets/HBMPortAccess.py:217-224 | lane 0 is the low 32 bits of the word, and every lane above the word's width is 0 |
| `AxiWords.Join` | litex_boards/targets/HBMPortAccess.py:216-225 | recombining n lanes gives a value below 2^(32n) |
| `AxiWords.Readouts` | litex_boards/targets/HBMPortAccess.py:216-225 | the eight readouts of a 256-bit word recombine to that word |
| `AxiWords.JoinLanes` | litex_boards/targets/HBMPortAccess.py:216-225 | lanes k = bits [32k, 32k+32) of a value below 2^(32n) recombine to that value |
| `AxiWords.LaneOfJoin` | litex_boards/targets/HBMPortAccess.py:216-225 | lane k of a recombined word is the k-th lane put in |
| `AxiWords.ReadoutsOfJoin` | litex_boards/targets/HBMPortAccess.py:216-225 | splitting a recombined word gives the same eight lanes back, so the split is a bijection |
| `AxiWords.ReadoutsOfZero` | litex_boards/targets/HBMPortAccess.py:24 | data_sig at its reset value reads as eight zero readouts |
| `AxiWords.ReadoutsOfLaneZero` | litex_boards/targets/HBMPortAccess.py:134 | the 32-bit data_writein zero-extended onto the 256-bit bus sits in lane 0; the other lanes are 0 |
| `PortFsm.Outputs` | litex_boards/targets/HBMPortAccess.py:129-203 | aw.valid and w.valid are high only in PREPARE_WRITE_COMMAND, b.ready only in PREPARE_W_RESPONSE, ar.valid only in PERFORM_READ_COMMAND, r.ready only in PERFORM_READ; aw.addr/ar.addr carry the shifted address only in their command state and are 0 elsewhere (so aw.addr is 0 in RESET_ADDR_WRITE); w.data and w.strb carry the CSRs only in PREPARE_WRITE_COMMAND |
| `PortFsm.StatusOf` | litex_boards/targets/HBMPortAccess.py:112-225 | each `*_fsm` bit is high exactly in its own state, so at most one is high and none in RESET_ADDR_WRITE; exec_write_done and write_resp = b.resp only in DONE_WRITE; exec_read_done and read_resp = r.resp only in DONE_READ; the readouts recombine to r.data in DONE_READ and are all 0 elsewhere |
| `PortFsm.Next` | litex_boards/targets/HBMPortAccess.py:112-214 | each state moves exactly when the input it waits for arrives (a request in WAIT_INSTRUCTION, its own channel's handshake on each path, acknowledge_readwrite in a done state), and only along an edge of the state diagram |
| `PortFsm.DataSig` | litex_boards/targets/HBMPortAccess.py:208 | data_sig is r.data in DONE_READ and 0 in every other state |
| `PortFsm.OnlyDoneReturnsToWait` | litex_boards/targets/HBMPortAccess.py:175-214 | the next state is WAIT_INSTRUCTION iff the machine idles there or is in a done state with acknowledge_readwrite; done states are sticky iff acknowledge_readwrite is low |
| `PortFsm.StepAlongPath` | litex_boards/targets/HBMPortAccess.py:129-214 | outside WAIT_INSTRUCTION one clock stays, moves exactly one state along the same path, or returns to WAIT_INSTRUCTION |
| `PortTraces.Run` | litex_boards/targets/HBMPortAccess.py:108-109 | a run over n clocks has n + 1 states, starts at the given state, and each state is `Next` of the previous one under that clock's inputs |
| `PortTraces.StaysWhileNotAwaited` | litex_boards/targets/HBMPortAccess.py:112-214 | while none of the first j clocks brings what a state waits for, the machine is still in that state after each of them |
| `PortTraces.HoldsUntilAwaited` | litex_boards/targets/HBMPortAccess.py:112-214 | over any run, the machine is still in a state after j clocks, never having left it, iff none of those clocks brought the input that state waits for |
| `PortTraces.FirstAwaitedMoves` | litex_boards/targets/HBMPortAccess.py:112-214 | on the first clock that brings what a state waits for, the machine is still in it and then leaves it along an edge; from WAIT_INSTRUCTION it goes to PERFORM_READ_COMMAND iff perform_read is set on that clock, else to PREPARE_WRITE_COMMAND |
| `PortTraces.PathInOrder` | litex_boards/targets/HBMPortAccess.py:129-203 | a write (read) run kept away from WAIT_INSTRUCTION never enters a read (write) state, never moves backwards, and has visited every state of its path up to the current one |
| `PortTraces.WaitOnlyAfterAcknowledgedDone` | litex_boards/targets/HBMPortAccess.py:175-214 | a run from any path state reaches WAIT_INSTRUCTION only by leaving that path's done state on a clock with acknowledge_readwrite |
| `PortTraces.PromptCompletion` | litex_boards/targets/HBMPortAccess.py:129-214 | with every handshake answered at once and an immediate acknowledge, the machine walks its path one state per clock: a write is back in WAIT_INSTRUCTION after 4 clocks, a read after 3 |
| `PortTraces.IdleWithoutRequest` | litex_boards/targets/HBMPortAccess.py:112-128 | without perform_read or perform_write the machine never leaves WAIT_INSTRUCTION |
| `PortMachine.ReadAndWriteSM.constructor` | litex_boards/targets/HBMPortAccess.py:108 | the machine starts in WAIT_INSTRUCTION with every CSR storage 0 |
| `PortMachine.ReadAndWriteSM.HostWrite` | litex_boards/targets/HBMPortAccess.py:26-74 | the host rewrites the CSR storages and leaves the state register alone |
| `PortMachine.ReadAndWriteSM.Step` | litex_boards/targets/HBMPortAccess.py:108-214 | one clock: the AXI outputs (as written) and status of the current state, the state register moved to `Next`, the storages unchanged; WAIT_INSTRUCTION is entered only from itself or a done state |
| `ChannelRules.AddressValidHeld` | litex_boards/targets/HBMPortAccess.py:129-193 | aw.valid and ar.valid, once raised, stay up with the same address until aw.ready / ar.ready |
| `ChannelRules.LeavesResetAddrWriteWithoutBeat` | litex_boards/targets/HBMPortAccess.py:154-162 | as written, RESET_ADDR_WRITE is left on w.ready while w.valid is low, so no beat moves on that clock |
| `ChannelRules.WriteValidWithdrawn` | litex_boards/targets/HBMPortAccess.py:129-162 | as written, with aw.ready and no w.ready in PREPARE_WRITE_COMMAND, w.valid drops on the next clock without a handshake |
| `ChannelRules.WriteBeatRepeated` | litex_boards/targets/HBMPortAccess.py:129-140 | as written, with w.ready and no aw.ready in PREPARE_WRITE_COMMAND, the accepted beat is still offered, with the same data and strobe, on the next clock |
| `ChannelRules.HeldNext` | litex_boards/targets/HBMPortAccess.py:129-162 | corrected next state: as `Next` outside PREPARE_WRITE_COMMAND; there it waits for aw.ready, then goes to PREPARE_W_RESPONSE if the beat was already taken and to RESET_ADDR_WRITE otherwise |
| `ChannelRules.HeldOutputs` | litex_boards/targets/HBMPortAccess.py:237-244 | corrected outputs: w.valid, with data_writein and strb_readwrite, held through RESET_ADDR_WRITE until w.ready, as the write sequence at these lines does; dropped in PREPARE_WRITE_COMMAND once an early w.ready has taken the beat, which follows AXI's one transfer per handshake (second finding) rather than that sequence; every other output as written |
| `ChannelRules.HeldValidStable` | litex_boards/targets/HBMPortAccess.py:227-251 | with the correction, w.valid and aw.valid and their data, strobe and address stay up on every clock until their READY |
| `ChannelRules.HeldBeatLeavesResetAddrWrite` | litex_boards/targets/HBMPortAccess.py:154-162 | with the correction, RESET_ADDR_WRITE is left exactly on the clock its write beat is accepted |
| `ChannelRules.HeldRun` | litex_boards/targets/HBMPortAccess.py:108-109 | a corrected run over n clocks has n + 1 states, each `HeldNext` of the previous one |
| `ChannelRules.BeatStep` | litex_boards/targets/HBMPortAccess.py:129-174 | with the correction, on a clock that stays on the write path a beat moves exactly when the write passes from before its beat to after it |
| `ChannelRules.BeatsAlongWrite` | litex_boards/targets/HBMPortAccess.py:129-174 | with the correction, the beats moved along the write path equal the change of phase between the first and last state |
| `ChannelRules.OneBeatPerWrite` | litex_boards/targets/HBMPortAccess.py:129-174 | with the correction, a write from PREPARE_WRITE_COMMAND moves at most one beat, and exactly one once it reaches PREPARE_W_RESPONSE or DONE_WRITE |

## Findings

| source | as written | input that shows it | evidently intended | confidence | as-written member | corrected member |
|---|---|---|---|---|---|---|
| litex_boards/targets/HBMPortAccess.py:154-162 | RESET_ADDR_WRITE waits for w.ready but does not drive w.valid, w.data or w.strb, so they fall to 0 | in PREPARE_WRITE_COMMAND the slave raises aw.ready with w.ready low: the write beat is withdrawn unaccepted, and a slave that waits for w.valid never raises w.ready or answers on B | w.valid, w.data and w.strb stay up until w.ready, as in the write sequence at lines 227-251 from which the states were taken | medium, not executed | `ChannelRules.WriteValidWithdrawn` | `ChannelRules.HeldOutputs` |
| litex_boards/targets/HBMPortAccess.py:129-140 | PREPARE_WRITE_COMMAND keeps w.valid up until aw.ready, even after w.ready has accepted the beat | in PREPARE_WRITE_COMMAND the slave raises w.ready with aw.ready low on two clocks in a row: the same beat moves twice | w.valid drops once its beat is accepted, and the write goes on to the response once both address and beat are accepted: one beat per write | low, not executed | `ChannelRules.WriteBeatRepeated` | `ChannelRules.HeldNext` |

`PortFsm.Outputs`, `PortFsm.Next` and `ReadAndWriteSM.Step` keep the code as
written, and the as-written lemmas are stated over them. The corrected write
path is `HeldState`, `HeldNext` and `HeldOutputs`, proved to keep the VALID rule
(`HeldValidStable`) and to move exactly one beat per write (`OneBeatPerWrite`).

## Left out

- The CSR bus, its address decoding and the host's timing are not modelled. The
  host's writes are `HostWrite` calls, or the `Storage` of each clock in a run.
- The AXI slave (the HBM controller and memory) is not modelled. Its signals
  are arbitrary inputs to each clock, and no memory contents are assumed.
- Clock domains and reset generation are not modelled. Each clock is one `Step`,
  and reset is the constructor.
- The AXI fields the machine never drives are not modelled: len, size, burst,
  lock, cache, prot, qos, id and w.last. They stay at their reset value, 0.
- `HBMAXILiteAccess` (lines 271-400) is not modelled. Its `.eq(...)` statements
  are never added to `comb`, so it drives nothing.
- The commented-out `HBMAXILiteFunctionsAttempt` stub (lines 404-428) is not
  modelled. The commented-out write/read sequences (lines 227-268) are used only
  as the reference for the correction above.
- xilinx_alveo_u280.py, sitlinv_stlv7325.py and hbm_bist_test.py are board
  assembly, clocking, debug capture and argument parsing. They are not part of
  this model. The 32 per-port instances only replicate the machine.
- The 32-port instantiation at xilinx_alveo_u280.py:201 passes a shared CSR
  block and a port index, and the analyzer at lines 286-296 names burst/tick
  counters. The class shown has neither, so the model follows the class shown.
- Signals are modelled as bounded naturals (`U2`, `U28`, `U32`, `U33`, `U256`),
  not bit-vectors. No value is ever truncated: the shifted address fits 33 bits,
  and the 32-bit data_writein is zero-extended onto the 256-bit bus.
- The readouts follow `r.data` combinationally while the machine is in
  DONE_READ. They are not a latched copy of the beat accepted in PERFORM_READ,
  and the model keeps that behaviour.
