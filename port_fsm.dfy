/** One clock of the HBM port-access state machine (HBMReadAndWriteSM): its eight
    states, the next state chosen from the CSR storages and the AXI slave's
    signals, and the combinational outputs of each state. Every signal a state
    does not drive takes its reset value, 0, as migen does for combinational
    assignments made inside an FSM state. */
module PortFsm {
  import opened AxiWords

  datatype State =
    | WaitInstruction
    | PrepareWriteCommand
    | ResetAddrWrite
    | PrepareWResponse
    | DoneWrite
    | PerformReadCommand
    | PerformRead
    | DoneRead

  /** The CSR storages the host writes and the machine reads. */
  datatype Storage = Storage(
    performWrite: bool,
    performRead: bool,
    strbReadwrite: U32,
    addressReadwrite: U28,
    dataWritein: U32,
    acknowledgeReadwrite: bool)

  /** Every CSR storage at its reset value. */
  const ResetStorage := Storage(false, false, 0, 0, 0, false)

  /** The signals the AXI slave drives towards the machine. */
  datatype AxiIn = AxiIn(
    awReady: bool,
    wReady: bool,
    bValid: bool,
    bResp: U2,
    arReady: bool,
    rValid: bool,
    rData: U256,
    rResp: U2)

  /** The signals the machine drives on the AXI port. */
  datatype AxiOut = AxiOut(
    awValid: bool,
    awAddr: U33,
    wValid: bool,
    wData: U256,
    wStrb: U32,
    bReady: bool,
    arValid: bool,
    arAddr: U33,
    rReady: bool)

  /** The CSR status registers; dataReadout[k] is data_readout(k+1). */
  datatype Status = Status(
    waitinstructionFsm: bool,
    prepwritecommandFsm: bool,
    prepwriteresponseFsm: bool,
    donewriteFsm: bool,
    prepreadcommandFsm: bool,
    prepreadFsm: bool,
    donereadFsm: bool,
    execWriteDone: bool,
    execReadDone: bool,
    writeResp: U2,
    readResp: U2,
    dataReadout: seq<U32>)

  /** The states one clock can lead to from `s`, other than `s` itself: the
      edges of the state diagram. */
  function Successors(s: State): set<State>
  {
    match s
    case WaitInstruction => {PerformReadCommand, PrepareWriteCommand}
    case PrepareWriteCommand => {ResetAddrWrite}
    case ResetAddrWrite => {PrepareWResponse}
    case PrepareWResponse => {DoneWrite}
    case DoneWrite => {WaitInstruction}
    case PerformReadCommand => {PerformRead}
    case PerformRead => {DoneRead}
    case DoneRead => {WaitInstruction}
  }

  /** The input state `s` waits for: the request in WAIT_INSTRUCTION, the
      handshake of its own channel on each path, and acknowledge_readwrite in
      the done states. */
  predicate Awaited(s: State, csr: Storage, axi: AxiIn)
  {
    match s
    case WaitInstruction => csr.performRead || csr.performWrite
    case PrepareWriteCommand => axi.awReady
    case ResetAddrWrite => axi.wReady
    case PrepareWResponse => axi.bValid
    case DoneWrite => csr.acknowledgeReadwrite
    case PerformReadCommand => axi.arReady
    case PerformRead => axi.rValid
    case DoneRead => csr.acknowledgeReadwrite
  }

  /** The state the machine holds after the next clock edge. It moves exactly
      when the input it waits for is there, and only along an edge of the
      diagram. */
  function Next(s: State, csr: Storage, axi: AxiIn): (n: State)
    ensures n != s <==> Awaited(s, csr, axi)
    ensures n != s ==> n in Successors(s)
  {
    match s
    case WaitInstruction =>
      if csr.performRead then PerformReadCommand
      else if csr.performWrite then PrepareWriteCommand
      else WaitInstruction
    case PrepareWriteCommand => if axi.awReady then ResetAddrWrite else PrepareWriteCommand
    case ResetAddrWrite => if axi.wReady then PrepareWResponse else ResetAddrWrite
    case PrepareWResponse => if axi.bValid then DoneWrite else PrepareWResponse
    case DoneWrite => if csr.acknowledgeReadwrite then WaitInstruction else DoneWrite
    case PerformReadCommand => if axi.arReady then PerformRead else PerformReadCommand
    case PerformRead => if axi.rValid then DoneRead else PerformRead
    case DoneRead => if csr.acknowledgeReadwrite then WaitInstruction else DoneRead
  }

  /** All AXI outputs at their reset value. */
  const Quiet := AxiOut(false, 0, false, 0, 0, false, false, 0, false)

  /** The AXI outputs driven while in state `s`. Each valid or ready line is high
      in exactly one state; the addresses, write data and strobe carry the CSR
      values only in the state that presents them and are 0 everywhere else. */
  function Outputs(s: State, csr: Storage): (o: AxiOut)
    ensures o.awValid <==> s == PrepareWriteCommand
    ensures o.wValid <==> s == PrepareWriteCommand
    ensures o.bReady <==> s == PrepareWResponse
    ensures o.arValid <==> s == PerformReadCommand
    ensures o.rReady <==> s == PerformRead
    ensures o.awAddr == if s == PrepareWriteCommand then ByteAddress(csr.addressReadwrite) else 0
    ensures o.arAddr == if s == PerformReadCommand then ByteAddress(csr.addressReadwrite) else 0
    ensures o.wData == if s == PrepareWriteCommand then csr.dataWritein else 0
    ensures o.wStrb == if s == PrepareWriteCommand then csr.strbReadwrite else 0
  {
    match s
    case WaitInstruction => Quiet
    case PrepareWriteCommand =>
      Quiet.(awValid := true, awAddr := ByteAddress(csr.addressReadwrite),
             wData := csr.dataWritein, wValid := true, wStrb := csr.strbReadwrite)
    case ResetAddrWrite => Quiet.(awValid := false, awAddr := 0)
    case PrepareWResponse => Quiet.(wValid := false, wStrb := 0, bReady := true)
    case DoneWrite => Quiet.(bReady := false)
    case PerformReadCommand =>
      Quiet.(arValid := true, arAddr := ByteAddress(csr.addressReadwrite))
    case PerformRead => Quiet.(arValid := false, rReady := true)
    case DoneRead => Quiet.(rReady := false)
  }

  /** data_sig: the read-data bus while in DONE_READ, 0 otherwise. */
  function DataSig(s: State, axi: AxiIn): (d: U256)
    ensures d != 0 ==> s == DoneRead
    ensures s == DoneRead ==> d == axi.rData
  {
    if s == DoneRead then axi.rData else 0
  }

  /** How many of the seven per-state indicator bits are high. */
  function IndicatorCount(st: Status): nat
  {
    (if st.waitinstructionFsm then 1 else 0) +
    (if st.prepwritecommandFsm then 1 else 0) +
    (if st.prepwriteresponseFsm then 1 else 0) +
    (if st.donewriteFsm then 1 else 0) +
    (if st.prepreadcommandFsm then 1 else 0) +
    (if st.prepreadFsm then 1 else 0) +
    (if st.donereadFsm then 1 else 0)
  }

  /** The status registers while in state `s`. Each indicator bit belongs to one
      state, and RESET_ADDR_WRITE has none, so at most one is high. The done flags
      and the response codes are live only in their done state, and the eight
      readouts recombine to the read-data bus in DONE_READ and are 0 elsewhere. */
  function StatusOf(s: State, axi: AxiIn): (st: Status)
    ensures st.waitinstructionFsm <==> s == WaitInstruction
    ensures st.prepwritecommandFsm <==> s == PrepareWriteCommand
    ensures st.prepwriteresponseFsm <==> s == PrepareWResponse
    ensures st.donewriteFsm <==> s == DoneWrite
    ensures st.prepreadcommandFsm <==> s == PerformReadCommand
    ensures st.prepreadFsm <==> s == PerformRead
    ensures st.donereadFsm <==> s == DoneRead
    ensures IndicatorCount(st) == if s == ResetAddrWrite then 0 else 1
    ensures st.execWriteDone <==> s == DoneWrite
    ensures st.execReadDone <==> s == DoneRead
    ensures st.writeResp == if s == DoneWrite then axi.bResp else 0
    ensures st.readResp == if s == DoneRead then axi.rResp else 0
    ensures |st.dataReadout| == 8
    ensures s == DoneRead ==> Join(st.dataReadout) == axi.rData
    ensures s != DoneRead ==> forall k :: 0 <= k < 8 ==> st.dataReadout[k] == 0
  {
    ReadoutsOfZero();
    var quiet := Status(false, false, false, false, false, false, false,
                        false, false, 0, 0, Readouts(DataSig(s, axi)));
    match s
    case WaitInstruction => quiet.(waitinstructionFsm := true)
    case PrepareWriteCommand => quiet.(prepwritecommandFsm := true)
    case ResetAddrWrite => quiet
    case PrepareWResponse => quiet.(prepwriteresponseFsm := true)
    case DoneWrite => quiet.(donewriteFsm := true, execWriteDone := true, writeResp := axi.bResp)
    case PerformReadCommand => quiet.(prepreadcommandFsm := true)
    case PerformRead => quiet.(prepreadFsm := true)
    case DoneRead => quiet.(donereadFsm := true, execReadDone := true, readResp := axi.rResp)
  }

  /** The states of the write path and of the read path. */
  predicate IsWriteState(s: State)
  {
    s.PrepareWriteCommand? || s.ResetAddrWrite? || s.PrepareWResponse? || s.DoneWrite?
  }

  predicate IsReadState(s: State)
  {
    s.PerformReadCommand? || s.PerformRead? || s.DoneRead?
  }

  /** How far along its path a state is: 1 for the first state of a path. */
  function Rank(s: State): nat
  {
    match s
    case WaitInstruction => 0
    case PrepareWriteCommand => 1
    case ResetAddrWrite => 2
    case PrepareWResponse => 3
    case DoneWrite => 4
    case PerformReadCommand => 1
    case PerformRead => 2
    case DoneRead => 3
  }

  /** The done states hold until acknowledge_readwrite, and only they (or
      WAIT_INSTRUCTION itself) lead to WAIT_INSTRUCTION. */
  lemma OnlyDoneReturnsToWait(s: State, csr: Storage, axi: AxiIn)
    ensures Next(s, csr, axi) == WaitInstruction <==>
            (s == WaitInstruction && !csr.performRead && !csr.performWrite) ||
            ((s == DoneWrite || s == DoneRead) && csr.acknowledgeReadwrite)
    ensures (s == DoneWrite || s == DoneRead) ==>
            (Next(s, csr, axi) == s <==> !csr.acknowledgeReadwrite)
  {
  }

  /** One step outside WAIT_INSTRUCTION either stays, or moves one state further
      along the same path, or returns to WAIT_INSTRUCTION. */
  lemma StepAlongPath(s: State, csr: Storage, axi: AxiIn)
    requires s != WaitInstruction
    ensures var n := Next(s, csr, axi);
            n == WaitInstruction ||
            (IsWriteState(n) == IsWriteState(s) && IsReadState(n) == IsReadState(s) &&
             (n == s || Rank(n) == Rank(s) + 1))
  {
  }
}
