/** The port-access machine as the hardware holds it: a state register that the
    FSM updates once per clock, beside the CSR storages that the host rewrites
    between clocks. */
module PortMachine {
  import opened PortFsm

  class ReadAndWriteSM {
    /** The FSM's state register. */
    var state: State
    /** perform_write, perform_read, strb_readwrite, address_readwrite,
        data_writein and acknowledge_readwrite. */
    var storage: Storage

    /** Out of reset: WAIT_INSTRUCTION, every CSR storage 0. */
    constructor ()
      ensures state == WaitInstruction && storage == ResetStorage
    {
      state := WaitInstruction;
      storage := ResetStorage;
    }

    /** The host writes the CSR storages; the state register is untouched. */
    method HostWrite(c: Storage)
      modifies this
      ensures storage == c && state == old(state)
    {
      storage := c;
    }

    /** One clock. Returns what the machine drives on the AXI port and shows in
        its status registers during the clock, which depend on the state it had
        before the edge, and leaves the state register at the next state. */
    method Step(axi: AxiIn) returns (out: AxiOut, status: Status)
      modifies this
      ensures out == Outputs(old(state), storage) && status == StatusOf(old(state), axi)
      ensures state == Next(old(state), storage, axi) && storage == old(storage)
      ensures state == WaitInstruction ==>
                old(state) in {WaitInstruction, DoneWrite, DoneRead}
    {
      out := Outputs(state, storage);
      status := StatusOf(state, axi);
      match state {
        case WaitInstruction =>
          if storage.performRead {
            state := PerformReadCommand;
          } else if storage.performWrite {
            state := PrepareWriteCommand;
          }
        case PrepareWriteCommand =>
          if axi.awReady {
            state := ResetAddrWrite;
          }
        case ResetAddrWrite =>
          if axi.wReady {
            state := PrepareWResponse;
          }
        case PrepareWResponse =>
          if axi.bValid {
            state := DoneWrite;
          }
        case DoneWrite =>
          if storage.acknowledgeReadwrite {
            state := WaitInstruction;
          }
        case PerformReadCommand =>
          if axi.arReady {
            state := PerformRead;
          }
        case PerformRead =>
          if axi.rValid {
            state := DoneRead;
          }
        case DoneRead =>
          if storage.acknowledgeReadwrite {
            state := WaitInstruction;
          }
      }
    }
  }
}
