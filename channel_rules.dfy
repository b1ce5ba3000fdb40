/** The AXI rule that a source, once it raises VALID on a channel, keeps VALID
    (and the payload) up until the clock on which READY is also high (section
    A3.2.1 of the AMBA AXI protocol specification), checked against the
    machine's address and write-data channels.

    The address channels keep the rule. The write-data channel does not, as
    written, in two ways. RESET_ADDR_WRITE waits for w.ready but does not drive
    w.valid, so the beat raised in PREPARE_WRITE_COMMAND is withdrawn when the
    address is accepted before the data. And PREPARE_WRITE_COMMAND keeps w.valid
    up until aw.ready even after w.ready has taken the beat, so a beat accepted
    before the address is offered again.

    The corrected machine (HeldState, HeldNext, HeldOutputs) remembers whether
    the beat was taken in PREPARE_WRITE_COMMAND, keeps w.valid, w.data and
    w.strb up in RESET_ADDR_WRITE, as the write sequence of lines 227-251 of
    HBMPortAccess.py does, and goes straight to PREPARE_W_RESPONSE once both
    the address and the beat have been accepted. It moves exactly one beat per
    write. */
module ChannelRules {
  import opened PortFsm
  import opened PortTraces

  /** A channel keeps the rule across one clock. */
  predicate ValidHeld(validNow: bool, readyNow: bool, validNext: bool)
  {
    validNow && !readyNow ==> validNext
  }

  /** As written, an address raised on AW or AR stays up, with the same address,
      until the slave accepts it (as long as the host leaves address_readwrite
      alone). */
  lemma AddressValidHeld(s: State, csr: Storage, axi: AxiIn)
    ensures var o, o' := Outputs(s, csr), Outputs(Next(s, csr, axi), csr);
            ValidHeld(o.awValid, axi.awReady, o'.awValid) &&
            ValidHeld(o.arValid, axi.arReady, o'.arValid) &&
            (o.awValid && !axi.awReady ==> o'.awAddr == o.awAddr) &&
            (o.arValid && !axi.arReady ==> o'.arAddr == o.arAddr)
  {
  }

  /** As written, the machine only leaves RESET_ADDR_WRITE on w.ready while its
      own w.valid is low, so no write beat is transferred on that clock. */
  lemma LeavesResetAddrWriteWithoutBeat(csr: Storage, axi: AxiIn)
    ensures Next(ResetAddrWrite, csr, axi) != ResetAddrWrite ==>
              axi.wReady && !Outputs(ResetAddrWrite, csr).wValid
  {
  }

  /** As written, the rule fails on W: the slave accepts the address but not yet
      the data, and on the next clock w.valid is low. */
  lemma WriteValidWithdrawn(csr: Storage, axi: AxiIn)
    requires axi.awReady && !axi.wReady
    ensures Outputs(PrepareWriteCommand, csr).wValid
    ensures Next(PrepareWriteCommand, csr, axi) == ResetAddrWrite
    ensures !ValidHeld(Outputs(PrepareWriteCommand, csr).wValid, axi.wReady,
                       Outputs(Next(PrepareWriteCommand, csr, axi), csr).wValid)
  {
  }

  /** As written, the rule is kept too eagerly: the slave accepts the data but
      not yet the address, and on the next clock the same beat is offered again
      with w.valid high, so a slave that keeps w.ready up takes it twice. */
  lemma WriteBeatRepeated(csr: Storage, axi: AxiIn)
    requires axi.wReady && !axi.awReady
    ensures Outputs(PrepareWriteCommand, csr).wValid
    ensures Next(PrepareWriteCommand, csr, axi) == PrepareWriteCommand
    ensures var o, o' := Outputs(PrepareWriteCommand, csr),
                         Outputs(Next(PrepareWriteCommand, csr, axi), csr);
            o'.wValid && o'.wData == o.wData && o'.wStrb == o.wStrb
  {
  }

  /** The corrected machine's state: the FSM state, and whether the write beat
      has already been accepted while the address is still waiting in
      PREPARE_WRITE_COMMAND. */
  datatype HeldState = HeldState(s: State, wTaken: bool)

  /** The corrected next state. Outside PREPARE_WRITE_COMMAND it is Next. In
      PREPARE_WRITE_COMMAND the beat is remembered once w.ready is seen, and on
      aw.ready the machine goes to PREPARE_W_RESPONSE when the beat is already
      taken and to RESET_ADDR_WRITE to wait for it otherwise. */
  function HeldNext(h: HeldState, csr: Storage, axi: AxiIn): (h': HeldState)
    ensures h'.wTaken ==> h'.s == PrepareWriteCommand
    ensures h.s != PrepareWriteCommand ==> h'.s == Next(h.s, csr, axi)
    ensures h.s == PrepareWriteCommand ==>
              (h'.s == PrepareWriteCommand <==> !axi.awReady) &&
              (h'.s == PrepareWResponse <==> axi.awReady && (h.wTaken || axi.wReady)) &&
              (h'.s == ResetAddrWrite <==> axi.awReady && !h.wTaken && !axi.wReady)
  {
    if h.s == PrepareWriteCommand then
      var taken := h.wTaken || axi.wReady;
      if axi.awReady then HeldState(if taken then PrepareWResponse else ResetAddrWrite, false)
      else HeldState(PrepareWriteCommand, taken)
    else
      HeldState(Next(h.s, csr, axi), false)
  }

  /** The corrected outputs: as Outputs, except that w.valid, with data_writein
      and strb_readwrite, is up from PREPARE_WRITE_COMMAND until the beat is
      accepted, in RESET_ADDR_WRITE too (as the write sequence of
      HBMPortAccess.py holds it until w.ready), and down once it has been, since
      one handshake moves one beat. */
  function HeldOutputs(h: HeldState, csr: Storage): (o: AxiOut)
    ensures o.wValid <==>
              (h.s == PrepareWriteCommand && !h.wTaken) || h.s == ResetAddrWrite
    ensures o.wData == if o.wValid then csr.dataWritein else 0
    ensures o.wStrb == if o.wValid then csr.strbReadwrite else 0
    ensures var w := Outputs(h.s, csr);
            o.awValid == w.awValid && o.awAddr == w.awAddr &&
            o.arValid == w.arValid && o.arAddr == w.arAddr &&
            o.bReady == w.bReady && o.rReady == w.rReady
  {
    var w := Outputs(h.s, csr);
    if (h.s == PrepareWriteCommand && !h.wTaken) || h.s == ResetAddrWrite then
      w.(wValid := true, wData := csr.dataWritein, wStrb := csr.strbReadwrite)
    else
      w.(wValid := false, wData := 0, wStrb := 0)
  }

  /** With the correction, AW and W keep the rule on every clock, with the same
      address, data and strobe as long as the host leaves the storages alone. */
  lemma HeldValidStable(h: HeldState, csr: Storage, axi: AxiIn)
    ensures var o, o' := HeldOutputs(h, csr), HeldOutputs(HeldNext(h, csr, axi), csr);
            ValidHeld(o.wValid, axi.wReady, o'.wValid) &&
            (o.wValid && !axi.wReady ==> o'.wData == o.wData && o'.wStrb == o.wStrb) &&
            ValidHeld(o.awValid, axi.awReady, o'.awValid) &&
            (o.awValid && !axi.awReady ==> o'.awAddr == o.awAddr)
  {
  }

  /** With the correction, the machine leaves RESET_ADDR_WRITE exactly on the
      clock its write beat is accepted. */
  lemma HeldBeatLeavesResetAddrWrite(h: HeldState, csr: Storage, axi: AxiIn)
    requires h.s == ResetAddrWrite
    ensures HeldNext(h, csr, axi).s != ResetAddrWrite <==>
              HeldOutputs(h, csr).wValid && axi.wReady
  {
  }

  /** The corrected states visited from `h` over the clocks `cs`. */
  function HeldRun(h: HeldState, cs: seq<Cycle>): (t: seq<HeldState>)
    ensures |t| == |cs| + 1 && t[0] == h
    ensures forall i :: 0 <= i < |cs| ==> t[i + 1] == HeldNext(t[i], cs[i].csr, cs[i].axi)
    decreases |cs|
  {
    if cs == [] then [h]
    else [h] + HeldRun(HeldNext(h, cs[0].csr, cs[0].axi), cs[1..])
  }

  /** Whether a write beat moves on the clock `c` taken in `h`. */
  predicate Beat(h: HeldState, c: Cycle)
  {
    HeldOutputs(h, c.csr).wValid && c.axi.wReady
  }

  /** The number of write beats moved over the clocks `cs` from `h`. */
  function Beats(h: HeldState, cs: seq<Cycle>): nat
    decreases |cs|
  {
    if cs == [] then 0
    else (if Beat(h, cs[0]) then 1 else 0) + Beats(HeldNext(h, cs[0].csr, cs[0].axi), cs[1..])
  }

  /** 1 once the write beat of the current write has been accepted, 0 before. */
  function Phase(h: HeldState): int
  {
    if (h.s == PrepareWriteCommand && h.wTaken) || h.s == PrepareWResponse || h.s == DoneWrite
    then 1 else 0
  }

  /** On a clock that stays on the write path, a beat moves exactly when the
      machine passes from before the beat to after it. */
  lemma BeatStep(h: HeldState, c: Cycle)
    requires h.wTaken ==> h.s == PrepareWriteCommand
    requires IsWriteState(h.s) && IsWriteState(HeldNext(h, c.csr, c.axi).s)
    ensures (if Beat(h, c) then 1 else 0) == Phase(HeldNext(h, c.csr, c.axi)) - Phase(h)
  {
  }

  /** Along the write path, the beats moved are the change of phase. */
  lemma {:induction false} BeatsAlongWrite(h: HeldState, cs: seq<Cycle>)
    requires h.wTaken ==> h.s == PrepareWriteCommand
    requires forall i :: 0 <= i <= |cs| ==> IsWriteState(HeldRun(h, cs)[i].s)
    ensures Beats(h, cs) == Phase(HeldRun(h, cs)[|cs|]) - Phase(h)
    decreases |cs|
  {
    if cs != [] {
      var h' := HeldNext(h, cs[0].csr, cs[0].axi);
      var t, t' := HeldRun(h, cs), HeldRun(h', cs[1..]);
      assert t == [h] + t';
      assert IsWriteState(t[0].s) && IsWriteState(t[1].s);
      forall i | 0 <= i <= |cs[1..]|
        ensures IsWriteState(t'[i].s)
      {
        assert t'[i] == t[i + 1];
      }
      BeatStep(h, cs[0]);
      BeatsAlongWrite(h', cs[1..]);
    }
  }

  /** With the correction, a write started in PREPARE_WRITE_COMMAND moves at most
      one beat while it stays on the write path, and exactly one by the time it
      waits for, or has, its write response. */
  lemma OneBeatPerWrite(h: HeldState, cs: seq<Cycle>)
    requires h.s == PrepareWriteCommand && !h.wTaken
    requires forall i :: 0 <= i <= |cs| ==> IsWriteState(HeldRun(h, cs)[i].s)
    ensures Beats(h, cs) <= 1
    ensures HeldRun(h, cs)[|cs|].s in {PrepareWResponse, DoneWrite} ==> Beats(h, cs) == 1
  {
    BeatsAlongWrite(h, cs);
  }
}
