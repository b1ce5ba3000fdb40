/** Runs of the port-access machine over many clocks. The host may rewrite the
    CSR storages between any two clocks and the AXI slave may answer with any
    signals, so each clock takes its own pair of inputs. */
module PortTraces {
  import opened PortFsm

  /** The inputs of one clock. */
  datatype Cycle = Cycle(csr: Storage, axi: AxiIn)

  /** The states visited from `s` over the clocks `cs`: position i + 1 is the
      state after clock i. */
  function Run(s: State, cs: seq<Cycle>): (t: seq<State>)
    ensures |t| == |cs| + 1 && t[0] == s
    ensures forall i :: 0 <= i < |cs| ==> t[i + 1] == Next(t[i], cs[i].csr, cs[i].axi)
    decreases |cs|
  {
    if cs == [] then [s]
    else [s] + Run(Next(s, cs[0].csr, cs[0].axi), cs[1..])
  }

  /** While none of the first j clocks brings what `s` waits for, the machine
      is still in `s` after each of them. */
  lemma {:induction false} StaysWhileNotAwaited(s: State, cs: seq<Cycle>, j: nat, i: nat)
    requires i <= j <= |cs|
    requires forall k :: 0 <= k < j ==> !Awaited(s, cs[k].csr, cs[k].axi)
    ensures Run(s, cs)[i] == s
  {
    if i > 0 {
      StaysWhileNotAwaited(s, cs, j, i - 1);
      assert !Awaited(s, cs[i - 1].csr, cs[i - 1].axi);
    }
  }

  /** Every state holds for exactly as long as the input it waits for stays
      absent: the machine is still in `s` after j clocks, having never left it,
      iff none of those clocks brought what `s` waits for. */
  lemma HoldsUntilAwaited(s: State, cs: seq<Cycle>, t: seq<State>, j: nat)
    requires t == Run(s, cs) && j <= |cs|
    ensures (forall i :: 0 <= i <= j ==> t[i] == s) <==>
            (forall i :: 0 <= i < j ==> !Awaited(s, cs[i].csr, cs[i].axi))
  {
    if forall i :: 0 <= i <= j ==> t[i] == s {
      forall i | 0 <= i < j
        ensures !Awaited(s, cs[i].csr, cs[i].axi)
      {
        assert t[i] == s && t[i + 1] == s;
      }
    }
    if forall i :: 0 <= i < j ==> !Awaited(s, cs[i].csr, cs[i].axi) {
      forall i | 0 <= i <= j
        ensures t[i] == s
      {
        StaysWhileNotAwaited(s, cs, j, i);
      }
    }
  }

  /** On the first clock that brings what `s` waits for, the machine leaves `s`
      along an edge of the diagram; from WAIT_INSTRUCTION it goes to
      PERFORM_READ_COMMAND iff perform_read is set on that clock, and to
      PREPARE_WRITE_COMMAND otherwise. */
  lemma FirstAwaitedMoves(s: State, cs: seq<Cycle>, k: nat)
    requires k < |cs|
    requires forall i :: 0 <= i < k ==> !Awaited(s, cs[i].csr, cs[i].axi)
    requires Awaited(s, cs[k].csr, cs[k].axi)
    ensures Run(s, cs)[k] == s
    ensures Run(s, cs)[k + 1] != s && Run(s, cs)[k + 1] in Successors(s)
    ensures s == WaitInstruction ==>
              (Run(s, cs)[k + 1] == PerformReadCommand <==> cs[k].csr.performRead) &&
              (Run(s, cs)[k + 1] == PrepareWriteCommand <==> !cs[k].csr.performRead)
  {
    HoldsUntilAwaited(s, cs, Run(s, cs), k);
  }

  /** Whether `p` is a state of the same path as `s`. */
  predicate SamePath(s: State, p: State)
  {
    IsWriteState(p) == IsWriteState(s) && IsReadState(p) == IsReadState(s)
  }

  /** Started at the first state of a path and kept away from WAIT_INSTRUCTION,
      the machine stays on that path (a write never enters a read state and a read
      never enters a write state), never moves backwards, and has visited every
      state of the path up to the one it stands in: the path's states come in
      order, none skipped. */
  lemma {:induction false} PathInOrder(s0: State, cs: seq<Cycle>, t: seq<State>, j: nat)
    requires s0 == PrepareWriteCommand || s0 == PerformReadCommand
    requires t == Run(s0, cs) && j < |t|
    requires forall i :: 0 <= i <= j ==> t[i] != WaitInstruction
    ensures forall i :: 0 <= i <= j ==> SamePath(s0, t[i])
    ensures forall i, i' :: 0 <= i <= i' <= j ==> Rank(t[i]) <= Rank(t[i'])
    ensures forall p :: SamePath(s0, p) && Rank(p) <= Rank(t[j]) ==>
              exists i :: 0 <= i <= j && t[i] == p
  {
    if j > 0 {
      PathInOrder(s0, cs, t, j - 1);
      StepAlongPath(t[j - 1], cs[j - 1].csr, cs[j - 1].axi);
      forall p | SamePath(s0, p) && Rank(p) <= Rank(t[j])
        ensures exists i :: 0 <= i <= j && t[i] == p
      {
        if Rank(p) == Rank(t[j]) {
          assert t[j] == p;
        } else {
          var i :| 0 <= i <= j - 1 && t[i] == p;
          assert 0 <= i <= j && t[i] == p;
        }
      }
    }
  }

  /** The done state that ends the path `s` is on. */
  function DoneOf(s: State): State
  {
    if IsWriteState(s) then DoneWrite else DoneRead
  }

  /** From any state of a path, the machine is back in WAIT_INSTRUCTION only after
      it has been in that path's done state on a clock with acknowledge_readwrite
      set, and left it on that clock. */
  lemma {:induction false} WaitOnlyAfterAcknowledgedDone(s: State, cs: seq<Cycle>, j: nat)
    requires IsWriteState(s) || IsReadState(s)
    requires j < |cs| + 1 && Run(s, cs)[j] == WaitInstruction
    ensures exists i :: 0 <= i < j && Run(s, cs)[i] == DoneOf(s) &&
                        cs[i].csr.acknowledgeReadwrite && Run(s, cs)[i + 1] == WaitInstruction
    decreases |cs|
  {
    var t := Run(s, cs);
    var n := Next(s, cs[0].csr, cs[0].axi);
    OnlyDoneReturnsToWait(s, cs[0].csr, cs[0].axi);
    if n == WaitInstruction {
      assert t[0] == DoneOf(s) && t[1] == WaitInstruction;
    } else {
      StepAlongPath(s, cs[0].csr, cs[0].axi);
      var t' := Run(n, cs[1..]);
      assert t == [s] + t';
      WaitOnlyAfterAcknowledgedDone(n, cs[1..], j - 1);
      var i :| 0 <= i < j - 1 && t'[i] == DoneOf(n) &&
               cs[1..][i].csr.acknowledgeReadwrite && t'[i + 1] == WaitInstruction;
      assert t[i + 1] == DoneOf(s) && cs[i + 1].csr.acknowledgeReadwrite && t[i + 2] == WaitInstruction;
    }
  }

  /** Clocks from `s` back to WAIT_INSTRUCTION when nothing makes it wait. */
  function PromptSteps(s: State): nat
  {
    if IsWriteState(s) then 5 - Rank(s) else 4 - Rank(s)
  }

  /** With a slave that answers every handshake at once and a host that
      acknowledges at once, the machine walks the rest of its path one state per
      clock and is back in WAIT_INSTRUCTION after PromptSteps(s) clocks: four for
      a whole write, three for a whole read. */
  lemma {:induction false} PromptCompletion(s: State, cs: seq<Cycle>)
    requires IsWriteState(s) || IsReadState(s)
    requires |cs| >= PromptSteps(s)
    requires forall i :: 0 <= i < |cs| ==>
               cs[i].axi.awReady && cs[i].axi.wReady && cs[i].axi.bValid &&
               cs[i].axi.arReady && cs[i].axi.rValid && cs[i].csr.acknowledgeReadwrite
    ensures forall i :: 0 <= i < PromptSteps(s) ==>
              SamePath(s, Run(s, cs)[i]) && Rank(Run(s, cs)[i]) == Rank(s) + i
    ensures Run(s, cs)[PromptSteps(s)] == WaitInstruction
    decreases |cs|
  {
    var n := Next(s, cs[0].csr, cs[0].axi);
    var t := Run(s, cs);
    assert t == [s] + Run(n, cs[1..]);
    if n != WaitInstruction {
      PromptCompletion(n, cs[1..]);
    }
  }

  /** A machine that never receives a request stays in WAIT_INSTRUCTION. */
  lemma {:induction false} IdleWithoutRequest(cs: seq<Cycle>, j: nat)
    requires forall i :: 0 <= i < |cs| ==> !cs[i].csr.performRead && !cs[i].csr.performWrite
    requires j <= |cs|
    ensures Run(WaitInstruction, cs)[j] == WaitInstruction
  {
    if j > 0 {
      IdleWithoutRequest(cs, j - 1);
    }
  }
}
