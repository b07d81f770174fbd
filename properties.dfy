/**
 * What `evm.Call` promises about the stateful precompiles, proved of the
 * semantics in `Precompiles` (and so of `Evm.EVM.Call`, which is proved equal
 * to it).
 */
module Properties {
  import opened Bytes
  import opened Wrappers
  import opened Codec
  import opened Ledger
  import opened Precompiles

  /** The ledger facts every call keeps: the account invariant and the supply of every kind of value. */
  ghost predicate Keeps(s: State, t: State)
  {
    && (s.Valid() ==> t.Valid())
    && t.NativeSupply() == s.NativeSupply()
    && forall id :: t.AssetSupply(id) == s.AssetSupply(id)
  }

  /** No call creates or destroys native or asset value, and none breaks the account invariant. */
  lemma {:induction false} CallKeepsLedger(s: State, r: Rules, caller: Address, addr: Address, input: seq<Byte>, gas: nat, value: nat)
    decreases gas, 3
    ensures Keeps(s, Call(s, r, caller, addr, input, gas, value).post)
  {
    if value != 0 && !CanTransfer(s, caller, value) {
    } else {
      var p := Precompile(r, addr);
      if !s.Exist(addr) && p.None? && value == 0 {
      } else {
        var s1 := if s.Exist(addr) then s else s.CreateAccount(addr);
        TransferConserves(s1, caller, addr, value);
        if p.Some? {
          RunKeepsLedger(p.value, EnterCall(s, caller, addr, value), r, caller, input, gas);
        }
      }
    }
  }

  lemma {:induction false} RunKeepsLedger(c: Contract, s: State, r: Rules, caller: Address, input: seq<Byte>, gas: nat)
    decreases gas, 2
    ensures Keeps(s, Run(c, s, r, caller, input, gas).post)
  {
    if c.CallPrecompile? {
      NativeAssetCallKeepsLedger(s, r, c.gasCost, caller, input, gas);
    }
  }

  lemma {:induction false} NativeAssetCallKeepsLedger(s: State, r: Rules, cost: GasCost, caller: Address, input: seq<Byte>, gas: nat)
    decreases gas, 1
    ensures Keeps(s, NativeAssetCall(s, r, cost, caller, input, gas).post)
  {
    if gas >= cost {
      var remaining := gas - cost;
      var dc := UnpackNativeAssetCallInput(input);
      if dc.Some? {
        var c := dc.value;
        if c.assetAmount != 0 && !CanTransferMC(s, caller, c.assetID, c.assetAmount) {
        } else if !s.Exist(c.to) && remaining < r.gas.callNewAccountGas {
        } else {
          var left := if s.Exist(c.to) then remaining else remaining - r.gas.callNewAccountGas;
          var s1 := if s.Exist(c.to) then s else s.CreateAccount(c.to);
          TransferAndCallKeepsLedger(s, s1, r, caller, c, left);
        }
      }
    }
  }

  lemma {:induction false} TransferAndCallKeepsLedger(snapshot: State, s: State, r: Rules, caller: Address, c: AssetCall, gas: nat)
    requires s.GetBalanceMultiCoin(caller, c.assetID) >= c.assetAmount
    requires Keeps(snapshot, s)
    decreases gas + 1, 0
    ensures Keeps(snapshot, TransferAndCall(snapshot, s, r, caller, c, gas).post)
  {
    var s2 := s.TransferMultiCoin(caller, c.to, c.assetID, c.assetAmount);
    TransferMultiCoinConserves(s, caller, c.to, c.assetID, c.assetAmount);
    CallKeepsLedger(s2, r, caller, c.to, c.callData, gas, 0);
  }

  /** A call to a stateful precompile the caller can fund enters it and runs it, reconciled against the ledger before the call. */
  lemma CallRunsPrecompile(s: State, r: Rules, caller: Address, addr: Address, input: seq<Byte>, gas: nat, value: nat)
    requires s.GetBalance(caller) >= value
    requires Precompile(r, addr).Some?
    ensures Call(s, r, caller, addr, input, gas, value)
         == Reconcile(s, Run(Precompile(r, addr).value, EnterCall(s, caller, addr, value), r, caller, input, gas))
  {
  }

  /**
   * Attached value the caller cannot cover fails before any precompile runs:
   * every unit of gas comes back and the ledger is untouched.
   */
  lemma ValueShortfallRefundsGas(s: State, r: Rules, caller: Address, addr: Address, input: seq<Byte>, gas: nat, value: nat)
    requires s.GetBalance(caller) < value
    ensures Call(s, r, caller, addr, input, gas, value) == Fail(gas, InsufficientBalance, s)
  {
  }

  /** Under ApricotPhase5 with enough gas, a balance query of a well-formed input returns the balance as a 32-byte word. */
  lemma QueryReturnsBalance(s: State, g: GasParams, caller: Address, owner: Address, id: Hash, gas: nat, value: nat)
    requires s.GetBalance(caller) >= value
    requires gas >= g.assetBalanceApricot
    requires s.GetBalanceMultiCoin(owner, id) < WordCapacity
    ensures var st := Call(s, Rules(ApricotPhase5, g), caller, NativeAssetBalanceAddr,
                           PackNativeAssetBalanceInput(owner, id), gas, value);
            && st.out == Outcome(FillBytes(s.GetBalanceMultiCoin(owner, id), 32), gas - g.assetBalanceApricot, None)
            && |st.out.ret| == 32
            && SetBytes(st.out.ret) == s.GetBalanceMultiCoin(owner, id)
            && NativeMoved(s, st.post, caller, NativeAssetBalanceAddr, value)
            && AssetMoved(s, st.post, caller, caller, id, 0)
  {
    var r := Rules(ApricotPhase5, g);
    var input := PackNativeAssetBalanceInput(owner, id);
    CallRunsPrecompile(s, r, caller, NativeAssetBalanceAddr, input, gas, value);
    var t := EnterCall(s, caller, NativeAssetBalanceAddr, value);
    assert t.GetBalanceMultiCoin(owner, id) == s.GetBalanceMultiCoin(owner, id);
    BalanceQueryRun(t, g.assetBalanceApricot, owner, id, gas);
  }

  /** The precompile itself, on a well-formed query it can pay for, returns the balance word. */
  lemma BalanceQueryRun(t: State, cost: GasCost, owner: Address, id: Hash, gas: nat)
    requires gas >= cost && t.GetBalanceMultiCoin(owner, id) < WordCapacity
    ensures var balance := t.GetBalanceMultiCoin(owner, id);
            && NativeAssetBalance(t, cost, PackNativeAssetBalanceInput(owner, id), gas)
               == Step(Outcome(FillBytes(balance, 32), gas - cost, None), t)
            && SetBytes(FillBytes(balance, 32)) == balance
  {
    UnpackPackBalance(owner, id);
    SetBytesOfFillBytes(t.GetBalanceMultiCoin(owner, id), 32);
  }

  /** The ways a balance query fails under ApricotPhase5, each leaving the ledger untouched. */
  lemma QueryFailures(s: State, g: GasParams, caller: Address, input: seq<Byte>, gas: nat, value: nat)
    requires s.GetBalance(caller) >= value
    ensures var st := Call(s, Rules(ApricotPhase5, g), caller, NativeAssetBalanceAddr, input, gas, value);
            && (gas < g.assetBalanceApricot ==> st == Fail(0, OutOfGas, s))
            && (gas >= g.assetBalanceApricot && |input| != BalanceInputLength ==>
                  st == Fail(gas - g.assetBalanceApricot, ExecutionReverted, s))
            && (gas >= g.assetBalanceApricot && |input| == BalanceInputLength ==>
                  var q := UnpackNativeAssetBalanceInput(input).value;
                  s.GetBalanceMultiCoin(q.owner, q.assetID) >= WordCapacity ==>
                    st == Fail(gas - g.assetBalanceApricot, ExecutionReverted, s))
  {
    var r := Rules(ApricotPhase5, g);
    PrecompileAddrsDistinct();
    assert Precompile(r, NativeAssetBalanceAddr) == Some(BalancePrecompile(g.assetBalanceApricot));
    CallRunsPrecompile(s, r, caller, NativeAssetBalanceAddr, input, gas, value);
    var t := EnterCall(s, caller, NativeAssetBalanceAddr, value);
    var run := NativeAssetBalance(t, g.assetBalanceApricot, input, gas);
    if |input| == BalanceInputLength {
      var q := UnpackNativeAssetBalanceInput(input).value;
      assert t.GetBalanceMultiCoin(q.owner, q.assetID) == s.GetBalanceMultiCoin(q.owner, q.assetID);
      if gas >= g.assetBalanceApricot && s.GetBalanceMultiCoin(q.owner, q.assetID) >= WordCapacity {
        assert run == Fail(gas - g.assetBalanceApricot, ExecutionReverted, t);
      }
    }
    assert Call(s, r, caller, NativeAssetBalanceAddr, input, gas, value) == Reconcile(s, run);
  }

  /** Calling an existing account without code, with no value, succeeds with all the gas left and touches only the two accounts. */
  lemma PlainAccountCall(s: State, r: Rules, caller: Address, to: Address, input: seq<Byte>, gas: nat)
    requires !IsPrecompileAddr(to) && s.Exist(to)
    ensures Call(s, r, caller, to, input, gas, 0) == Step(Outcome([], gas, None), EnterCall(s, caller, to, 0))
  {
  }

  /**
   * Once the input decodes and the sender covers the amount, NativeAssetCall
   * either runs out of gas paying for a missing recipient, or creates it and
   * goes on to the transfer-and-call tail with what gas is left.
   */
  lemma AssetCallAfterChecks(t: State, r: Rules, cost: GasCost, caller: Address, input: seq<Byte>, gas: nat, c: AssetCall)
    requires UnpackNativeAssetCallInput(input) == Some(c)
    requires t.GetBalanceMultiCoin(caller, c.assetID) >= c.assetAmount
    requires gas >= cost
    ensures var surcharge := if t.Exist(c.to) then 0 else r.gas.callNewAccountGas;
            NativeAssetCall(t, r, cost, caller, input, gas)
            == if gas - cost < surcharge then Fail(0, OutOfGas, t)
               else TransferAndCall(t, if t.Exist(c.to) then t else t.CreateAccount(c.to), r, caller, c, gas - cost - surcharge)
  {
  }

  /** Moving an asset and then entering the recipient with no value changes only the two asset balances. */
  lemma SendThenEnter(s: State, caller: Address, to: Address, id: Hash, amount: nat)
    requires s.GetBalanceMultiCoin(caller, id) >= amount
    ensures var u := EnterCall(s.TransferMultiCoin(caller, to, id, amount), caller, to, 0);
            && NativeMoved(s, u, caller, caller, 0)
            && AssetMoved(s, u, caller, to, id, amount)
            && u.Exist(to)
  {
    var t := s.TransferMultiCoin(caller, to, id, amount);
    var u := EnterCall(t, caller, to, 0);
    forall a
      ensures u.GetBalance(a) == s.GetBalance(a)
    {
      assert u.GetBalance(a) == t.GetBalance(a);
    }
    forall a, j
      ensures u.GetBalanceMultiCoin(a, j) == t.GetBalanceMultiCoin(a, j)
    {
    }
  }

  /** The tail of NativeAssetCall towards an existing account without code: the asset moves and no gas is spent. */
  lemma SendToPlainAccount(snapshot: State, s: State, r: Rules, caller: Address, c: AssetCall, gas: nat)
    requires s.GetBalanceMultiCoin(caller, c.assetID) >= c.assetAmount
    requires !IsPrecompileAddr(c.to) && s.Exist(c.to)
    ensures var st := TransferAndCall(snapshot, s, r, caller, c, gas);
            && st.out == Outcome([], gas, None)
            && NativeMoved(s, st.post, caller, caller, 0)
            && AssetMoved(s, st.post, caller, c.to, c.assetID, c.assetAmount)
            && st.post.Exist(c.to)
  {
    var t := s.TransferMultiCoin(caller, c.to, c.assetID, c.assetAmount);
    PlainAccountCall(t, r, caller, c.to, c.callData, gas);
    SendThenEnter(s, caller, c.to, c.assetID, c.assetAmount);
  }

  /**
   * The precompile itself: a well-formed transfer the sender covers, to an
   * account without code, moves the asset and charges the new-account cost
   * only when the recipient did not exist.
   */
  lemma NativeAssetCallMovesAsset(t: State, r: Rules, caller: Address, to: Address, id: Hash, amount: nat,
                                  callData: seq<Byte>, gas: nat)
    requires amount < WordCapacity && t.GetBalanceMultiCoin(caller, id) >= amount
    requires !IsPrecompileAddr(to)
    requires gas >= r.gas.assetCallApricot + (if t.Exist(to) then 0 else r.gas.callNewAccountGas)
    ensures var st := NativeAssetCall(t, r, r.gas.assetCallApricot, caller, PackNativeAssetCallInput(to, id, amount, callData), gas);
            && st.out == Outcome([], gas - r.gas.assetCallApricot - (if t.Exist(to) then 0 else r.gas.callNewAccountGas), None)
            && NativeMoved(t, st.post, caller, caller, 0)
            && AssetMoved(t, st.post, caller, to, id, amount)
            && st.post.Exist(to)
  {
    UnpackPackCall(to, id, amount, callData);
    var c := AssetCall(to, id, amount, callData);
    var left := gas - r.gas.assetCallApricot - (if t.Exist(to) then 0 else r.gas.callNewAccountGas);
    var t1 := if t.Exist(to) then t else t.CreateAccount(to);
    AssetCallAfterChecks(t, r, r.gas.assetCallApricot, caller, PackNativeAssetCallInput(to, id, amount, callData), gas, c);
    SendToPlainAccount(t, t1, r, caller, c, left);
    var st := TransferAndCall(t, t1, r, caller, c, left);
    forall a
      ensures st.post.GetBalance(a) == t.GetBalance(a)
    {
      assert t1.GetBalance(a) == t.GetBalance(a);
    }
    forall a, j
      ensures st.post.GetBalanceMultiCoin(a, j) as int
           == t.GetBalanceMultiCoin(a, j)
              - (if a == caller && j == id then amount else 0)
              + (if a == to && j == id then amount else 0)
    {
      assert t1.GetBalanceMultiCoin(a, j) == t.GetBalanceMultiCoin(a, j);
    }
  }

  /**
   * Under ApricotPhase5, a NativeAssetCall to an account without code that the
   * sender can cover and the gas can pay for moves the attached value to the
   * precompile's own address, moves the asset to the recipient, returns no
   * output and charges the call cost plus the new-account cost when the
   * recipient did not exist.
   */
  lemma AssetCallTransfers(s: State, g: GasParams, caller: Address, to: Address, id: Hash, amount: nat,
                           callData: seq<Byte>, gas: nat, value: nat)
    requires s.GetBalance(caller) >= value
    requires amount < WordCapacity && s.GetBalanceMultiCoin(caller, id) >= amount
    requires !IsPrecompileAddr(to)
    requires var isNew := !s.Exist(to) && to != caller;
             gas >= g.assetCallApricot + (if isNew then g.callNewAccountGas else 0)
    ensures var isNew := !s.Exist(to) && to != caller;
            var st := Call(s, Rules(ApricotPhase5, g), caller, NativeAssetCallAddr,
                           PackNativeAssetCallInput(to, id, amount, callData), gas, value);
            && st.out == Outcome([], gas - g.assetCallApricot - (if isNew then g.callNewAccountGas else 0), None)
            && NativeMoved(s, st.post, caller, NativeAssetCallAddr, value)
            && AssetMoved(s, st.post, caller, to, id, amount)
            && st.post.Exist(to)
  {
    var r := Rules(ApricotPhase5, g);
    var input := PackNativeAssetCallInput(to, id, amount, callData);
    PrecompileAddrsDistinct();
    assert Precompile(r, NativeAssetCallAddr) == Some(CallPrecompile(g.assetCallApricot));
    CallRunsPrecompile(s, r, caller, NativeAssetCallAddr, input, gas, value);
    var t := EnterCall(s, caller, NativeAssetCallAddr, value);
    assert t.Exist(to) <==> s.Exist(to) || to == caller;
    assert t.GetBalanceMultiCoin(caller, id) == s.GetBalanceMultiCoin(caller, id);
    NativeAssetCallMovesAsset(t, r, caller, to, id, amount, callData, gas);
    var run := NativeAssetCall(t, r, g.assetCallApricot, caller, input, gas);
    assert Call(s, r, caller, NativeAssetCallAddr, input, gas, value) == run;
    forall a
      ensures run.post.GetBalance(a) == t.GetBalance(a)
    {
    }
    forall a, j
      ensures run.post.GetBalanceMultiCoin(a, j) as int
           == s.GetBalanceMultiCoin(a, j)
              - (if a == caller && j == id then amount else 0)
              + (if a == to && j == id then amount else 0)
    {
      assert t.GetBalanceMultiCoin(a, j) == s.GetBalanceMultiCoin(a, j);
    }
  }

  /** The ways a NativeAssetCall fails under ApricotPhase5, each leaving the ledger untouched. */
  lemma AssetCallFailures(s: State, g: GasParams, caller: Address, input: seq<Byte>, gas: nat, value: nat)
    requires s.GetBalance(caller) >= value
    ensures var st := Call(s, Rules(ApricotPhase5, g), caller, NativeAssetCallAddr, input, gas, value);
            && (gas < g.assetCallApricot ==> st == Fail(0, OutOfGas, s))
            && (gas >= g.assetCallApricot && |input| < CallInputMinLength ==>
                  st == Fail(gas - g.assetCallApricot, ExecutionReverted, s))
            && (gas >= g.assetCallApricot && |input| >= CallInputMinLength ==>
                  var c := UnpackNativeAssetCallInput(input).value;
                  && (c.assetAmount > s.GetBalanceMultiCoin(caller, c.assetID) ==> st == Fail(0, InsufficientBalance, s))
                  && ((&& c.assetAmount <= s.GetBalanceMultiCoin(caller, c.assetID)
                       && !s.Exist(c.to) && c.to != caller && c.to != NativeAssetCallAddr
                       && gas < g.assetCallApricot + g.callNewAccountGas)
                      ==> st == Fail(0, OutOfGas, s)))
  {
    var r := Rules(ApricotPhase5, g);
    PrecompileAddrsDistinct();
    assert Precompile(r, NativeAssetCallAddr) == Some(CallPrecompile(g.assetCallApricot));
    CallRunsPrecompile(s, r, caller, NativeAssetCallAddr, input, gas, value);
    var t := EnterCall(s, caller, NativeAssetCallAddr, value);
    var run := NativeAssetCall(t, r, g.assetCallApricot, caller, input, gas);
    assert Call(s, r, caller, NativeAssetCallAddr, input, gas, value) == Reconcile(s, run);
    if gas >= g.assetCallApricot && |input| >= CallInputMinLength {
      var c := UnpackNativeAssetCallInput(input).value;
      assert t.GetBalanceMultiCoin(caller, c.assetID) == s.GetBalanceMultiCoin(caller, c.assetID);
      assert t.Exist(c.to) <==> s.Exist(c.to) || c.to == caller || c.to == NativeAssetCallAddr;
      if c.assetAmount <= s.GetBalanceMultiCoin(caller, c.assetID) {
        AssetCallAfterChecks(t, r, g.assetCallApricot, caller, input, gas, c);
      }
    }
  }

  /**
   * The genesis contract, and under ApricotPhase6 every stateful precompile
   * address, reverts and hands back all the gas it was given.
   */
  lemma DeprecatedReverts(s: State, r: Rules, caller: Address, addr: Address, input: seq<Byte>, gas: nat, value: nat)
    requires s.GetBalance(caller) >= value
    requires addr == GenesisContractAddr || (r.fork == ApricotPhase6 && IsPrecompileAddr(addr))
    ensures Call(s, r, caller, addr, input, gas, value) == Fail(gas, ExecutionReverted, s)
  {
  }
}
