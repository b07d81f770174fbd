/**
 * What `evm.Call` does when its target is one of the stateful precompiles,
 * as a function of the ledger before the call: the value pre-transfer, the
 * precompile registry gated by the fork, the NativeAssetBalance and
 * NativeAssetCall precompiles, the deprecated contract, and the snapshot
 * revert / gas burn applied to every error.
 */
module Precompiles {
  import opened Bytes
  import opened Wrappers
  import opened Codec
  import opened Ledger

  /** A fixed gas charge; each is a positive protocol constant. */
  type GasCost = g: nat | g > 0 witness 1

  /** `params.AssetBalanceApricot`, `params.AssetCallApricot`, `params.CallNewAccountGas`. */
  datatype GasParams = GasParams(assetBalanceApricot: GasCost, assetCallApricot: GasCost, callNewAccountGas: GasCost)

  /** The two protocol versions that matter here: the precompiles are live in the first and deprecated in the second. */
  datatype Fork = ApricotPhase5 | ApricotPhase6

  /** The chain rules an EVM is created with. */
  datatype Rules = Rules(fork: Fork, gas: GasParams)

  /** `0x0100000000000000000000000000000000000000`. */
  const GenesisContractAddr: Address := [1] + Zeros(19)

  /** `0x0100000000000000000000000000000000000001`. */
  const NativeAssetBalanceAddr: Address := [1] + Zeros(18) + [1]

  /** `0x0100000000000000000000000000000000000002`. */
  const NativeAssetCallAddr: Address := [1] + Zeros(18) + [2]

  lemma PrecompileAddrsDistinct()
    ensures GenesisContractAddr != NativeAssetBalanceAddr
    ensures GenesisContractAddr != NativeAssetCallAddr
    ensures NativeAssetBalanceAddr != NativeAssetCallAddr
  {
    assert GenesisContractAddr[19] == 0;
    assert NativeAssetBalanceAddr[19] == 1;
    assert NativeAssetCallAddr[19] == 2;
  }

  predicate IsPrecompileAddr(a: Address)
  {
    a == GenesisContractAddr || a == NativeAssetBalanceAddr || a == NativeAssetCallAddr
  }

  /** A stateful precompile, carrying its fixed charge as the Go structs do. */
  datatype Contract = BalancePrecompile(gasCost: GasCost) | CallPrecompile(gasCost: GasCost) | DeprecatedContract

  /** `evm.precompile(addr)` restricted to the three stateful addresses. */
  function Precompile(r: Rules, addr: Address): (c: Option<Contract>)
    ensures c.Some? <==> IsPrecompileAddr(addr)
    ensures addr == GenesisContractAddr ==> c == Some(DeprecatedContract)
    ensures r.fork == ApricotPhase5 && addr == NativeAssetBalanceAddr ==> c == Some(BalancePrecompile(r.gas.assetBalanceApricot))
    ensures r.fork == ApricotPhase5 && addr == NativeAssetCallAddr ==> c == Some(CallPrecompile(r.gas.assetCallApricot))
    ensures r.fork == ApricotPhase6 && IsPrecompileAddr(addr) ==> c == Some(DeprecatedContract)
  {
    PrecompileAddrsDistinct();
    if addr == GenesisContractAddr then Some(DeprecatedContract)
    else if addr == NativeAssetBalanceAddr then
      Some(if r.fork == ApricotPhase5 then BalancePrecompile(r.gas.assetBalanceApricot) else DeprecatedContract)
    else if addr == NativeAssetCallAddr then
      Some(if r.fork == ApricotPhase5 then CallPrecompile(r.gas.assetCallApricot) else DeprecatedContract)
    else None
  }

  datatype Error = OutOfGas | ExecutionReverted | InsufficientBalance

  /**
   * `(ret, gasRemaining, err)`. Go tells a nil slice from an empty one, but
   * every empty output on the paths modelled here is nil, so `[]` stands for nil.
   */
  datatype Outcome = Outcome(ret: seq<Byte>, gasLeft: nat, err: Option<Error>)

  /** An outcome together with the ledger it leaves behind. */
  datatype Step = Step(out: Outcome, post: State)

  function Fail(gasLeft: nat, e: Error, s: State): Step
  {
    Step(Outcome([], gasLeft, Some(e)), s)
  }

  /** `CanTransfer` of the block context. */
  predicate CanTransfer(s: State, a: Address, amount: nat)
  {
    s.GetBalance(a) >= amount
  }

  /** `CanTransferMC` of the block context. */
  predicate CanTransferMC(s: State, a: Address, id: Hash, amount: nat)
  {
    s.GetBalanceMultiCoin(a, id) >= amount
  }

  /**
   * What a caller does with a callee's result: on any error it reverts the
   * ledger to `snapshot` and, unless the error is a revert, burns the gas left.
   */
  function Reconcile(snapshot: State, run: Step): (st: Step)
    ensures st.out.gasLeft <= run.out.gasLeft
    ensures st.out.err == run.out.err && st.out.ret == run.out.ret
    ensures st.out.err.None? ==> st == run
    ensures st.out.err.Some? ==> st.post == snapshot
    ensures st.out.err.Some? && st.out.err != Some(ExecutionReverted) ==> st.out.gasLeft == 0
    ensures st.out.err == Some(ExecutionReverted) ==> st.out.gasLeft == run.out.gasLeft
  {
    if run.out.err.None? then run
    else
      var left := if run.out.err == Some(ExecutionReverted) then run.out.gasLeft else 0;
      Step(Outcome(run.out.ret, left, run.out.err), snapshot)
  }

  /** Create the callee when it is missing, then move the attached value to it. */
  function EnterCall(s: State, caller: Address, addr: Address, value: nat): (t: State)
    requires s.GetBalance(caller) >= value
    ensures NativeMoved(s, t, caller, addr, value)
    ensures t.assets == s.assets && t.accounts == s.accounts + {caller, addr}
  {
    var s1 := if s.Exist(addr) then s else s.CreateAccount(addr);
    s1.Transfer(caller, addr, value)
  }

  /**
   * `evm.Call(caller, addr, input, gas, value)`. An address that is not one of
   * the stateful precompiles is an account without code.
   */
  function Call(s: State, r: Rules, caller: Address, addr: Address, input: seq<Byte>, gas: nat, value: nat): (st: Step)
    decreases gas, 4
    ensures st.out.gasLeft <= gas
    ensures st.out.err.Some? ==> st.post == s
    ensures st.out.err == Some(OutOfGas) ==> st.out.gasLeft == 0
  {
    if value != 0 && !CanTransfer(s, caller, value) then
      Fail(gas, InsufficientBalance, s)
    else
      var p := Precompile(r, addr);
      if !s.Exist(addr) && p.None? && value == 0 then
        Step(Outcome([], gas, None), s)
      else
        var entered := EnterCall(s, caller, addr, value);
        var run := if p.Some? then Run(p.value, entered, r, caller, input, gas) else Step(Outcome([], gas, None), entered);
        Reconcile(s, run)
  }

  /** `p.Run(evm, caller, addr, input, gas, false)`. */
  function Run(c: Contract, s: State, r: Rules, caller: Address, input: seq<Byte>, gas: nat): (st: Step)
    decreases gas, 3
    ensures st.out.gasLeft <= gas
    ensures st.out.err.Some? ==> st.post == s
    ensures st.out.err == Some(OutOfGas) ==> st.out.gasLeft == 0
  {
    match c
    case BalancePrecompile(cost) => NativeAssetBalance(s, cost, input, gas)
    case CallPrecompile(cost) => NativeAssetCall(s, r, cost, caller, input, gas)
    case DeprecatedContract => Fail(gas, ExecutionReverted, s)
  }

  /** The NativeAssetBalance precompile: read-only. */
  function NativeAssetBalance(s: State, cost: GasCost, input: seq<Byte>, gas: nat): (st: Step)
    ensures st.out.gasLeft <= gas
    ensures st.post == s
    ensures st.out.err == Some(OutOfGas) ==> st.out.gasLeft == 0
  {
    if gas < cost then Fail(0, OutOfGas, s)
    else
      var remaining := gas - cost;
      match UnpackNativeAssetBalanceInput(input)
      case None => Fail(remaining, ExecutionReverted, s)
      case Some(q) =>
        var balance := s.GetBalanceMultiCoin(q.owner, q.assetID);
        if balance >= WordCapacity then Fail(remaining, ExecutionReverted, s)
        else Step(Outcome(FillBytes(balance, 32), remaining, None), s)
  }

  /**
   * `evm.NativeAssetCall`: charge, decode, check the asset balance, charge for
   * a new recipient, move the asset, then call the recipient with the trailing
   * call data and no value.
   */
  function NativeAssetCall(s: State, r: Rules, cost: GasCost, caller: Address, input: seq<Byte>, gas: nat): (st: Step)
    decreases gas, 2
    ensures st.out.gasLeft <= gas
    ensures st.out.err.Some? ==> st.post == s
    ensures st.out.err == Some(OutOfGas) ==> st.out.gasLeft == 0
  {
    if gas < cost then Fail(0, OutOfGas, s)
    else
      var remaining := gas - cost;
      match UnpackNativeAssetCallInput(input)
      case None => Fail(remaining, ExecutionReverted, s)
      case Some(c) =>
        if c.assetAmount != 0 && !CanTransferMC(s, caller, c.assetID, c.assetAmount) then
          Fail(remaining, InsufficientBalance, s)
        else
          SendAsset(s, r, cost, caller, c, gas)
  }

  /**
   * NativeAssetCall once the input has decoded and the caller covers the
   * amount: charge for a missing recipient and create it, then move the
   * asset and call the recipient with what gas is left.
   */
  function SendAsset(s: State, r: Rules, cost: GasCost, caller: Address, c: AssetCall, gas: nat): (st: Step)
    requires gas >= cost && s.GetBalanceMultiCoin(caller, c.assetID) >= c.assetAmount
    decreases gas, 1
    ensures st.out.gasLeft <= gas - cost
    ensures st.out.err.Some? ==> st.post == s
    ensures st.out.err == Some(OutOfGas) ==> st.out.gasLeft == 0
  {
    var remaining := gas - cost;
    if !s.Exist(c.to) && remaining < r.gas.callNewAccountGas then
      Fail(0, OutOfGas, s)
    else
      var left := if s.Exist(c.to) then remaining else remaining - r.gas.callNewAccountGas;
      var s1 := if s.Exist(c.to) then s else s.CreateAccount(c.to);
      TransferAndCall(s, s1, r, caller, c, left)
  }

  /**
   * The tail of NativeAssetCall once its checks have passed: move the asset
   * from the caller to the recipient, call the recipient with no value and
   * `gas`, and on an error go back to `snapshot`.
   */
  function TransferAndCall(snapshot: State, s: State, r: Rules, caller: Address, c: AssetCall, gas: nat): (st: Step)
    requires s.GetBalanceMultiCoin(caller, c.assetID) >= c.assetAmount
    decreases gas + 1, 0
    ensures st.out.gasLeft <= gas
    ensures st.out.err.Some? ==> st.post == snapshot
    ensures st.out.err == Some(OutOfGas) ==> st.out.gasLeft == 0
  {
    Reconcile(snapshot, Call(s.TransferMultiCoin(caller, c.to, c.assetID, c.assetAmount), r, caller, c.to, c.callData, gas, 0))
  }
}
