/**
 * The EVM as the test drives it: it owns a reference to the shared ledger and
 * updates it in place. Each method is proved to leave the ledger, and to
 * return, exactly what the matching function of `Precompiles` says.
 */
module Evm {
  import opened Bytes
  import opened Wrappers
  import opened Codec
  import opened Ledger
  import P = Precompiles

  /** `Transfer` of the block context, applied to the shared ledger. */
  method Transfer(db: StateDB, sender: Address, recipient: Address, amount: nat)
    requires db.GetBalance(sender) >= amount
    modifies db
    ensures db.Snapshot() == old(db.Snapshot()).Transfer(sender, recipient, amount)
  {
    db.SubBalance(sender, amount);
    db.AddBalance(recipient, amount);
  }

  /** `TransferMultiCoin` of the block context, applied to the shared ledger. */
  method TransferMultiCoin(db: StateDB, sender: Address, recipient: Address, id: Hash, amount: nat)
    requires db.GetBalanceMultiCoin(sender, id) >= amount
    modifies db
    ensures db.Snapshot() == old(db.Snapshot()).TransferMultiCoin(sender, recipient, id, amount)
  {
    db.SubBalanceMultiCoin(sender, id, amount);
    db.AddBalanceMultiCoin(recipient, id, amount);
  }

  class EVM {
    const db: StateDB
    const rules: P.Rules

    /** `vm.NewEVM` over a ledger and a chain configuration. */
    constructor (db: StateDB, rules: P.Rules)
      ensures this.db == db && this.rules == rules
    {
      this.db := db;
      this.rules := rules;
    }

    method Call(caller: Address, addr: Address, input: seq<Byte>, gas: nat, value: nat)
      returns (ret: seq<Byte>, gasLeft: nat, err: Option<P.Error>)
      modifies db
      decreases gas, 4
      ensures P.Step(P.Outcome(ret, gasLeft, err), db.Snapshot())
           == P.Call(old(db.Snapshot()), rules, caller, addr, input, gas, value)
    {
      if value != 0 && !P.CanTransfer(db.Snapshot(), caller, value) {
        return [], gas, Some(P.InsufficientBalance);
      }
      var snapshot := db.Snapshot();
      var p := P.Precompile(rules, addr);
      if !db.Exist(addr) {
        if p.None? && value == 0 {
          return [], gas, None;
        }
        db.CreateAccount(addr);
      }
      Transfer(db, caller, addr, value);
      if p.Some? {
        ret, gasLeft, err := Run(p.value, caller, input, gas);
      } else {
        ret, gasLeft, err := [], gas, None;
      }
      if err.Some? {
        db.RevertToSnapshot(snapshot);
        if err != Some(P.ExecutionReverted) {
          gasLeft := 0;
        }
      }
    }

    method Run(c: P.Contract, caller: Address, input: seq<Byte>, gas: nat)
      returns (ret: seq<Byte>, gasLeft: nat, err: Option<P.Error>)
      modifies db
      decreases gas, 3
      ensures P.Step(P.Outcome(ret, gasLeft, err), db.Snapshot())
           == P.Run(c, old(db.Snapshot()), rules, caller, input, gas)
    {
      match c
      case BalancePrecompile(cost) =>
        ret, gasLeft, err := NativeAssetBalance(cost, input, gas);
      case CallPrecompile(cost) =>
        ret, gasLeft, err := NativeAssetCall(cost, caller, input, gas);
      case DeprecatedContract =>
        ret, gasLeft, err := [], gas, Some(P.ExecutionReverted);
    }

    method NativeAssetBalance(cost: P.GasCost, input: seq<Byte>, gas: nat)
      returns (ret: seq<Byte>, gasLeft: nat, err: Option<P.Error>)
      ensures P.Step(P.Outcome(ret, gasLeft, err), db.Snapshot())
           == P.NativeAssetBalance(db.Snapshot(), cost, input, gas)
    {
      if gas < cost {
        return [], 0, Some(P.OutOfGas);
      }
      gasLeft := gas - cost;
      var q := UnpackNativeAssetBalanceInput(input);
      if q.None? {
        return [], gasLeft, Some(P.ExecutionReverted);
      }
      var balance := db.GetBalanceMultiCoin(q.value.owner, q.value.assetID);
      if balance >= WordCapacity {
        return [], gasLeft, Some(P.ExecutionReverted);
      }
      ret, err := FillBytes(balance, 32), None;
    }

    method NativeAssetCall(cost: P.GasCost, caller: Address, input: seq<Byte>, gas: nat)
      returns (ret: seq<Byte>, gasLeft: nat, err: Option<P.Error>)
      modifies db
      decreases gas, 2
      ensures P.Step(P.Outcome(ret, gasLeft, err), db.Snapshot())
           == P.NativeAssetCall(old(db.Snapshot()), rules, cost, caller, input, gas)
    {
      if gas < cost {
        return [], 0, Some(P.OutOfGas);
      }
      gasLeft := gas - cost;
      var c := UnpackNativeAssetCallInput(input);
      if c.None? {
        return [], gasLeft, Some(P.ExecutionReverted);
      }
      var call := c.value;
      if call.assetAmount != 0 && !P.CanTransferMC(db.Snapshot(), caller, call.assetID, call.assetAmount) {
        return [], gasLeft, Some(P.InsufficientBalance);
      }
      ret, gasLeft, err := SendAsset(cost, caller, call, gas);
    }

    /**
     * `NativeAssetCall` once the input has decoded and the caller covers the
     * amount: charge for a missing recipient and create it, then move the
     * asset and call the recipient.
     */
    method SendAsset(cost: P.GasCost, caller: Address, call: AssetCall, gas: nat)
      returns (ret: seq<Byte>, gasLeft: nat, err: Option<P.Error>)
      requires gas >= cost && db.GetBalanceMultiCoin(caller, call.assetID) >= call.assetAmount
      modifies db
      decreases gas, 1
      ensures P.Step(P.Outcome(ret, gasLeft, err), db.Snapshot())
           == P.SendAsset(old(db.Snapshot()), rules, cost, caller, call, gas)
    {
      gasLeft := gas - cost;
      var snapshot := db.Snapshot();
      if !db.Exist(call.to) {
        if gasLeft < rules.gas.callNewAccountGas {
          return [], 0, Some(P.OutOfGas);
        }
        gasLeft := gasLeft - rules.gas.callNewAccountGas;
        db.CreateAccount(call.to);
      }
      ret, gasLeft, err := TransferAndCall(snapshot, caller, call, gasLeft);
    }

    /**
     * The tail of `NativeAssetCall` once the checks have passed: move the
     * asset, call the recipient with what gas is left, and on an error go
     * back to `snapshot`, keeping the gas only on a revert.
     */
    method TransferAndCall(snapshot: State, caller: Address, call: AssetCall, gas: nat)
      returns (ret: seq<Byte>, gasLeft: nat, err: Option<P.Error>)
      requires db.GetBalanceMultiCoin(caller, call.assetID) >= call.assetAmount
      modifies db
      decreases gas + 1, 0
      ensures P.Step(P.Outcome(ret, gasLeft, err), db.Snapshot())
           == P.TransferAndCall(snapshot, old(db.Snapshot()), rules, caller, call, gas)
    {
      TransferMultiCoin(db, caller, call.to, call.assetID, call.assetAmount);
      ret, gasLeft, err := Call(caller, call.to, call.callData, gas, 0);
      if err.Some? {
        db.RevertToSnapshot(snapshot);
        if err != Some(P.ExecutionReverted) {
          gasLeft := 0;
        }
      }
    }
  }
}
