# Stateful multi-asset precompiles of coreth, in Dafny

This project models the two stateful precompiles of coreth's Apricot rules.
NativeAssetBalance reads one account's balance of one multi-coin asset.
NativeAssetCall moves an asset amount to a recipient and then calls that
recipient. Both sit behind `evm.Call`, which the model also covers:

- the pre-check and transfer of the attached native value;
- creation of a missing callee;
- dispatch on the target address, gated by the fork;
- the snapshot revert and gas burn applied to every error.

It also models the multi-asset ledger the precompiles read and write, and the
table-driven test `TestStatefulPrecompile` that fixes their behaviour row by row.

The project has eight modules:

- `Wrappers` holds the `Option` type.

- `Bytes` holds big-endian byte fields: `FillBytes`/`SetBytes` and their round trips.
- `Codec` holds addresses, asset IDs and the two input layouts. A query is
  `owner ‖ assetID`, exactly 52 bytes. A call is
  `to ‖ assetID ‖ 32-byte amount ‖ call data`, at least 84 bytes.
- `Ledger` holds the ledger. `State` is a value: native balances,
  `(address, assetID)` balances and the set of existing accounts, where a
  missing entry reads as zero. `StateDB` is the mutable ledger that the setup
  closures, `evm.Call` and the state checks share. Every method of `StateDB`
  is proved to move it by the matching `State` function.
- `Precompiles` gives `evm.Call` and the precompiles as functions of the
  ledger before the call.
- `Evm` holds the class `EVM`. It updates a shared `StateDB` in place, and
  each of its methods is proved to return, and leave, exactly what the
  matching `Precompiles` function says.
- `Properties` proves what the call promises:
  - the balance query returns the balance as a 32-byte word;
  - a transfer moves exactly the amount;
  - every failure mode leaves the ledger untouched, with the stated gas;
  - no call creates or destroys value or breaks the account invariant.

- `StatefulTest` is described below.

`StatefulTest` is the test table: fourteen rows, each proved to pass in the
model for every gas schedule (`AllRowsPass`). It also holds the run loop
(`RunTests`), a method that builds a fresh `StateDB` per row, replays the
setup and calls `Evm.EVM.Call`.

The gas constants `params.AssetBalanceApricot`, `params.AssetCallApricot` and
`params.CallNewAccountGas` are symbolic positive parameters (`GasParams`). All
row lemmas hold for every such choice.

The test rows fix three behaviours that the model follows:

- The deprecated genesis contract hands back all the gas it was given
  (row at core/contracts_stateful_test.go:405-425), not zero.
- A 24-byte NativeAssetCall input reverts with exactly `CallNewAccountGas`
  left (:384-404). So decoding comes before the new-account surcharge, and a
  revert keeps the gas that was left.
- Every error, including a failed asset check after the attached value has
  moved, reverts the whole ledger to the snapshot taken before the value
  transfer. This is `evm.Call`'s behaviour. The state checks at :293 (100
  native after 50 was attached) and :378 state the same, but the loop returns
  before evaluating them on an error row (:436-439), so no row enforces it.

## Model

| member | source | states |
|---|---|---|
| Bytes.SetBytesOfFillBytes | core/contracts_stateful_test.go:58-67 | decoding a value that `FillBytes` wrote into a field it fits gives the value back |
| Bytes.FillBytesOfSetBytes | core/contracts_stateful_test.go:58-67 | re-encoding a decoded field at its own width gives the same bytes |
| Bytes.FillBytesInjective | core/contracts_stateful_test.go:58-67 | two values that fit encode to the same 32-byte word only if they are equal |
| Bytes.FillBytesOfZero | core/contracts_stateful_test.go:58-59 | zero encodes as all-zero bytes (`zeroBytes`) |
| Bytes.FillBytesOfSmall | core/contracts_stateful_test.go:63-67 | a value below 256, such as 50 or 100, encodes as zeros followed by that byte |
| Bytes.Zeros | core/contracts_stateful_test.go:58 | `make([]byte, n)` has length n and only zero bytes |
| Bytes.FillBytes | core/contracts_stateful_test.go:59-67 | `x.FillBytes(buf)` fills exactly the buffer's length; `Bytes.SetBytesOfFillBytes` states that the bytes are x, big-endian |
| Bytes.SetBytes | core/contracts_stateful_test.go:212 | `new(big.Int).SetBytes(b)` reads b as an unsigned big-endian number below 2^(8·len(b)); it decodes the amount field of an asset call |
| Codec.RightAlign | core/contracts_stateful_test.go:55-57 | `BytesToAddress`/`BytesToHash` keep the last n bytes, left-padded with zeros |
| Codec.BytesToAddress | core/contracts_stateful_test.go:55-56 | a byte string of at most 20 bytes becomes an address that ends with it and is zero before it; a longer one keeps its last 20 bytes |
| Codec.BytesToHash | core/contracts_stateful_test.go:57 | a byte string of at most 32 bytes becomes a hash that ends with it and is zero before it; a longer one keeps its last 32 bytes |
| Codec.Ascii | core/contracts_stateful_test.go:55-57 | `[]byte("user1")` is the byte-wise ASCII code of the literal |
| Codec.PackNativeAssetBalanceInput | core/contracts_stateful_test.go:86 | a query input is owner then assetID, 52 bytes |
| Codec.UnpackNativeAssetBalanceInput | core/contracts_stateful_test.go:145-162 | a query input decodes exactly when it is 52 bytes long |
| Codec.UnpackPackBalance | core/contracts_stateful_test.go:86 | packing a query and unpacking it gives back owner and assetID |
| Codec.PackUnpackBalance | core/contracts_stateful_test.go:86 | every decodable query input is the packing of what it decodes to |
| Codec.PackNativeAssetCallInput | core/contracts_stateful_test.go:212 | a call input is recipient, assetID, the 32-byte big-endian amount, then the call data |
| Codec.UnpackNativeAssetCallInput | core/contracts_stateful_test.go:384-404 | a call input decodes exactly when it has at least 84 bytes, and the amount fits a word |
| Codec.UnpackPackCall | core/contracts_stateful_test.go:212 | packing an asset call and unpacking it gives back its four fields |
| Codec.PackUnpackCall | core/contracts_stateful_test.go:212 | every decodable call input is the packing of what it decodes to |
| Ledger.State.CreateAccount | core/contracts_stateful_test.go:77 | the account exists afterwards, no other account appears, no balance changes, and the account invariant is kept |
| Ledger.State.GetBalance | core/contracts_stateful_test.go:220-221 | `stateDB.GetBalance(a)` is the account's native balance, 0 when it has none (a plain read without a contract) |
| Ledger.State.GetBalanceMultiCoin | core/contracts_stateful_test.go:222-223 | `stateDB.GetBalanceMultiCoin(a, id)` is the account's balance of that asset, 0 when it has none (a plain read without a contract) |
| Ledger.State.Exist | core/contracts_stateful_test.go:352-383 | `stateDB.Exist(a)` holds exactly for accounts created or written to (a plain read without a contract) |
| Ledger.State.SetBalance | core/contracts_stateful_test.go:79 | the account's native balance becomes x, every other native balance and all asset balances are unchanged |
| Ledger.State.AddBalance | core/contracts_stateful_test.go:34-39 | the account's native balance grows by x, every other balance is unchanged |
| Ledger.State.SubBalance | core/contracts_stateful_test.go:34-39 | a covered debit lowers the account's native balance by x, every other balance is unchanged |
| Ledger.State.SetBalanceMultiCoin | core/contracts_stateful_test.go:206 | the (account, asset) balance becomes x, every other asset balance and all native balances are unchanged |
| Ledger.State.AddBalanceMultiCoin | core/contracts_stateful_test.go:104 | the (account, asset) balance grows by x, every other balance is unchanged |
| Ledger.State.SubBalanceMultiCoin | core/contracts_stateful_test.go:105 | a covered debit lowers the (account, asset) balance by x, every other balance is unchanged |
| Ledger.State.Transfer | core/contracts_stateful_test.go:34-39 | the native amount moves from sender to recipient and no other native balance changes; both accounts then exist |
| Ledger.State.TransferMultiCoin | core/contracts_stateful_test.go:34-39 | the asset amount moves from sender to recipient and no other balance changes; both accounts then exist |
| Ledger.EmptyReadsZero | core/contracts_stateful_test.go:72 | a fresh ledger has no accounts, reads zero everywhere and satisfies the account invariant |
| Ledger.AddThenSubRestores | core/contracts_stateful_test.go:103-106 | crediting then debiting the same amount leaves every asset balance as before, while the account now exists |
| Ledger.SetBalanceSupply | core/contracts_stateful_test.go:79 | writing a native balance changes the native supply by the difference and no asset supply |
| Ledger.AssetEntrySupply | core/contracts_stateful_test.go:206 | writing one asset entry changes that asset's supply by the difference and no other asset's |
| Ledger.SumRemove | core/contracts_stateful_test.go:219-229 | the supply of a map is one entry plus the supply of the rest |
| Ledger.SumUpdate | core/contracts_stateful_test.go:219-229 | overwriting one entry changes the supply by the difference |
| Ledger.TransferConserves | core/contracts_stateful_test.go:252-264 | a native transfer keeps the native supply, every asset supply and the account invariant |
| Ledger.AssetMoveSupply | core/contracts_stateful_test.go:219-229 | debiting and crediting the same asset amount keeps every asset's supply |
| Ledger.TransferMultiCoinConserves | core/contracts_stateful_test.go:219-229 | an asset transfer keeps every asset supply, the native supply and the account invariant |
| Ledger.StateDB.constructor | core/contracts_stateful_test.go:72 | `state.New` yields the empty ledger |
| Ledger.StateDB.CreateAccount | core/contracts_stateful_test.go:77 | the shared ledger moves by `State.CreateAccount` |
| Ledger.StateDB.SetBalance | core/contracts_stateful_test.go:79 | the shared ledger moves by `State.SetBalance` |
| Ledger.StateDB.AddBalance | core/contracts_stateful_test.go:34-39 | the shared ledger moves by `State.AddBalance` |
| Ledger.StateDB.SubBalance | core/contracts_stateful_test.go:34-39 | the shared ledger moves by `State.SubBalance` |
| Ledger.StateDB.SetBalanceMultiCoin | core/contracts_stateful_test.go:206 | the shared ledger moves by `State.SetBalanceMultiCoin` |
| Ledger.StateDB.AddBalanceMultiCoin | core/contracts_stateful_test.go:104 | the shared ledger moves by `State.AddBalanceMultiCoin` |
| Ledger.StateDB.SubBalanceMultiCoin | core/contracts_stateful_test.go:105 | the shared ledger moves by `State.SubBalanceMultiCoin` |
| Ledger.StateDB.RevertToSnapshot | core/contracts_stateful_test.go:372-382 | the shared ledger becomes exactly the snapshot taken before the call |
| Precompiles.PrecompileAddrsDistinct | core/contracts_stateful_test.go:21-25 | the genesis contract, NativeAssetBalance and NativeAssetCall addresses are pairwise distinct |
| Precompiles.CanTransfer | core/contracts_stateful_test.go:35 | the native pre-check passes exactly when the balance covers the amount (a predicate without a contract; `Properties.ValueShortfallRefundsGas` states what a failed check does) |
| Precompiles.CanTransferMC | core/contracts_stateful_test.go:36 | the asset pre-check passes exactly when the asset balance covers the amount (a predicate without a contract; `Properties.AssetCallFailures` states what a failed check does) |
| Precompiles.Precompile | core/contracts_stateful_test.go:431 | exactly the three stateful addresses have a precompile; the genesis address is always the deprecated contract; under ApricotPhase5 the other two are NativeAssetBalance and NativeAssetCall with their fixed charges; under ApricotPhase6 all three are the deprecated contract |
| Precompiles.Reconcile | core/contracts_stateful_test.go:433-439 | an error reverts to the snapshot and burns all gas unless it is a revert, which keeps the gas left; success passes through |
| Precompiles.EnterCall | core/contracts_stateful_test.go:252-264 | entering a call moves the attached value from the caller to the callee and touches no asset balance |
| Precompiles.Call | core/contracts_stateful_test.go:432 | a call never returns more gas than it was given; on error the ledger is the one before the call; out of gas leaves nothing |
| Precompiles.Run | core/contracts_stateful_test.go:431-432 | running a precompile keeps the same gas bound and revert guarantees |
| Precompiles.NativeAssetBalance | core/contracts_stateful_test.go:70-180 | the balance query never changes the ledger, never returns more gas than given, and runs out of gas with nothing left |
| Precompiles.NativeAssetCall | core/contracts_stateful_test.go:199-404 | the asset call keeps the gas bound, reverts the ledger on error and leaves no gas on OutOfGas |
| Precompiles.SendAsset | core/contracts_stateful_test.go:352-371 | once decoded and covered, the asset call never returns more than the gas after its charge, reverts on error and runs out of gas with nothing left |
| Precompiles.TransferAndCall | core/contracts_stateful_test.go:199-266 | after its checks the asset call keeps the gas bound and reverts to the snapshot on any error |
| Evm.Transfer | core/contracts_stateful_test.go:34-39 | the shared ledger moves by `State.Transfer` |
| Evm.TransferMultiCoin | core/contracts_stateful_test.go:34-39 | the shared ledger moves by `State.TransferMultiCoin` |
| Evm.EVM.constructor | core/contracts_stateful_test.go:431 | `vm.NewEVM` keeps the shared ledger and the chain rules |
| Evm.EVM.Call | core/contracts_stateful_test.go:432 | the in-place call returns and leaves exactly what `Precompiles.Call` says |
| Evm.EVM.Run | core/contracts_stateful_test.go:432 | the in-place dispatch returns and leaves exactly what `Precompiles.Run` says |
| Evm.EVM.NativeAssetBalance | core/contracts_stateful_test.go:70-180 | the in-place query returns exactly what `Precompiles.NativeAssetBalance` says |
| Evm.EVM.NativeAssetCall | core/contracts_stateful_test.go:199-404 | the in-place asset call returns and leaves exactly what `Precompiles.NativeAssetCall` says |
| Evm.EVM.SendAsset | core/contracts_stateful_test.go:352-371 | once decoded and covered, the in-place asset call charges the new-account cost and returns and leaves exactly what `Precompiles.SendAsset` says |
| Evm.EVM.TransferAndCall | core/contracts_stateful_test.go:199-266 | the in-place transfer and nested call match `Precompiles.TransferAndCall` |
| Properties.CallKeepsLedger | core/contracts_stateful_test.go:219-229 | no call creates or destroys native or asset value, and none breaks the account invariant |
| Properties.RunKeepsLedger | core/contracts_stateful_test.go:219-229 | running any precompile keeps every supply and the account invariant |
| Properties.NativeAssetCallKeepsLedger | core/contracts_stateful_test.go:219-229 | the asset call keeps every supply and the account invariant |
| Properties.TransferAndCallKeepsLedger | core/contracts_stateful_test.go:219-229 | moving the asset and calling the recipient keeps every supply and the account invariant |
| Properties.ValueShortfallRefundsGas | core/contracts_stateful_test.go:181-198 | attached value above the caller's native balance fails with InsufficientBalance, all gas returned, ledger untouched, before any precompile runs |
| Properties.QueryReturnsBalance | core/contracts_stateful_test.go:120-144 | with enough gas, a well-formed query returns the owner's asset balance as a 32-byte word and the gas minus the query cost, moving only the attached value |
| Properties.QueryFailures | core/contracts_stateful_test.go:145-180 | a query with too little gas fails OutOfGas with 0 left; a query of the wrong length, or of a balance of 2^256 or more, reverts with the gas after the charge; the ledger is untouched |
| Properties.PlainAccountCall | core/contracts_stateful_test.go:199-231 | calling an existing account without code and no value succeeds with all gas left and only touches the two accounts |
| Properties.SendThenEnter | core/contracts_stateful_test.go:219-229 | moving an asset and entering the recipient with no value changes only the two asset balances |
| Properties.SendToPlainAccount | core/contracts_stateful_test.go:199-231 | the transfer tail towards an existing plain account moves the asset and spends no gas |
| Properties.NativeAssetCallMovesAsset | core/contracts_stateful_test.go:199-231 | the precompile moves exactly the amount to the recipient, charges the new-account cost only for a missing recipient, and leaves native balances alone |
| Properties.AssetCallTransfers | core/contracts_stateful_test.go:232-266 | through `evm.Call`, the attached value goes to the precompile's address and the asset to the recipient, with the gas left stated |
| Properties.AssetCallFailures | core/contracts_stateful_test.go:331-404 | the asset call fails OutOfGas below its cost, reverts on a short input, fails InsufficientBalance on an uncovered amount and OutOfGas when a new recipient cannot be paid for, each with the ledger untouched |
| Properties.DeprecatedReverts | core/contracts_stateful_test.go:405-425 | the genesis contract, and every stateful address under ApricotPhase6, reverts with all gas returned and the ledger untouched |
| StatefulTest.FundedState | core/contracts_stateful_test.go:205-206 | the two-write setup gives User1 the stated native and asset balances and nobody else anything |
| StatefulTest.FundedSetup | core/contracts_stateful_test.go:205-206 | replaying that setup yields `FundedState` |
| StatefulTest.NativeOnlyReadsZero | core/contracts_stateful_test.go:70-93 | after the first setup User1 holds 100 native and no asset |
| StatefulTest.AssetAddedThenSpentReadsZero | core/contracts_stateful_test.go:94-119 | after credit then debit of 100, the asset balance reads 0 |
| StatefulTest.AssetAddedReadsHundred | core/contracts_stateful_test.go:120-144 | after a credit of 100, the asset balance reads 100 |
| StatefulTest.TestAddrsDistinct | core/contracts_stateful_test.go:55-56 | user1 and user2 differ from each other and from every stateful address |
| StatefulTest.ApplyOp | core/contracts_stateful_test.go:76-79 | one write of a setup closure sets the entry it names (or adds to or subtracts from it) and makes its account exist |
| StatefulTest.Setup | core/contracts_stateful_test.go:71-83 | replaying a setup's writes never removes an account, and every account a write names exists afterwards |
| StatefulTest.SetupKeepsValid | core/contracts_stateful_test.go:71-83 | replaying a setup on a ledger that meets the account invariant keeps it |
| StatefulTest.Passes | core/contracts_stateful_test.go:433-445 | a row passes only if the gas left and the error are the expected ones, whether or not an error is expected |
| StatefulTest.ErrorRowSkipsChecks | core/contracts_stateful_test.go:436-439 | on a row that expects an error, the state checks never decide whether it passes |
| StatefulTest.Holds | core/contracts_stateful_test.go:220-228 | one `assert.Equal` of a state check compares the ledger's native or asset balance of one account with the expected number (a predicate without a contract) |
| StatefulTest.RunRow | core/contracts_stateful_test.go:429-432 | a row's `evm.Call` on the ledger its setup built, under ApricotPhase5, never returns more gas than the row gives, and on error leaves that ledger as it was |
| StatefulTest.Row0 | core/contracts_stateful_test.go:70-93 | the setup's debits are covered, the input decodes to a query of user1's ScoobyCoin, and the expected output is 32 zero bytes |
| StatefulTest.Row1 | core/contracts_stateful_test.go:94-119 | the setup's debits are covered, the input decodes to a query of user1's ScoobyCoin, and the expected output is 32 zero bytes |
| StatefulTest.Row2 | core/contracts_stateful_test.go:120-144 | the setup's debits are covered, the input decodes to a query of user1's ScoobyCoin, and the expected output is 31 zero bytes then 100 |
| StatefulTest.Row3 | core/contracts_stateful_test.go:145-162 | the empty input does not decode as a query |
| StatefulTest.Row4 | core/contracts_stateful_test.go:163-180 | the input decodes as a query and the gas is below the query's charge |
| StatefulTest.Row5 | core/contracts_stateful_test.go:181-198 | the input decodes as a query and the caller of an empty ledger cannot cover the attached value |
| StatefulTest.Row6 | core/contracts_stateful_test.go:199-231 | the setup's debits are covered and the input decodes to sending 50 ScoobyCoin to user2 with no call data |
| StatefulTest.Row7 | core/contracts_stateful_test.go:232-266 | the setup's debits are covered and the input decodes to sending 50 ScoobyCoin to user2 with no call data |
| StatefulTest.Row8 | core/contracts_stateful_test.go:267-298 | the input decodes to sending 51 ScoobyCoin to user2, more than the 50 the setup gives user1 |
| StatefulTest.Row9 | core/contracts_stateful_test.go:299-330 | the input decodes to sending 50 ScoobyCoin to user2, and the attached value exceeds user1's native balance |
| StatefulTest.Row10 | core/contracts_stateful_test.go:331-351 | the input decodes to sending 50 ScoobyCoin to user2, and the gas is below the call's charge |
| StatefulTest.Row11 | core/contracts_stateful_test.go:352-383 | the input decodes to sending 50 ScoobyCoin to user2, who does not exist, and the gas is below the call's charge plus the new-account charge |
| StatefulTest.Row12 | core/contracts_stateful_test.go:384-404 | the setup's debits are covered and the 24-byte input does not decode as an asset call |
| StatefulTest.Row13 | core/contracts_stateful_test.go:405-425 | the setup's debits are covered and the call goes from user1, not a precompile, to the genesis contract address |
| StatefulTest.QueryRow | core/contracts_stateful_test.go:120-144 | a well-funded query row returns the owner's balance and passes |
| StatefulTest.QueryFailureRow | core/contracts_stateful_test.go:145-180 | a query row out of gas or with a malformed input passes |
| StatefulTest.ShortfallRow | core/contracts_stateful_test.go:181-198 | a row whose attached value is not covered passes with all gas returned |
| StatefulTest.CallFailureRow | core/contracts_stateful_test.go:331-404 | an asset-call row failing in one of the four ways passes |
| StatefulTest.SendToNewAccountRow | core/contracts_stateful_test.go:199-266 | a transfer row to a new account with exact gas passes, state checks included |
| StatefulTest.DeprecatedRow | core/contracts_stateful_test.go:405-425 | a row calling the genesis contract passes with all gas returned |
| StatefulTest.TransferChecksExpected | core/contracts_stateful_test.go:252-264 | the state checks of the two transfer rows are what moving 50 of the asset and the attached value leaves |
| StatefulTest.TransferRowSetup | core/contracts_stateful_test.go:199-266 | the two transfer rows' setup funds user1, leaves user2 a fresh plain account, and makes their checks the transfer's effect |
| StatefulTest.UninitializedBalanceRow | core/contracts_stateful_test.go:70-93 | row "uninitialized multicoin balance returns 0" passes |
| StatefulTest.InitializedBalanceRow | core/contracts_stateful_test.go:94-119 | row "initialized multicoin balance returns 0" passes |
| StatefulTest.NonZeroBalanceRow | core/contracts_stateful_test.go:120-144 | row "returns correct non-zero multicoin balance" passes |
| StatefulTest.InvalidBalanceInputRow | core/contracts_stateful_test.go:145-162 | row "invalid input data reverts" passes |
| StatefulTest.BalanceOutOfGasRow | core/contracts_stateful_test.go:163-180 | row "insufficient gas errors" passes |
| StatefulTest.BalanceValueShortfallRow | core/contracts_stateful_test.go:181-198 | row "non-zero value with insufficient funds reverts before running pre-compile" passes |
| StatefulTest.MulticoinTransferRow | core/contracts_stateful_test.go:199-231 | row "multicoin transfer" passes, state checks included |
| StatefulTest.MulticoinTransferWithValueRow | core/contracts_stateful_test.go:232-266 | row "multicoin transfer with non-zero value" passes, state checks included |
| StatefulTest.InsufficientMulticoinRow | core/contracts_stateful_test.go:267-298 | row "insufficient multicoin funds" passes, with its state check as written |
| StatefulTest.InsufficientMulticoinKeepsSetup | core/contracts_stateful_test.go:267-298 | the failed call of that row leaves exactly the ledger its setup made |
| StatefulTest.InsufficientMulticoinChecksAsWrittenFail | core/contracts_stateful_test.go:295 | the row's state check as written (51) fails on that ledger |
| StatefulTest.InsufficientMulticoinChecksOnSetup | core/contracts_stateful_test.go:287-297 | the corrected check (50) reads the setup's ledger |
| StatefulTest.InsufficientMulticoinChecksHold | core/contracts_stateful_test.go:287-297 | the corrected check (50) holds after the row's call |
| StatefulTest.InsufficientFundsRow | core/contracts_stateful_test.go:299-330 | row "insufficient funds" passes |
| StatefulTest.CallOutOfGasRow | core/contracts_stateful_test.go:331-351 | row "insufficient gas for native asset call" passes |
| StatefulTest.NewAccountOutOfGasRow | core/contracts_stateful_test.go:352-383 | row "insufficient gas to create new account" passes |
| StatefulTest.InvalidCallInputRow | core/contracts_stateful_test.go:384-404 | row "invalid input" passes with exactly the new-account gas left |
| StatefulTest.DeprecatedContractRow | core/contracts_stateful_test.go:405-425 | row "deprecated contract" passes with all gas returned |
| StatefulTest.Tests | core/contracts_stateful_test.go:69-426 | the table has fourteen rows |
| StatefulTest.RowPasses | core/contracts_stateful_test.go:427-447 | every row of the table, by index, passes |
| StatefulTest.AllRowsPass | core/contracts_stateful_test.go:427-447 | for every gas schedule, every row of the table passes |
| StatefulTest.RowKeepsLedger | core/contracts_stateful_test.go:427-447 | a row's setup ledger meets the account invariant, and its call keeps that invariant and the supply of every kind of value |
| StatefulTest.TableKeepsLedger | core/contracts_stateful_test.go:427-447 | for every row of the table, the call leaves a ledger that meets the account invariant and holds as much of each value as the setup made |
| StatefulTest.RunSetup | core/contracts_stateful_test.go:71-83 | replaying a setup's writes on the shared ledger one by one yields the ledger `Setup` describes |
| StatefulTest.RunOne | core/contracts_stateful_test.go:429-432 | one iteration builds a fresh ledger, replays the setup and returns exactly the row's modelled call |
| StatefulTest.ObservedExtends | core/contracts_stateful_test.go:427-447 | appending the next row's observation keeps every observation equal to its row's call and passing |
| StatefulTest.RunTests | core/contracts_stateful_test.go:427-447 | the loop observes every row's modelled call, and every observation meets its row's assertions |

## Left out

- The EVM interpreter, bytecode and the Ethereum cryptographic precompiles are left out. An address other than the three stateful ones is an account without code.
- Static calls (`readOnly`) and the call-depth limit are left out.
- `Finalise`, the state trie, rawdb and persistence are left out. `state.New` over a fresh database is the empty ledger.
- Balances and gas are unbounded naturals. The 64-bit gas and 256-bit native balances do not wrap. The one 256-bit bound that matters is kept: a queried asset balance of 2^256 or more reverts, and a packed amount must fit 32 bytes.
- The snapshot is a copy of the ledger value, not a journal. The journal's internal order is not modelled.
- The Go types compared by `assert.Equal` (`*big.Int` against `*uint256.Int`) are not modelled. A check compares numbers.
- `t.Run` and `assert` reporting are left out. The loop is modelled by what it asserts: `Passes`.
- Precompiles.Call: its own contract states only the gas bound and the revert guarantee. The full behaviour is stated by the Properties lemmas about it, because a complete contract on a recursive function this large is too costly to prove.
- Precompiles.NativeAssetBalance: its own contract states only the gas bound and that the ledger is unchanged. `Properties.QueryReturnsBalance` and `Properties.QueryFailures` state the rest.
- Precompiles.NativeAssetCall: its own contract states only the gas bound and the revert guarantee. `Properties.NativeAssetCallMovesAsset` and `Properties.AssetCallFailures` state the rest.
- The Redis trace cache, its eviction, the pause gate and the sync status client are not part of this model. They are I/O and concurrency around a store that is not shown.

## Findings

| source | as written | input that shows it | evidently intended | confidence | as-written member | corrected member |
|---|---|---|---|---|---|---|
| core/contracts_stateful_test.go:295 | the "insufficient multicoin funds" row checks that user1's asset balance is 51 after the failed call | setup gives user1 50 ScoobyCoin (:274); the call fails with InsufficientBalance and reverts, so the balance stays 50 | the check expects 50; the loop returns before evaluating it on an error row (:436-439), so it never fired | not executed | StatefulTest.InsufficientMulticoinChecksAsWrittenFail | StatefulTest.InsufficientMulticoinChecksHold |
