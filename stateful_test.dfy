/**
 * The table of `TestStatefulPrecompile` and its run loop. Each row fixes an
 * initial ledger (the setup closure's writes, in order), a caller, a target,
 * an input, an attached value and a gas budget, and what `evm.Call` must
 * return; `AllRowsPass` proves the model meets every row, and `RunTests`
 * walks the table the way the loop does.
 */
module StatefulTest {
  import opened Bytes
  import opened Wrappers
  import opened Codec
  import opened Ledger
  import opened Precompiles
  import opened Properties
  import Evm

  /** One ledger write made by a row's setup closure. */
  datatype SetupOp =
    | CreateAccount(a: Address)
    | SetBalance(a: Address, x: nat)
    | SetBalanceMultiCoin(a: Address, id: Hash, x: nat)
    | AddBalanceMultiCoin(a: Address, id: Hash, x: nat)
    | SubBalanceMultiCoin(a: Address, id: Hash, x: nat)

  /** One assertion of a row's `stateDBCheck`. */
  datatype Check = NativeIs(a: Address, x: nat) | AssetIs(a: Address, id: Hash, x: nat)

  datatype TestCase = TestCase(
    name: string,
    setup: seq<SetupOp>,
    from: Address,
    precompileAddr: Address,
    input: seq<Byte>,
    value: nat,
    gasInput: nat,
    expectedGasRemaining: nat,
    expectedErr: Option<Error>,
    expectedResult: seq<Byte>,
    stateDBCheck: seq<Check>)

  predicate OpDefined(s: State, op: SetupOp)
  {
    op.SubBalanceMultiCoin? ==> s.GetBalanceMultiCoin(op.a, op.id) >= op.x
  }

  /** One write of the setup closure: it sets the entry it names and adds its account. */
  function ApplyOp(s: State, op: SetupOp): (r: State)
    requires OpDefined(s, op)
    ensures r.accounts == s.accounts + {op.a}
    ensures match op
      case CreateAccount(a) => r.native == s.native && r.assets == s.assets
      case SetBalance(a, x) =>
        && r.GetBalance(a) == x && r.assets == s.assets
        && forall b :: b != a ==> r.GetBalance(b) == s.GetBalance(b)
      case SetBalanceMultiCoin(a, id, x) =>
        && r.GetBalanceMultiCoin(a, id) == x && r.native == s.native
        && forall b, j :: (b, j) != (a, id) ==> r.GetBalanceMultiCoin(b, j) == s.GetBalanceMultiCoin(b, j)
      case AddBalanceMultiCoin(a, id, x) =>
        && r.GetBalanceMultiCoin(a, id) == s.GetBalanceMultiCoin(a, id) + x && r.native == s.native
        && forall b, j :: (b, j) != (a, id) ==> r.GetBalanceMultiCoin(b, j) == s.GetBalanceMultiCoin(b, j)
      case SubBalanceMultiCoin(a, id, x) =>
        && r.GetBalanceMultiCoin(a, id) == s.GetBalanceMultiCoin(a, id) - x && r.native == s.native
        && forall b, j :: (b, j) != (a, id) ==> r.GetBalanceMultiCoin(b, j) == s.GetBalanceMultiCoin(b, j)
  {
    match op
    case CreateAccount(a) => s.CreateAccount(a)
    case SetBalance(a, x) => s.SetBalance(a, x)
    case SetBalanceMultiCoin(a, id, x) => s.SetBalanceMultiCoin(a, id, x)
    case AddBalanceMultiCoin(a, id, x) => s.AddBalanceMultiCoin(a, id, x)
    case SubBalanceMultiCoin(a, id, x) => s.SubBalanceMultiCoin(a, id, x)
  }

  /** Every debit of the setup is covered when it is made. */
  predicate SetupDefined(s: State, ops: seq<SetupOp>)
    decreases |ops|
  {
    ops == [] || (OpDefined(s, ops[0]) && SetupDefined(ApplyOp(s, ops[0]), ops[1..]))
  }

  /** `test.setupStateDB()`: the writes in order; no account is ever removed. */
  function Setup(s: State, ops: seq<SetupOp>): (r: State)
    requires SetupDefined(s, ops)
    decreases |ops|
    ensures s.accounts <= r.accounts
    ensures forall k :: 0 <= k < |ops| ==> ops[k].a in r.accounts
  {
    if ops == [] then s else Setup(ApplyOp(s, ops[0]), ops[1..])
  }

  lemma SetupFirst(s: State, op: SetupOp, ops: seq<SetupOp>)
    requires OpDefined(s, op) && SetupDefined(ApplyOp(s, op), ops)
    ensures SetupDefined(s, [op] + ops)
    ensures Setup(s, [op] + ops) == Setup(ApplyOp(s, op), ops)
  {
    assert ([op] + ops)[0] == op && ([op] + ops)[1..] == ops;
  }

  predicate Holds(c: Check, s: State)
  {
    match c
    case NativeIs(a, x) => s.GetBalance(a) == x
    case AssetIs(a, id, x) => s.GetBalanceMultiCoin(a, id) == x
  }

  /**
   * What the loop asserts of a row: the gas left first; then, when an error is
   * expected, that error and nothing more (the loop returns before any state
   * check); otherwise no error, the expected output and every state check.
   */
  predicate Passes(test: TestCase, st: Step): (p: bool)
    ensures p ==> st.out.gasLeft == test.expectedGasRemaining
    ensures p ==> st.out.err == test.expectedErr
  {
    && st.out.gasLeft == test.expectedGasRemaining
    && if test.expectedErr.Some? then st.out.err == test.expectedErr
       else
         && st.out.err.None?
         && st.out.ret == test.expectedResult
         && forall c :: c in test.stateDBCheck ==> Holds(c, st.post)
  }

  /** The loop returns before the state checks of a row that expects an error, so they never decide it. */
  lemma ErrorRowSkipsChecks(test: TestCase, st: Step, checks: seq<Check>)
    requires test.expectedErr.Some?
    ensures Passes(test, st) <==> Passes(test.(stateDBCheck := checks), st)
  {
  }

  const User1: Address := BytesToAddress(Ascii("user1"))
  const User2: Address := BytesToAddress(Ascii("user2"))
  const ScoobyCoin: Hash := BytesToHash(Ascii("ScoobyCoin"))

  /** The ledger writes shared by most NativeAssetCall rows. */
  function Funded(native: nat, asset: nat): seq<SetupOp>
  {
    [SetBalance(User1, native), SetBalanceMultiCoin(User1, ScoobyCoin, asset)]
  }

  function BalanceInput(): seq<Byte>
  {
    PackNativeAssetBalanceInput(User1, ScoobyCoin)
  }

  /** Send 50 ScoobyCoin to User2 with no call data. */
  function Call50(): seq<Byte>
  {
    PackNativeAssetCallInput(User2, ScoobyCoin, 50, [])
  }

  /** The setups of the three balance query rows that read a balance. */
  function NativeOnly(): seq<SetupOp>
  {
    [CreateAccount(User1), SetBalance(User1, 100)]
  }

  function AssetAddedThenSpent(): seq<SetupOp>
  {
    NativeOnly() + [AddBalanceMultiCoin(User1, ScoobyCoin, 100), SubBalanceMultiCoin(User1, ScoobyCoin, 100)]
  }

  function AssetAdded(): seq<SetupOp>
  {
    NativeOnly() + [AddBalanceMultiCoin(User1, ScoobyCoin, 100)]
  }

  function Row0(g: GasParams): (t: TestCase)
    ensures SetupDefined(Empty, t.setup)
    ensures UnpackNativeAssetBalanceInput(t.input) == Some(BalanceQuery(User1, ScoobyCoin))
    ensures t.expectedResult == Zeros(32)
  {
    NativeOnlyReadsZero(); UnpackPackBalance(User1, ScoobyCoin); FillBytesOfZero(32);
    TestCase("native asset balance: uninitialized multicoin balance returns 0",
      NativeOnly(),
      User1, NativeAssetBalanceAddr, BalanceInput(), 0, g.assetBalanceApricot, 0, None, FillBytes(0, 32), [])
  }

  function Row1(g: GasParams): (t: TestCase)
    ensures SetupDefined(Empty, t.setup)
    ensures UnpackNativeAssetBalanceInput(t.input) == Some(BalanceQuery(User1, ScoobyCoin))
    ensures t.expectedResult == Zeros(32)
  {
    AssetAddedThenSpentReadsZero(); UnpackPackBalance(User1, ScoobyCoin); FillBytesOfZero(32);
    TestCase("native asset balance: initialized multicoin balance returns 0",
      AssetAddedThenSpent(),
      User1, NativeAssetBalanceAddr, BalanceInput(), 0, g.assetBalanceApricot, 0, None, FillBytes(0, 32), [])
  }

  function Row2(g: GasParams): (t: TestCase)
    ensures SetupDefined(Empty, t.setup)
    ensures UnpackNativeAssetBalanceInput(t.input) == Some(BalanceQuery(User1, ScoobyCoin))
    ensures t.expectedResult == Zeros(31) + [100]
  {
    AssetAddedReadsHundred(); UnpackPackBalance(User1, ScoobyCoin); FillBytesOfSmall(100, 32);
    TestCase("native asset balance: returns correct non-zero multicoin balance",
      AssetAdded(),
      User1, NativeAssetBalanceAddr, BalanceInput(), 0, g.assetBalanceApricot, 0, None, FillBytes(100, 32), [])
  }

  function Row3(g: GasParams): (t: TestCase)
    ensures UnpackNativeAssetBalanceInput(t.input).None?
  {
    TestCase("native asset balance: invalid input data reverts",
      [], User1, NativeAssetBalanceAddr, [], 0, g.assetBalanceApricot, 0, Some(ExecutionReverted), [], [])
  }

  function Row4(g: GasParams): (t: TestCase)
    ensures UnpackNativeAssetBalanceInput(t.input) == Some(BalanceQuery(User1, ScoobyCoin))
    ensures t.gasInput < g.assetBalanceApricot
  {
    UnpackPackBalance(User1, ScoobyCoin);
    TestCase("native asset balance: insufficient gas errors",
      [], User1, NativeAssetBalanceAddr, BalanceInput(), 0, g.assetBalanceApricot - 1, 0, Some(OutOfGas), [], [])
  }

  function Row5(g: GasParams): (t: TestCase)
    ensures UnpackNativeAssetBalanceInput(t.input) == Some(BalanceQuery(User1, ScoobyCoin))
    ensures t.setup == [] && Empty.GetBalance(t.from) < t.value
  {
    EmptyReadsZero(User1, ScoobyCoin);
    UnpackPackBalance(User1, ScoobyCoin);
    TestCase("native asset balance: non-zero value with insufficient funds reverts before running pre-compile",
      [], User1, NativeAssetBalanceAddr, BalanceInput(), 100, g.assetBalanceApricot, g.assetBalanceApricot,
      Some(InsufficientBalance), [], [])
  }

  /** The state checks of the two successful NativeAssetCall rows. */
  function TransferChecks(): seq<Check>
  {
    [NativeIs(User1, 100), NativeIs(User2, 0), AssetIs(User1, ScoobyCoin, 50), AssetIs(User2, ScoobyCoin, 50)]
  }

  function TransferWithValueChecks(): seq<Check>
  {
    [NativeIs(User1, 51), NativeIs(User2, 0), NativeIs(NativeAssetCallAddr, 49),
     AssetIs(User1, ScoobyCoin, 50), AssetIs(User2, ScoobyCoin, 50)]
  }

  function Row6(g: GasParams): (t: TestCase)
    ensures SetupDefined(Empty, t.setup)
    ensures UnpackNativeAssetCallInput(t.input) == Some(AssetCall(User2, ScoobyCoin, 50, []))
  {
    FundedSetup(100, 100); UnpackPackCall(User2, ScoobyCoin, 50, []);
    TestCase("native asset call: multicoin transfer",
      Funded(100, 100), User1, NativeAssetCallAddr, Call50(), 0, g.assetCallApricot + g.callNewAccountGas, 0, None, [],
      TransferChecks())
  }

  function Row7(g: GasParams): (t: TestCase)
    ensures SetupDefined(Empty, t.setup)
    ensures UnpackNativeAssetCallInput(t.input) == Some(AssetCall(User2, ScoobyCoin, 50, []))
  {
    FundedSetup(100, 100); UnpackPackCall(User2, ScoobyCoin, 50, []);
    TestCase("native asset call: multicoin transfer with non-zero value",
      Funded(100, 100), User1, NativeAssetCallAddr, Call50(), 49, g.assetCallApricot + g.callNewAccountGas, 0, None, [],
      TransferWithValueChecks())
  }

  /** The state check of the insufficient multicoin funds row as written: 51 where the setup gives 50. */
  function InsufficientMulticoinChecksAsWritten(): seq<Check>
  {
    [NativeIs(User1, 100), NativeIs(User2, 0), AssetIs(User1, ScoobyCoin, 51), AssetIs(User2, ScoobyCoin, 0)]
  }

  /** The same check expecting the balance the setup gives, which the failed call leaves in place. */
  function InsufficientMulticoinChecks(): seq<Check>
  {
    [NativeIs(User1, 100), NativeIs(User2, 0), AssetIs(User1, ScoobyCoin, 50), AssetIs(User2, ScoobyCoin, 0)]
  }

  /** Its state check is the one written at :295; the loop never evaluates it. */
  function Row8(g: GasParams): (t: TestCase)
    ensures SetupDefined(Empty, t.setup)
    ensures UnpackNativeAssetCallInput(t.input) == Some(AssetCall(User2, ScoobyCoin, 51, []))
    ensures Setup(Empty, t.setup).GetBalanceMultiCoin(User1, ScoobyCoin) < 51
  {
    FundedSetup(100, 50); UnpackPackCall(User2, ScoobyCoin, 51, []);
    TestCase("native asset call: insufficient multicoin funds",
      Funded(100, 50), User1, NativeAssetCallAddr, PackNativeAssetCallInput(User2, ScoobyCoin, 51, []),
      50, g.assetCallApricot, 0, Some(InsufficientBalance), [], InsufficientMulticoinChecksAsWritten())
  }

  function Row9(g: GasParams): (t: TestCase)
    ensures SetupDefined(Empty, t.setup)
    ensures UnpackNativeAssetCallInput(t.input) == Some(AssetCall(User2, ScoobyCoin, 50, []))
    ensures Setup(Empty, t.setup).GetBalance(t.from) < t.value
  {
    FundedSetup(50, 50); UnpackPackCall(User2, ScoobyCoin, 50, []);
    TestCase("native asset call: insufficient funds",
      Funded(50, 50), User1, NativeAssetCallAddr, Call50(), 51, g.assetCallApricot, g.assetCallApricot,
      Some(InsufficientBalance), [],
      [NativeIs(User1, 50), NativeIs(User2, 0), AssetIs(User1, ScoobyCoin, 50), AssetIs(User2, ScoobyCoin, 0)])
  }

  function Row10(g: GasParams): (t: TestCase)
    ensures SetupDefined(Empty, t.setup)
    ensures UnpackNativeAssetCallInput(t.input) == Some(AssetCall(User2, ScoobyCoin, 50, []))
    ensures t.gasInput < g.assetCallApricot
  {
    FundedSetup(100, 100); UnpackPackCall(User2, ScoobyCoin, 50, []);
    TestCase("native asset call: insufficient gas for native asset call",
      Funded(100, 100), User1, NativeAssetCallAddr, Call50(), 50, g.assetCallApricot - 1, 0, Some(OutOfGas), [], [])
  }

  function Row11(g: GasParams): (t: TestCase)
    ensures SetupDefined(Empty, t.setup)
    ensures UnpackNativeAssetCallInput(t.input) == Some(AssetCall(User2, ScoobyCoin, 50, []))
    ensures !Setup(Empty, t.setup).Exist(User2)
    ensures t.gasInput < g.assetCallApricot + g.callNewAccountGas
  {
    FundedSetup(100, 100); UnpackPackCall(User2, ScoobyCoin, 50, []); TestAddrsDistinct();
    TestCase("native asset call: insufficient gas to create new account",
      Funded(100, 100), User1, NativeAssetCallAddr, Call50(), 50, g.assetCallApricot + g.callNewAccountGas - 1, 0,
      Some(OutOfGas), [],
      [NativeIs(User1, 100), NativeIs(User2, 0), AssetIs(User1, ScoobyCoin, 100), AssetIs(User2, ScoobyCoin, 0)])
  }

  function Row12(g: GasParams): (t: TestCase)
    ensures SetupDefined(Empty, t.setup)
    ensures UnpackNativeAssetCallInput(t.input).None?
  {
    FundedSetup(100, 100);
    TestCase("native asset call: invalid input",
      Funded(100, 100), User1, NativeAssetCallAddr, Zeros(24), 50, g.assetCallApricot + g.callNewAccountGas,
      g.callNewAccountGas, Some(ExecutionReverted), [], [])
  }

  function Row13(g: GasParams): (t: TestCase)
    ensures SetupDefined(Empty, t.setup)
    ensures !IsPrecompileAddr(t.from)
    ensures t.precompileAddr == GenesisContractAddr
  {
    FundedSetup(100, 100); TestAddrsDistinct();
    TestCase("deprecated contract",
      Funded(100, 100), User1, GenesisContractAddr, Call50(), 0, g.assetCallApricot + g.callNewAccountGas,
      g.assetCallApricot + g.callNewAccountGas, Some(ExecutionReverted), [], [])
  }

  /** Row i of the table, in the order the loop runs it. */
  function Row(g: GasParams, i: nat): TestCase
    requires i < 14
  {
    if i == 0 then Row0(g) else if i == 1 then Row1(g) else if i == 2 then Row2(g)
    else if i == 3 then Row3(g) else if i == 4 then Row4(g) else if i == 5 then Row5(g)
    else if i == 6 then Row6(g) else if i == 7 then Row7(g) else if i == 8 then Row8(g)
    else if i == 9 then Row9(g) else if i == 10 then Row10(g) else if i == 11 then Row11(g)
    else if i == 12 then Row12(g) else Row13(g)
  }

  /** The table `tests`. */
  function Tests(g: GasParams): (tests: seq<TestCase>)
    ensures |tests| == 14
  {
    seq(14, i requires 0 <= i < 14 => Row(g, i))
  }

  /** What `evm.Call` returns for a row on a ledger freshly set up, under ApricotPhase5. */
  function RunRow(g: GasParams, test: TestCase): (st: Step)
    requires SetupDefined(Empty, test.setup)
    ensures st.out.gasLeft <= test.gasInput
    ensures st.out.err.Some? ==> st.post == Setup(Empty, test.setup)
  {
    Call(Setup(Empty, test.setup), Rules(ApricotPhase5, g), test.from, test.precompileAddr,
         test.input, test.gasInput, test.value)
  }

  lemma TestAddrsDistinct()
    ensures User1 != User2
    ensures !IsPrecompileAddr(User1) && !IsPrecompileAddr(User2)
  {
    assert User1[19] == '1' as int && User2[19] == '2' as int;
    assert User1[0] == 0 && User2[0] == 0;
    assert GenesisContractAddr[0] == 1 && NativeAssetBalanceAddr[0] == 1 && NativeAssetCallAddr[0] == 1;
  }

  /** The model meets row i of the table. */
  ghost predicate RowHolds(g: GasParams, test: TestCase)
  {
    SetupDefined(Empty, test.setup) && Passes(test, RunRow(g, test))
  }

  /** The ledger of `Funded(native, asset)`. */
  function FundedState(native: nat, asset: nat): (s: State)
    ensures s.GetBalance(User1) == native && s.GetBalanceMultiCoin(User1, ScoobyCoin) == asset
    ensures forall a :: a != User1 ==> s.GetBalance(a) == 0 && !s.Exist(a)
    ensures forall a, j :: a != User1 || j != ScoobyCoin ==> s.GetBalanceMultiCoin(a, j) == 0
  {
    Empty.SetBalance(User1, native).SetBalanceMultiCoin(User1, ScoobyCoin, asset)
  }

  lemma FundedSetup(native: nat, asset: nat)
    ensures SetupDefined(Empty, Funded(native, asset))
    ensures Setup(Empty, Funded(native, asset)) == FundedState(native, asset)
  {
    var s1 := Empty.SetBalance(User1, native);
    SetupFirst(s1, SetBalanceMultiCoin(User1, ScoobyCoin, asset), []);
    SetupFirst(Empty, SetBalance(User1, native), [SetBalanceMultiCoin(User1, ScoobyCoin, asset)]);
    assert Funded(native, asset) == [SetBalance(User1, native)] + [SetBalanceMultiCoin(User1, ScoobyCoin, asset)];
  }

  /** The ledger after `NativeOnly()`, and after it a further `ops`. */
  lemma NativeOnlySetup(ops: seq<SetupOp>)
    requires SetupDefined(Empty.CreateAccount(User1).SetBalance(User1, 100), ops)
    ensures SetupDefined(Empty, NativeOnly() + ops)
    ensures Setup(Empty, NativeOnly() + ops) == Setup(Empty.CreateAccount(User1).SetBalance(User1, 100), ops)
  {
    var s1 := Empty.CreateAccount(User1);
    SetupFirst(s1, SetBalance(User1, 100), ops);
    SetupFirst(Empty, CreateAccount(User1), [SetBalance(User1, 100)] + ops);
    assert NativeOnly() + ops == [CreateAccount(User1)] + ([SetBalance(User1, 100)] + ops);
  }

  lemma NativeOnlyReadsZero()
    ensures SetupDefined(Empty, NativeOnly())
    ensures var s := Setup(Empty, NativeOnly());
            s.GetBalance(User1) == 100 && s.GetBalanceMultiCoin(User1, ScoobyCoin) == 0
  {
    NativeOnlySetup([]);
    assert NativeOnly() + [] == NativeOnly();
  }

  lemma AssetAddedThenSpentReadsZero()
    ensures SetupDefined(Empty, AssetAddedThenSpent())
    ensures var s := Setup(Empty, AssetAddedThenSpent());
            s.GetBalance(User1) == 100 && s.GetBalanceMultiCoin(User1, ScoobyCoin) == 0
  {
    var add, sub := AddBalanceMultiCoin(User1, ScoobyCoin, 100), SubBalanceMultiCoin(User1, ScoobyCoin, 100);
    var s2 := Empty.CreateAccount(User1).SetBalance(User1, 100);
    var s3 := s2.AddBalanceMultiCoin(User1, ScoobyCoin, 100);
    SetupFirst(s3, sub, []);
    SetupFirst(s2, add, [sub]);
    assert [add, sub] == [add] + [sub];
    NativeOnlySetup([add, sub]);
  }

  lemma AssetAddedReadsHundred()
    ensures SetupDefined(Empty, AssetAdded())
    ensures var s := Setup(Empty, AssetAdded());
            s.GetBalance(User1) == 100 && s.GetBalanceMultiCoin(User1, ScoobyCoin) == 100
  {
    var add := AddBalanceMultiCoin(User1, ScoobyCoin, 100);
    var s2 := Empty.CreateAccount(User1).SetBalance(User1, 100);
    SetupFirst(s2, add, []);
    NativeOnlySetup([add]);
  }

  /*
   * The lemmas below prove the rows in two steps: a lemma over an arbitrary
   * row and ledger applies one property of the model to the row's own call
   * and concludes that the row holds, and a lemma per row discharges its
   * hypotheses from the row's literals.
   */

  /** A row's call is `evm.Call` on the ledger its setup produced. */
  lemma RunRowOn(g: GasParams, test: TestCase, s: State)
    requires SetupDefined(Empty, test.setup) && Setup(Empty, test.setup) == s
    ensures RunRow(g, test)
         == Call(s, Rules(ApricotPhase5, g), test.from, test.precompileAddr, test.input, test.gasInput, test.value)
  {
  }

  /** A balance query row with enough gas returns the owner's balance as a 32-byte word. */
  lemma QueryRow(g: GasParams, test: TestCase, owner: Address, id: Hash)
    requires SetupDefined(Empty, test.setup)
    requires var s := Setup(Empty, test.setup);
             s.GetBalance(test.from) >= test.value && s.GetBalanceMultiCoin(owner, id) < WordCapacity
    requires test.precompileAddr == NativeAssetBalanceAddr && test.input == PackNativeAssetBalanceInput(owner, id)
    requires test.gasInput >= g.assetBalanceApricot
    requires test.expectedErr == None && test.expectedGasRemaining == test.gasInput - g.assetBalanceApricot
    requires test.expectedResult == FillBytes(Setup(Empty, test.setup).GetBalanceMultiCoin(owner, id), 32)
    requires test.stateDBCheck == []
    ensures RowHolds(g, test)
  {
    var s := Setup(Empty, test.setup);
    RunRowOn(g, test, s);
    QueryReturnsBalance(s, g, test.from, owner, id, test.gasInput, test.value);
  }

  /** A balance query row that runs out of gas or has a malformed input. */
  lemma QueryFailureRow(g: GasParams, test: TestCase)
    requires SetupDefined(Empty, test.setup)
    requires Setup(Empty, test.setup).GetBalance(test.from) >= test.value
    requires test.precompileAddr == NativeAssetBalanceAddr
    requires || (test.gasInput < g.assetBalanceApricot
                 && test.expectedErr == Some(OutOfGas) && test.expectedGasRemaining == 0)
             || (test.gasInput >= g.assetBalanceApricot && |test.input| != BalanceInputLength
                 && test.expectedErr == Some(ExecutionReverted)
                 && test.expectedGasRemaining == test.gasInput - g.assetBalanceApricot)
    ensures RowHolds(g, test)
  {
    var s := Setup(Empty, test.setup);
    RunRowOn(g, test, s);
    QueryFailures(s, g, test.from, test.input, test.gasInput, test.value);
  }

  /** A row whose attached value the caller cannot cover. */
  lemma ShortfallRow(g: GasParams, test: TestCase)
    requires SetupDefined(Empty, test.setup)
    requires Setup(Empty, test.setup).GetBalance(test.from) < test.value
    requires test.expectedErr == Some(InsufficientBalance) && test.expectedGasRemaining == test.gasInput
    ensures RowHolds(g, test)
  {
    var s := Setup(Empty, test.setup);
    RunRowOn(g, test, s);
    ValueShortfallRefundsGas(s, Rules(ApricotPhase5, g), test.from, test.precompileAddr, test.input,
                             test.gasInput, test.value);
  }

  /** A NativeAssetCall row that fails in one of the four ways `AssetCallFailures` names. */
  lemma CallFailureRow(g: GasParams, test: TestCase)
    requires SetupDefined(Empty, test.setup)
    requires Setup(Empty, test.setup).GetBalance(test.from) >= test.value
    requires test.precompileAddr == NativeAssetCallAddr
    requires var s, gas := Setup(Empty, test.setup), test.gasInput;
             || (gas < g.assetCallApricot && test.expectedErr == Some(OutOfGas) && test.expectedGasRemaining == 0)
             || (&& gas >= g.assetCallApricot && |test.input| < CallInputMinLength
                 && test.expectedErr == Some(ExecutionReverted)
                 && test.expectedGasRemaining == gas - g.assetCallApricot)
             || (&& gas >= g.assetCallApricot && |test.input| >= CallInputMinLength
                 && var c := UnpackNativeAssetCallInput(test.input).value;
                 && c.assetAmount > s.GetBalanceMultiCoin(test.from, c.assetID)
                 && test.expectedErr == Some(InsufficientBalance) && test.expectedGasRemaining == 0)
             || (&& gas >= g.assetCallApricot && |test.input| >= CallInputMinLength
                 && var c := UnpackNativeAssetCallInput(test.input).value;
                 && c.assetAmount <= s.GetBalanceMultiCoin(test.from, c.assetID)
                 && !s.Exist(c.to) && c.to != test.from && c.to != NativeAssetCallAddr
                 && gas < g.assetCallApricot + g.callNewAccountGas
                 && test.expectedErr == Some(OutOfGas) && test.expectedGasRemaining == 0)
    ensures RowHolds(g, test)
  {
    var s := Setup(Empty, test.setup);
    RunRowOn(g, test, s);
    AssetCallFailures(s, g, test.from, test.input, test.gasInput, test.value);
  }

  /**
   * What a state check should read after `from` sends `amount` of `id` to
   * `to` and `value` to NativeAssetCall's address.
   */
  ghost predicate HoldsAfterSend(c: Check, s: State, from: Address, to: Address, id: Hash, amount: nat, value: nat)
  {
    match c
    case NativeIs(a, x) =>
      x as int == s.GetBalance(a) - (if a == from then value else 0) + (if a == NativeAssetCallAddr then value else 0)
    case AssetIs(a, j, x) =>
      x as int == s.GetBalanceMultiCoin(a, j) - (if a == from && j == id then amount else 0)
                                              + (if a == to && j == id then amount else 0)
  }

  /**
   * A NativeAssetCall row sending `amount` of `id` to an absent plain
   * account, with exactly the gas the call and the new account cost.
   */
  lemma SendToNewAccountRow(g: GasParams, test: TestCase, to: Address, id: Hash, amount: nat)
    requires SetupDefined(Empty, test.setup)
    requires var s := Setup(Empty, test.setup);
             && s.GetBalance(test.from) >= test.value && s.GetBalanceMultiCoin(test.from, id) >= amount
             && !s.Exist(to)
    requires test.precompileAddr == NativeAssetCallAddr
    requires amount < WordCapacity && test.input == PackNativeAssetCallInput(to, id, amount, [])
    requires test.gasInput == g.assetCallApricot + g.callNewAccountGas
    requires test.from != to && !IsPrecompileAddr(to)
    requires test.expectedErr == None && test.expectedGasRemaining == 0 && test.expectedResult == []
    requires forall c :: c in test.stateDBCheck ==>
               HoldsAfterSend(c, Setup(Empty, test.setup), test.from, to, id, amount, test.value)
    ensures RowHolds(g, test)
  {
    var s := Setup(Empty, test.setup);
    RunRowOn(g, test, s);
    AssetCallTransfers(s, g, test.from, to, id, amount, [], test.gasInput, test.value);
    var post := RunRow(g, test).post;
    forall c | c in test.stateDBCheck
      ensures Holds(c, post)
    {
      match c
      case NativeIs(a, x) =>
      case AssetIs(a, j, x) =>
    }
  }

  /** A row calling the deprecated genesis contract. */
  lemma DeprecatedRow(g: GasParams, test: TestCase)
    requires SetupDefined(Empty, test.setup)
    requires Setup(Empty, test.setup).GetBalance(test.from) >= test.value
    requires test.precompileAddr == GenesisContractAddr
    requires test.expectedErr == Some(ExecutionReverted) && test.expectedGasRemaining == test.gasInput
    ensures RowHolds(g, test)
  {
    var s := Setup(Empty, test.setup);
    RunRowOn(g, test, s);
    DeprecatedReverts(s, Rules(ApricotPhase5, g), test.from, test.precompileAddr, test.input,
                      test.gasInput, test.value);
  }

  /** The state checks of rows 6 and 7 are what the transfer leaves behind. */
  lemma TransferChecksExpected(value: nat)
    requires value == 0 || value == 49
    ensures forall c :: c in (if value == 0 then TransferChecks() else TransferWithValueChecks()) ==>
              HoldsAfterSend(c, FundedState(100, 100), User1, User2, ScoobyCoin, 50, value)
  {
    TestAddrsDistinct();
    PrecompileAddrsDistinct();
  }

  /** What rows 6 and 7 need of their setup: funded, a fresh plain recipient, and the expected checks. */
  lemma TransferRowSetup(value: nat)
    requires value == 0 || value == 49
    ensures SetupDefined(Empty, Funded(100, 100))
    ensures var s := Setup(Empty, Funded(100, 100));
            && s.GetBalance(User1) >= value && s.GetBalanceMultiCoin(User1, ScoobyCoin) >= 50
            && !s.Exist(User2)
            && forall c :: c in (if value == 0 then TransferChecks() else TransferWithValueChecks()) ==>
                 HoldsAfterSend(c, s, User1, User2, ScoobyCoin, 50, value)
    ensures User1 != User2 && !IsPrecompileAddr(User2)
  {
    TestAddrsDistinct();
    FundedSetup(100, 100);
    TransferChecksExpected(value);
  }

  lemma UninitializedBalanceRow(g: GasParams)
    ensures RowHolds(g, Row0(g))
  {
    NativeOnlyReadsZero();
    QueryRow(g, Row0(g), User1, ScoobyCoin);
  }

  lemma InitializedBalanceRow(g: GasParams)
    ensures RowHolds(g, Row1(g))
  {
    AssetAddedThenSpentReadsZero();
    QueryRow(g, Row1(g), User1, ScoobyCoin);
  }

  lemma NonZeroBalanceRow(g: GasParams)
    ensures RowHolds(g, Row2(g))
  {
    AssetAddedReadsHundred();
    QueryRow(g, Row2(g), User1, ScoobyCoin);
  }

  lemma InvalidBalanceInputRow(g: GasParams)
    ensures RowHolds(g, Row3(g))
  {
    QueryFailureRow(g, Row3(g));
  }

  lemma BalanceOutOfGasRow(g: GasParams)
    ensures RowHolds(g, Row4(g))
  {
    QueryFailureRow(g, Row4(g));
  }

  lemma BalanceValueShortfallRow(g: GasParams)
    ensures RowHolds(g, Row5(g))
  {
    ShortfallRow(g, Row5(g));
  }

  lemma MulticoinTransferRow(g: GasParams)
    ensures RowHolds(g, Row6(g))
  {
    TransferRowSetup(0);
    SendToNewAccountRow(g, Row6(g), User2, ScoobyCoin, 50);
  }

  lemma MulticoinTransferWithValueRow(g: GasParams)
    ensures RowHolds(g, Row7(g))
  {
    TransferRowSetup(49);
    SendToNewAccountRow(g, Row7(g), User2, ScoobyCoin, 50);
  }

  lemma InsufficientMulticoinRow(g: GasParams)
    ensures RowHolds(g, Row8(g))
  {
    FundedSetup(100, 50);
    UnpackPackCall(User2, ScoobyCoin, 51, []);
    CallFailureRow(g, Row8(g));
  }

  /** The failed call of the insufficient multicoin funds row leaves the ledger its setup made. */
  lemma InsufficientMulticoinKeepsSetup(g: GasParams)
    ensures SetupDefined(Empty, Row8(g).setup)
    ensures RunRow(g, Row8(g)).post == FundedState(100, 50)
  {
    InsufficientMulticoinRow(g);
    FundedSetup(100, 50);
  }

  /** The row's state check as written fails on the ledger the call leaves. */
  lemma InsufficientMulticoinChecksAsWrittenFail(g: GasParams)
    ensures SetupDefined(Empty, Row8(g).setup)
    ensures !Holds(AssetIs(User1, ScoobyCoin, 51), RunRow(g, Row8(g)).post)
    ensures AssetIs(User1, ScoobyCoin, 51) in InsufficientMulticoinChecksAsWritten()
  {
    InsufficientMulticoinKeepsSetup(g);
  }

  /** Every corrected check reads the ledger the setup made. */
  lemma InsufficientMulticoinChecksOnSetup()
    ensures forall c :: c in InsufficientMulticoinChecks() ==> Holds(c, FundedState(100, 50))
  {
    TestAddrsDistinct();
  }

  /** The corrected state check holds on the ledger the call leaves. */
  lemma InsufficientMulticoinChecksHold(g: GasParams)
    ensures SetupDefined(Empty, Row8(g).setup)
    ensures forall c :: c in InsufficientMulticoinChecks() ==> Holds(c, RunRow(g, Row8(g)).post)
  {
    InsufficientMulticoinKeepsSetup(g);
    InsufficientMulticoinChecksOnSetup();
  }

  lemma InsufficientFundsRow(g: GasParams)
    ensures RowHolds(g, Row9(g))
  {
    FundedSetup(50, 50);
    ShortfallRow(g, Row9(g));
  }

  lemma CallOutOfGasRow(g: GasParams)
    ensures RowHolds(g, Row10(g))
  {
    FundedSetup(100, 100);
    CallFailureRow(g, Row10(g));
  }

  lemma NewAccountOutOfGasRow(g: GasParams)
    ensures RowHolds(g, Row11(g))
  {
    TestAddrsDistinct();
    PrecompileAddrsDistinct();
    FundedSetup(100, 100);
    UnpackPackCall(User2, ScoobyCoin, 50, []);
    CallFailureRow(g, Row11(g));
  }

  lemma InvalidCallInputRow(g: GasParams)
    ensures RowHolds(g, Row12(g))
  {
    FundedSetup(100, 100);
    CallFailureRow(g, Row12(g));
  }

  lemma DeprecatedContractRow(g: GasParams)
    ensures RowHolds(g, Row13(g))
  {
    FundedSetup(100, 100);
    DeprecatedRow(g, Row13(g));
  }

  /** Row i of the table holds. */
  lemma RowPasses(g: GasParams, i: nat)
    requires i < |Tests(g)|
    ensures RowHolds(g, Tests(g)[i])
  {
    assert Tests(g)[i] == Row(g, i);
    if i == 0 { UninitializedBalanceRow(g); }
    else if i == 1 { InitializedBalanceRow(g); }
    else if i == 2 { NonZeroBalanceRow(g); }
    else if i == 3 { InvalidBalanceInputRow(g); }
    else if i == 4 { BalanceOutOfGasRow(g); }
    else if i == 5 { BalanceValueShortfallRow(g); }
    else if i == 6 { MulticoinTransferRow(g); }
    else if i == 7 { MulticoinTransferWithValueRow(g); }
    else if i == 8 { InsufficientMulticoinRow(g); }
    else if i == 9 { InsufficientFundsRow(g); }
    else if i == 10 { CallOutOfGasRow(g); }
    else if i == 11 { NewAccountOutOfGasRow(g); }
    else if i == 12 { InvalidCallInputRow(g); }
    else { DeprecatedContractRow(g); }
  }

  /** Whatever the gas schedule, the model meets every row of the table. */
  lemma AllRowsPass(g: GasParams)
    ensures forall i :: 0 <= i < |Tests(g)| ==> RowHolds(g, Tests(g)[i])
  {
    forall i | 0 <= i < |Tests(g)|
      ensures RowHolds(g, Tests(g)[i])
    {
      RowPasses(g, i);
    }
  }

  /** Every write of a setup keeps the account invariant. */
  lemma {:induction false} SetupKeepsValid(s: State, ops: seq<SetupOp>)
    requires SetupDefined(s, ops) && s.Valid()
    ensures Setup(s, ops).Valid()
    decreases |ops|
  {
    if ops != [] {
      SetupKeepsValid(ApplyOp(s, ops[0]), ops[1..]);
    }
  }

  /** A row's call starts from a ledger that meets the account invariant, and keeps it and every supply. */
  lemma RowKeepsLedger(g: GasParams, test: TestCase)
    requires SetupDefined(Empty, test.setup)
    ensures Setup(Empty, test.setup).Valid()
    ensures Keeps(Setup(Empty, test.setup), RunRow(g, test).post)
    ensures RunRow(g, test).post.Valid()
  {
    EmptyReadsZero(User1, ScoobyCoin);
    SetupKeepsValid(Empty, test.setup);
    CallKeepsLedger(Setup(Empty, test.setup), Rules(ApricotPhase5, g), test.from, test.precompileAddr,
                    test.input, test.gasInput, test.value);
  }

  /** Every row of the table leaves a ledger that meets the invariant and holds as much of each value as its setup made. */
  lemma TableKeepsLedger(g: GasParams)
    ensures forall i :: 0 <= i < |Tests(g)| ==>
              && SetupDefined(Empty, Tests(g)[i].setup)
              && RunRow(g, Tests(g)[i]).post.Valid()
              && Keeps(Setup(Empty, Tests(g)[i].setup), RunRow(g, Tests(g)[i]).post)
  {
    forall i | 0 <= i < |Tests(g)|
      ensures && SetupDefined(Empty, Tests(g)[i].setup)
              && RunRow(g, Tests(g)[i]).post.Valid()
              && Keeps(Setup(Empty, Tests(g)[i].setup), RunRow(g, Tests(g)[i]).post)
    {
      RowPasses(g, i);
      RowKeepsLedger(g, Tests(g)[i]);
    }
  }

  /** `test.setupStateDB()`: the setup's writes, made one after the other on a ledger. */
  method RunSetup(db: StateDB, ops: seq<SetupOp>)
    requires SetupDefined(db.Snapshot(), ops)
    modifies db
    ensures db.Snapshot() == Setup(old(db.Snapshot()), ops)
  {
    var i := 0;
    while i < |ops|
      invariant 0 <= i <= |ops|
      invariant SetupDefined(db.Snapshot(), ops[i..])
      invariant Setup(old(db.Snapshot()), ops) == Setup(db.Snapshot(), ops[i..])
    {
      assert ops[i..][1..] == ops[i + 1..];
      match ops[i] {
        case CreateAccount(a) => db.CreateAccount(a);
        case SetBalance(a, x) => db.SetBalance(a, x);
        case SetBalanceMultiCoin(a, id, x) => db.SetBalanceMultiCoin(a, id, x);
        case AddBalanceMultiCoin(a, id, x) => db.AddBalanceMultiCoin(a, id, x);
        case SubBalanceMultiCoin(a, id, x) => db.SubBalanceMultiCoin(a, id, x);
      }
      i := i + 1;
    }
  }

  /** One iteration of the loop: a fresh ledger, the row's setup, an EVM under ApricotPhase5 and one `evm.Call`. */
  method RunOne(g: GasParams, test: TestCase) returns (st: Step)
    requires SetupDefined(Empty, test.setup)
    ensures st == RunRow(g, test)
  {
    var db := new StateDB();
    RunSetup(db, test.setup);
    var evm := new Evm.EVM(db, Rules(ApricotPhase5, g));
    var ret, gasRemaining, err := evm.Call(test.from, test.precompileAddr, test.input, test.gasInput, test.value);
    st := Step(Outcome(ret, gasRemaining, err), db.Snapshot());
  }

  /** Appending the observation of the next row keeps every observation the row's call and passing. */
  lemma ObservedExtends(g: GasParams, tests: seq<TestCase>, observed: seq<Step>, st: Step)
    requires |observed| < |tests|
    requires forall k :: 0 <= k < |observed| ==> RowHolds(g, tests[k]) && observed[k] == RunRow(g, tests[k])
    requires forall k :: 0 <= k < |observed| ==> Passes(tests[k], observed[k])
    requires RowHolds(g, tests[|observed|]) && st == RunRow(g, tests[|observed|])
    ensures var o := observed + [st];
            && (forall k :: 0 <= k < |o| ==> RowHolds(g, tests[k]) && o[k] == RunRow(g, tests[k]))
            && (forall k :: 0 <= k < |o| ==> Passes(tests[k], o[k]))
  {
  }

  /**
   * The loop of `TestStatefulPrecompile` over the whole table. Every
   * observation is the row's modelled call and meets the row.
   */
  method RunTests(g: GasParams) returns (observed: seq<Step>)
    ensures |observed| == |Tests(g)|
    ensures forall i :: 0 <= i < |Tests(g)| ==>
              RowHolds(g, Tests(g)[i]) && observed[i] == RunRow(g, Tests(g)[i])
    ensures forall i :: 0 <= i < |Tests(g)| ==> Passes(Tests(g)[i], observed[i])
  {
    var tests := Tests(g);
    observed := [];
    var i := 0;
    while i < |tests|
      invariant 0 <= i <= |tests|
      invariant |observed| == i
      invariant forall k :: 0 <= k < i ==> RowHolds(g, tests[k]) && observed[k] == RunRow(g, tests[k])
      invariant forall k :: 0 <= k < i ==> Passes(tests[k], observed[k])
    {
      RowPasses(g, i);
      var st := RunOne(g, tests[i]);
      ObservedExtends(g, tests, observed, st);
      observed := observed + [st];
      i := i + 1;
    }
  }
}
