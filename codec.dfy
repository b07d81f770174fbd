/**
 * Addresses, asset IDs and the fixed byte layouts of the two precompiles'
 * inputs (`vm.PackNativeAssetBalanceInput`, `vm.PackNativeAssetCallInput` and
 * their unpacking counterparts).
 */
module Codec {
  import opened Bytes
  import opened Wrappers

  /** `common.Address`: 20 bytes. */
  type Address = s: seq<Byte> | |s| == 20 witness Zeros(20)

  /** `common.Hash`, used as an asset ID: 32 bytes. */
  type Hash = s: seq<Byte> | |s| == 32 witness Zeros(32)

  /** Length of a balance query: address ‖ assetID. */
  const BalanceInputLength: nat := 52

  /** Shortest asset call: recipient ‖ assetID ‖ 32-byte amount. */
  const CallInputMinLength: nat := 84

  /**
   * `common.BytesToAddress` / `common.BytesToHash`: keep the last `n` bytes of
   * b, left-padding with zeros when b is shorter.
   */
  function RightAlign(b: seq<Byte>, n: nat): (r: seq<Byte>)
    ensures |r| == n
    ensures |b| >= n ==> r == b[|b| - n..]
    ensures |b| < n ==> r[n - |b|..] == b && forall i :: 0 <= i < n - |b| ==> r[i] == 0
  {
    if |b| >= n then b[|b| - n..] else Zeros(n - |b|) + b
  }

  function BytesToAddress(b: seq<Byte>): (a: Address)
    ensures |b| <= 20 ==> a[20 - |b|..] == b && forall i :: 0 <= i < 20 - |b| ==> a[i] == 0
    ensures |b| >= 20 ==> a == b[|b| - 20..]
  {
    RightAlign(b, 20)
  }

  function BytesToHash(b: seq<Byte>): (h: Hash)
    ensures |b| <= 32 ==> h[32 - |b|..] == b && forall i :: 0 <= i < 32 - |b| ==> h[i] == 0
    ensures |b| >= 32 ==> h == b[|b| - 32..]
  {
    RightAlign(b, 32)
  }

  /** The bytes of an ASCII string literal such as `[]byte("user1")`. */
  function Ascii(s: string): (b: seq<Byte>)
    requires forall i :: 0 <= i < |s| ==> s[i] as int < 128
    ensures |b| == |s|
    ensures forall i :: 0 <= i < |s| ==> b[i] == s[i] as int
  {
    seq(|s|, i requires 0 <= i < |s| => s[i] as int)
  }

  /** The decoded arguments of a NativeAssetBalance query. */
  datatype BalanceQuery = BalanceQuery(owner: Address, assetID: Hash)

  /** The decoded arguments of a NativeAssetCall. */
  datatype AssetCall = AssetCall(to: Address, assetID: Hash, assetAmount: nat, callData: seq<Byte>)

  function PackNativeAssetBalanceInput(owner: Address, assetID: Hash): (input: seq<Byte>)
    ensures |input| == BalanceInputLength
    ensures input[..20] == owner && input[20..] == assetID
  {
    owner + assetID
  }

  /** Only an input of exactly 52 bytes decodes. */
  function UnpackNativeAssetBalanceInput(input: seq<Byte>): (q: Option<BalanceQuery>)
    ensures q.Some? <==> |input| == BalanceInputLength
  {
    if |input| != BalanceInputLength then None
    else Some(BalanceQuery(input[..20], input[20..52]))
  }

  lemma UnpackPackBalance(owner: Address, assetID: Hash)
    ensures UnpackNativeAssetBalanceInput(PackNativeAssetBalanceInput(owner, assetID))
         == Some(BalanceQuery(owner, assetID))
  {
    var input := PackNativeAssetBalanceInput(owner, assetID);
    assert input[20..52] == input[20..];
  }

  lemma PackUnpackBalance(input: seq<Byte>)
    requires UnpackNativeAssetBalanceInput(input).Some?
    ensures var q := UnpackNativeAssetBalanceInput(input).value;
            PackNativeAssetBalanceInput(q.owner, q.assetID) == input
  {
    assert input == input[..20] + input[20..52];
  }

  /** The amount is written with `FillBytes`, which panics unless it fits 32 bytes. */
  function PackNativeAssetCallInput(to: Address, assetID: Hash, assetAmount: nat, callData: seq<Byte>): (input: seq<Byte>)
    requires assetAmount < WordCapacity
    ensures |input| == CallInputMinLength + |callData|
    ensures input[..20] == to && input[20..52] == assetID && input[84..] == callData
    ensures SetBytes(input[52..84]) == assetAmount
  {
    var amount := FillBytes(assetAmount, 32);
    SetBytesOfFillBytes(assetAmount, 32);
    var input := to + assetID + amount + callData;
    assert input[52..84] == amount;
    input
  }

  /** Any input of at least 84 bytes decodes; everything past byte 84 is call data. */
  function UnpackNativeAssetCallInput(input: seq<Byte>): (c: Option<AssetCall>)
    ensures c.Some? <==> |input| >= CallInputMinLength
    ensures c.Some? ==> c.value.assetAmount < WordCapacity
  {
    if |input| < CallInputMinLength then None
    else Some(AssetCall(input[..20], input[20..52], SetBytes(input[52..84]), input[84..]))
  }

  lemma UnpackPackCall(to: Address, assetID: Hash, assetAmount: nat, callData: seq<Byte>)
    requires assetAmount < WordCapacity
    ensures UnpackNativeAssetCallInput(PackNativeAssetCallInput(to, assetID, assetAmount, callData))
         == Some(AssetCall(to, assetID, assetAmount, callData))
  {
  }

  lemma PackUnpackCall(input: seq<Byte>)
    requires UnpackNativeAssetCallInput(input).Some?
    ensures var c := UnpackNativeAssetCallInput(input).value;
            PackNativeAssetCallInput(c.to, c.assetID, c.assetAmount, c.callData) == input
  {
    var c := UnpackNativeAssetCallInput(input).value;
    FillBytesOfSetBytes(input[52..84]);
    assert input == input[..20] + input[20..52] + input[52..84] + input[84..];
  }
}
