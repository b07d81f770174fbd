/**
 * The multi-asset balance ledger (`vm.StateDB` as the precompiles use it):
 * a native balance per address, an asset balance per (address, assetID) and
 * the set of existing accounts. A missing entry reads as 0.
 *
 * `State` is the value of the ledger at one point of execution; `StateDB` is
 * the mutable ledger that the setup code and `evm.Call` update in place.
 */
module Ledger {
  import opened Codec

  /** A missing key reads as 0. */
  function Get<K>(m: map<K, nat>, k: K): nat
  {
    if k in m then m[k] else 0
  }

  /** Some element of a non-empty set. */
  ghost function Pick<K>(s: set<K>): (k: K)
    requires s != {}
    ensures k in s
  {
    var k :| k in s; k
  }

  /** The sum of all values of a finite map. */
  ghost function Sum<K>(m: map<K, nat>): nat
    decreases |m.Keys|
  {
    if m.Keys == {} then 0
    else
      var k := Pick(m.Keys);
      assert (m - {k}).Keys == m.Keys - {k};
      m[k] + Sum(m - {k})
  }

  /** Sum does not depend on which key it takes out first. */
  lemma {:induction false} SumRemove<K>(m: map<K, nat>, k: K)
    requires k in m
    ensures Sum(m) == m[k] + Sum(m - {k})
    decreases |m.Keys|
  {
    var j := Pick(m.Keys);
    assert Sum(m) == m[j] + Sum(m - {j});
    if j != k {
      var mj, mk := m - {j}, m - {k};
      assert mj.Keys == m.Keys - {j} && mk.Keys == m.Keys - {k};
      SumRemove(mj, k);
      SumRemove(mk, j);
      assert mj - {k} == mk - {j};
    }
  }

  /** Overwriting one entry changes the sum by exactly the difference. */
  lemma SumUpdate<K>(m: map<K, nat>, k: K, v: nat)
    ensures Sum(m[k := v]) + Get(m, k) == Sum(m) + v
  {
    SumRemove(m[k := v], k);
    assert m[k := v] - {k} == m - {k};
    if k in m {
      SumRemove(m, k);
    } else {
      assert m - {k} == m;
    }
  }

  /** The entries of one asset. */
  function OfAsset(assets: map<(Address, Hash), nat>, id: Hash): map<(Address, Hash), nat>
  {
    map k | k in assets && k.1 == id :: assets[k]
  }

  datatype State = State(native: map<Address, nat>, assets: map<(Address, Hash), nat>, accounts: set<Address>)
  {
    function GetBalance(a: Address): nat
    {
      Get(native, a)
    }

    function GetBalanceMultiCoin(a: Address, id: Hash): nat
    {
      Get(assets, (a, id))
    }

    predicate Exist(a: Address)
    {
      a in accounts
    }

    /** Every address holding a balance entry is an existing account. */
    ghost predicate Valid()
    {
      && native.Keys <= accounts
      && forall k :: k in assets ==> k.0 in accounts
    }

    /** Total native value held by all accounts. */
    ghost function NativeSupply(): nat
    {
      Sum(native)
    }

    /** Total value of one asset held by all accounts. */
    ghost function AssetSupply(id: Hash): nat
    {
      Sum(OfAsset(assets, id))
    }

    /** Idempotent; an account that already exists keeps its balances. */
    function CreateAccount(a: Address): (r: State)
      ensures r.Exist(a)
      ensures forall b :: r.Exist(b) <==> Exist(b) || b == a
      ensures r.native == native && r.assets == assets
      ensures Valid() ==> r.Valid()
    {
      this.(accounts := accounts + {a})
    }

    /** Writing a balance creates the account if it was missing. */
    function SetBalance(a: Address, x: nat): (r: State)
      ensures r.GetBalance(a) == x
      ensures forall b :: b != a ==> r.GetBalance(b) == GetBalance(b)
      ensures r.assets == assets && r.accounts == accounts + {a}
    {
      State(native[a := x], assets, accounts + {a})
    }

    function AddBalance(a: Address, x: nat): (r: State)
      ensures r.GetBalance(a) == GetBalance(a) + x
      ensures forall b :: b != a ==> r.GetBalance(b) == GetBalance(b)
      ensures r.assets == assets && r.accounts == accounts + {a}
    {
      SetBalance(a, GetBalance(a) + x)
    }

    /** The caller checks that the balance covers x. */
    function SubBalance(a: Address, x: nat): (r: State)
      requires GetBalance(a) >= x
      ensures r.GetBalance(a) == GetBalance(a) - x
      ensures forall b :: b != a ==> r.GetBalance(b) == GetBalance(b)
      ensures r.assets == assets && r.accounts == accounts + {a}
    {
      SetBalance(a, GetBalance(a) - x)
    }

    function SetBalanceMultiCoin(a: Address, id: Hash, x: nat): (r: State)
      ensures r.GetBalanceMultiCoin(a, id) == x
      ensures forall b, j :: (b, j) != (a, id) ==> r.GetBalanceMultiCoin(b, j) == GetBalanceMultiCoin(b, j)
      ensures r.native == native && r.accounts == accounts + {a}
    {
      State(native, assets[(a, id) := x], accounts + {a})
    }

    function AddBalanceMultiCoin(a: Address, id: Hash, x: nat): (r: State)
      ensures r.GetBalanceMultiCoin(a, id) == GetBalanceMultiCoin(a, id) + x
      ensures forall b, j :: (b, j) != (a, id) ==> r.GetBalanceMultiCoin(b, j) == GetBalanceMultiCoin(b, j)
      ensures r.native == native && r.accounts == accounts + {a}
    {
      SetBalanceMultiCoin(a, id, GetBalanceMultiCoin(a, id) + x)
    }

    /** The caller checks that the asset balance covers x. */
    function SubBalanceMultiCoin(a: Address, id: Hash, x: nat): (r: State)
      requires GetBalanceMultiCoin(a, id) >= x
      ensures r.GetBalanceMultiCoin(a, id) == GetBalanceMultiCoin(a, id) - x
      ensures forall b, j :: (b, j) != (a, id) ==> r.GetBalanceMultiCoin(b, j) == GetBalanceMultiCoin(b, j)
      ensures r.native == native && r.accounts == accounts + {a}
    {
      SetBalanceMultiCoin(a, id, GetBalanceMultiCoin(a, id) - x)
    }

    /** `Transfer` of the block context: move native value, touching both accounts. */
    function Transfer(sender: Address, recipient: Address, x: nat): (r: State)
      requires GetBalance(sender) >= x
      ensures NativeMoved(this, r, sender, recipient, x)
      ensures r.assets == assets && r.accounts == accounts + {sender, recipient}
    {
      SubBalance(sender, x).AddBalance(recipient, x)
    }

    /** `TransferMultiCoin` of the block context: move asset value, touching both accounts. */
    function TransferMultiCoin(sender: Address, recipient: Address, id: Hash, x: nat): (r: State)
      requires GetBalanceMultiCoin(sender, id) >= x
      ensures AssetMoved(this, r, sender, recipient, id, x)
      ensures r.native == native && r.accounts == accounts + {sender, recipient}
    {
      SubBalanceMultiCoin(sender, id, x).AddBalanceMultiCoin(recipient, id, x)
    }
  }

  /** Native balances of t are those of s after moving `x` from `sender` to `recipient`, and no other change. */
  ghost predicate NativeMoved(s: State, t: State, sender: Address, recipient: Address, x: nat)
  {
    forall a :: t.GetBalance(a) as int
      == s.GetBalance(a) - (if a == sender then x else 0) + (if a == recipient then x else 0)
  }

  /** Asset balances of t are those of s after moving `x` of `id` from `sender` to `recipient`, and no other change. */
  ghost predicate AssetMoved(s: State, t: State, sender: Address, recipient: Address, id: Hash, x: nat)
  {
    forall a, j :: t.GetBalanceMultiCoin(a, j) as int
      == s.GetBalanceMultiCoin(a, j)
         - (if a == sender && j == id then x else 0)
         + (if a == recipient && j == id then x else 0)
  }

  /** The ledger of `state.New` over an empty database. */
  const Empty: State := State(map[], map[], {})

  /** Nothing was ever credited in the empty ledger. */
  lemma EmptyReadsZero(a: Address, id: Hash)
    ensures Empty.Valid()
    ensures Empty.GetBalance(a) == 0 && Empty.GetBalanceMultiCoin(a, id) == 0 && !Empty.Exist(a)
  {
  }

  /** Crediting x and then debiting x leaves every asset balance as it was, though the entry now exists. */
  lemma AddThenSubRestores(s: State, a: Address, id: Hash, x: nat)
    ensures var r := s.AddBalanceMultiCoin(a, id, x);
            var t := r.SubBalanceMultiCoin(a, id, x);
            && (forall b, j :: t.GetBalanceMultiCoin(b, j) == s.GetBalanceMultiCoin(b, j))
            && t.Exist(a)
  {
  }

  /** Writing a native balance changes the native supply by the difference and no asset supply. */
  lemma SetBalanceSupply(s: State, a: Address, x: nat)
    ensures s.SetBalance(a, x).NativeSupply() + s.GetBalance(a) == s.NativeSupply() + x
    ensures forall id :: s.SetBalance(a, x).AssetSupply(id) == s.AssetSupply(id)
  {
    SumUpdate(s.native, a, x);
  }

  /** Overwriting one asset entry changes that asset's supply by the difference and no other asset's. */
  lemma AssetEntrySupply(m: map<(Address, Hash), nat>, a: Address, id: Hash, x: nat)
    ensures Sum(OfAsset(m[(a, id) := x], id)) + Get(m, (a, id)) == Sum(OfAsset(m, id)) + x
    ensures forall j :: j != id ==> Sum(OfAsset(m[(a, id) := x], j)) == Sum(OfAsset(m, j))
  {
    forall j | j != id
      ensures Sum(OfAsset(m[(a, id) := x], j)) == Sum(OfAsset(m, j))
    {
      assert OfAsset(m[(a, id) := x], j) == OfAsset(m, j);
    }
    var o := OfAsset(m, id);
    assert OfAsset(m[(a, id) := x], id) == o[(a, id) := x];
    assert Get(o, (a, id)) == Get(m, (a, id));
    SumUpdate(o, (a, id), x);
  }

  /** A native transfer conserves the native supply and every asset supply. */
  lemma TransferConserves(s: State, sender: Address, recipient: Address, x: nat)
    requires s.GetBalance(sender) >= x
    ensures s.Transfer(sender, recipient, x).NativeSupply() == s.NativeSupply()
    ensures forall id :: s.Transfer(sender, recipient, x).AssetSupply(id) == s.AssetSupply(id)
    ensures s.Valid() ==> s.Transfer(sender, recipient, x).Valid()
  {
    var t := s.SubBalance(sender, x);
    SetBalanceSupply(s, sender, s.GetBalance(sender) - x);
    SetBalanceSupply(t, recipient, t.GetBalance(recipient) + x);
  }

  /** Moving x of one asset between two entries leaves every asset's supply unchanged. */
  lemma AssetMoveSupply(m0: map<(Address, Hash), nat>, sender: Address, recipient: Address, id: Hash, x: nat)
    requires Get(m0, (sender, id)) >= x
    ensures var m1 := m0[(sender, id) := Get(m0, (sender, id)) - x];
            var m2 := m1[(recipient, id) := Get(m1, (recipient, id)) + x];
            forall j :: Sum(OfAsset(m2, j)) == Sum(OfAsset(m0, j))
  {
    var m1 := m0[(sender, id) := Get(m0, (sender, id)) - x];
    var m2 := m1[(recipient, id) := Get(m1, (recipient, id)) + x];
    AssetEntrySupply(m0, sender, id, Get(m0, (sender, id)) - x);
    AssetEntrySupply(m1, recipient, id, Get(m1, (recipient, id)) + x);
    assert Sum(OfAsset(m2, id)) == Sum(OfAsset(m0, id));
  }

  /** An asset transfer conserves every asset supply and the native supply. */
  lemma TransferMultiCoinConserves(s: State, sender: Address, recipient: Address, id: Hash, x: nat)
    requires s.GetBalanceMultiCoin(sender, id) >= x
    ensures forall j :: s.TransferMultiCoin(sender, recipient, id, x).AssetSupply(j) == s.AssetSupply(j)
    ensures s.TransferMultiCoin(sender, recipient, id, x).NativeSupply() == s.NativeSupply()
    ensures s.Valid() ==> s.TransferMultiCoin(sender, recipient, id, x).Valid()
  {
    var m0 := s.assets;
    var m1 := m0[(sender, id) := Get(m0, (sender, id)) - x];
    var t := s.SubBalanceMultiCoin(sender, id, x);
    assert t.assets == m1;
    var r := t.AddBalanceMultiCoin(recipient, id, x);
    assert r.assets == m1[(recipient, id) := Get(m1, (recipient, id)) + x];
    AssetMoveSupply(m0, sender, recipient, id, x);
  }

  /** The mutable ledger shared by the setup code, `evm.Call` and the checks. */
  class StateDB {
    var native: map<Address, nat>
    var assets: map<(Address, Hash), nat>
    var accounts: set<Address>

    /** The ledger's current value. */
    function Snapshot(): State
      reads this
    {
      State(native, assets, accounts)
    }

    function GetBalance(a: Address): nat
      reads this
    {
      Snapshot().GetBalance(a)
    }

    function GetBalanceMultiCoin(a: Address, id: Hash): nat
      reads this
    {
      Snapshot().GetBalanceMultiCoin(a, id)
    }

    predicate Exist(a: Address)
      reads this
    {
      Snapshot().Exist(a)
    }

    /** `state.New` over a fresh in-memory database. */
    constructor ()
      ensures Snapshot() == Empty
    {
      native, assets, accounts := map[], map[], {};
    }

    method CreateAccount(a: Address)
      modifies this
      ensures Snapshot() == old(Snapshot()).CreateAccount(a)
    {
      accounts := accounts + {a};
    }

    method SetBalance(a: Address, x: nat)
      modifies this
      ensures Snapshot() == old(Snapshot()).SetBalance(a, x)
    {
      native := native[a := x];
      accounts := accounts + {a};
    }

    method AddBalance(a: Address, x: nat)
      modifies this
      ensures Snapshot() == old(Snapshot()).AddBalance(a, x)
    {
      native := native[a := Get(native, a) + x];
      accounts := accounts + {a};
    }

    method SubBalance(a: Address, x: nat)
      requires GetBalance(a) >= x
      modifies this
      ensures Snapshot() == old(Snapshot()).SubBalance(a, x)
    {
      native := native[a := Get(native, a) - x];
      accounts := accounts + {a};
    }

    method SetBalanceMultiCoin(a: Address, id: Hash, x: nat)
      modifies this
      ensures Snapshot() == old(Snapshot()).SetBalanceMultiCoin(a, id, x)
    {
      assets := assets[(a, id) := x];
      accounts := accounts + {a};
    }

    method AddBalanceMultiCoin(a: Address, id: Hash, x: nat)
      modifies this
      ensures Snapshot() == old(Snapshot()).AddBalanceMultiCoin(a, id, x)
    {
      assets := assets[(a, id) := Get(assets, (a, id)) + x];
      accounts := accounts + {a};
    }

    method SubBalanceMultiCoin(a: Address, id: Hash, x: nat)
      requires GetBalanceMultiCoin(a, id) >= x
      modifies this
      ensures Snapshot() == old(Snapshot()).SubBalanceMultiCoin(a, id, x)
    {
      assets := assets[(a, id) := Get(assets, (a, id)) - x];
      accounts := accounts + {a};
    }

    /** Discard every change made since `s` was taken. */
    method RevertToSnapshot(s: State)
      modifies this
      ensures Snapshot() == s
    {
      native, assets, accounts := s.native, s.assets, s.accounts;
    }
  }
}
