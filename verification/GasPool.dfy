/** The gas of a block (core/gaspool.go) and the gas a message needs before it runs
    (core/state_transition.go).
 */
module GasPools {
  const MAX_UINT64: nat := 0xFFFF_FFFF_FFFF_FFFF

  const TX_GAS: nat := 21000
  const TX_GAS_CONTRACT_CREATION: nat := 53000
  const TX_DATA_ZERO_GAS: nat := 4
  const TX_DATA_NON_ZERO_GAS_FRONTIER: nat := 68
  const TX_DATA_NON_ZERO_GAS_EIP2028: nat := 16
  const TX_ACCESS_LIST_ADDRESS_GAS: nat := 2400
  const TX_ACCESS_LIST_STORAGE_KEY_GAS: nat := 1900

  datatype Outcome<T> = Ok(value: T) | Failed

  class GasPool {
    var gas: nat

    ghost predicate Valid()
      reads this
    {
      gas <= MAX_UINT64
    }

    constructor ()
      ensures Valid() && gas == 0
    {
      gas := 0;
    }

    /** Gives gas back; going above 64 bits is a panic, after which nothing has changed. */
    method AddGas(amount: nat) returns (panics: bool)
      requires Valid() && amount <= MAX_UINT64
      modifies this
      ensures Valid() && panics == (old(gas) + amount > MAX_UINT64)
      ensures gas == old(gas) + if panics then 0 else amount
    {
      if gas > MAX_UINT64 - amount {
        return true;
      }
      gas := gas + amount;
      return false;
    }

    method SubGas(amount: nat) returns (ok: bool)
      requires Valid()
      modifies this
      ensures Valid() && ok == (amount <= old(gas))
      ensures gas == old(gas) - if ok then amount else 0
    {
      if gas < amount {
        return false;
      }
      gas := gas - amount;
      return true;
    }
  }

  /** How many bytes are not zero. */
  function NonZero(data: seq<nat>): (n: nat)
    ensures n <= |data|
  {
    if data == [] then 0 else NonZero(data[..|data| - 1]) + if data[|data| - 1] != 0 then 1 else 0
  }

  method CountNonZero(data: seq<nat>) returns (nz: nat)
    ensures nz == NonZero(data)
  {
    nz := 0;
    for i := 0 to |data|
      invariant nz == NonZero(data[..i])
    {
      assert data[..i + 1][..i] == data[..i];
      if data[i] != 0 {
        nz := nz + 1;
      }
    }
    assert data[..|data|] == data;
  }

  /** The cost of the data without any bound. */
  function DataGas(data: seq<nat>, creation: bool, homestead: bool, eip2028: bool): nat {
    (if creation && homestead then TX_GAS_CONTRACT_CREATION else TX_GAS)
    + NonZero(data) * (if eip2028 then TX_DATA_NON_ZERO_GAS_EIP2028 else TX_DATA_NON_ZERO_GAS_FRONTIER)
    + (|data| - NonZero(data)) * TX_DATA_ZERO_GAS
  }

  lemma FitsIffDivides(room: nat, unit: nat, count: nat)
    requires unit > 0
    ensures room / unit < count <==> count * unit > room
  {
    assert room == (room / unit) * unit + room % unit;
    if room / unit < count {
      assert count * unit >= (room / unit + 1) * unit;
    } else {
      assert count * unit <= (room / unit) * unit;
    }
  }

  /** The cost with an access list, in 64 bits. */
  function IntrinsicCost(data: seq<nat>, addresses: nat, keys: nat, creation: bool, homestead: bool, eip2028: bool): nat
  {
    (DataGas(data, creation, homestead, eip2028) + addresses * TX_ACCESS_LIST_ADDRESS_GAS
     + keys * TX_ACCESS_LIST_STORAGE_KEY_GAS)
      % (MAX_UINT64 + 1)
  }

  /** IntrinsicGas fails exactly when the cost of the data does not fit 64 bits. The
      cost of an access list is added without a check and wraps around. */
  method IntrinsicGas(data: seq<nat>, addresses: nat, keys: nat, creation: bool, homestead: bool, eip2028: bool)
    returns (r: Outcome<nat>)
    ensures r.Failed? <==> data != [] && DataGas(data, creation, homestead, eip2028) > MAX_UINT64
    ensures r.Ok? ==> r.value == IntrinsicCost(data, addresses, keys, creation, homestead, eip2028)
  {
    hide NonZero;
    var gas := if creation && homestead then TX_GAS_CONTRACT_CREATION else TX_GAS;
    if |data| > 0 {
      var nz := CountNonZero(data);
      var nonZeroGas := if eip2028 then TX_DATA_NON_ZERO_GAS_EIP2028 else TX_DATA_NON_ZERO_GAS_FRONTIER;
      FitsIffDivides(MAX_UINT64 - gas, nonZeroGas, nz);
      if (MAX_UINT64 - gas) / nonZeroGas < nz {
        return Failed;
      }
      gas := gas + nz * nonZeroGas;
      var z := |data| - nz;
      FitsIffDivides(MAX_UINT64 - gas, TX_DATA_ZERO_GAS, z);
      if (MAX_UINT64 - gas) / TX_DATA_ZERO_GAS < z {
        return Failed;
      }
      gas := gas + z * TX_DATA_ZERO_GAS;
    }
    r := Ok((gas + addresses * TX_ACCESS_LIST_ADDRESS_GAS + keys * TX_ACCESS_LIST_STORAGE_KEY_GAS) % (MAX_UINT64 + 1));
  }
}
