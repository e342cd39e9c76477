/** The intrinsic gas of a transaction. */
module IntrinsicGas {
  import opened Uint64

  const TX_GAS: nat := 21000
  const TX_GAS_CONTRACT_CREATION: nat := 53000
  const TX_DATA_ZERO_GAS: nat := 4
  const TX_DATA_NON_ZERO_GAS_FRONTIER: nat := 68
  const TX_DATA_NON_ZERO_GAS_EIP2028: nat := 16
  const INIT_CODE_WORD_GAS: nat := 2
  const TX_ACCESS_LIST_ADDRESS_GAS: nat := 2400
  const TX_ACCESS_LIST_STORAGE_KEY_GAS: nat := 1900

  type Byte = b: nat | b < 256

  /** The access list, by its number of addresses and of storage keys. */
  datatype AccessList = NoList | AccessList(addresses: nat, storageKeys: nat)

  datatype Rules = Rules(homestead: bool, istanbul: bool, shanghai: bool, london: bool)

  function NonZero(data: seq<Byte>): (n: nat)
    ensures n <= |data|
  {
    if data == [] then 0 else NonZero(data[..|data| - 1]) + (if data[|data| - 1] != 0 then 1 else 0)
  }

  function NonZeroPrice(rules: Rules): (price: nat)
  {
    if rules.istanbul then TX_DATA_NON_ZERO_GAS_EIP2028 else TX_DATA_NON_ZERO_GAS_FRONTIER
  }

  /** The cost of creation and data, over unbounded integers. */
  function DataCost(data: seq<Byte>, creation: bool, rules: Rules): (g: nat)
  {
    var nz := NonZero(data);
    (if creation && rules.homestead then TX_GAS_CONTRACT_CREATION else TX_GAS)
    + nz * NonZeroPrice(rules)
    + (|data| - nz) * TX_DATA_ZERO_GAS
    + (if creation && rules.shanghai then (|data| + 31) / 32 * INIT_CODE_WORD_GAS else 0)
  }

  function AccessCost(list: AccessList): (g: nat)
  {
    match list
    case NoList => 0
    case AccessList(addresses, keys) => addresses * TX_ACCESS_LIST_ADDRESS_GAS + keys * TX_ACCESS_LIST_STORAGE_KEY_GAS
  }

  /** A transaction costs 21000, or 53000 to create a contract since Homestead; each zero byte adds 4,
      each other byte 16 since Istanbul and 68 before, and each started word of 32 bytes of init code
      2 since Shanghai. */
  lemma DataCostSteps(data: seq<Byte>, b: Byte, creation: bool, rules: Rules)
    ensures DataCost([], creation, rules) == if creation && rules.homestead then 53000 else 21000
    ensures DataCost(data + [b], creation, rules) - DataCost(data, creation, rules) ==
            (if b == 0 then 4 else if rules.istanbul then 16 else 68)
            + (if creation && rules.shanghai && |data| % 32 == 0 then 2 else 0)
  {
    assert (data + [b])[..|data|] == data;
    assert NonZero(data + [b]) == NonZero(data) + (if b != 0 then 1 else 0);
    assert (|data| + 32) / 32 - (|data| + 31) / 32 == if |data| % 32 == 0 then 1 else 0;
    OneMore(NonZero(data), NonZeroPrice(rules));
  }

  lemma OneMore(n: nat, price: nat)
    ensures (n + 1) * price == n * price + price
  {
  }

  /** Each listed address adds 2400 and each storage key 1900. */
  lemma AccessCostSteps(addresses: nat, keys: nat)
    ensures AccessCost(NoList) == AccessCost(AccessList(0, 0)) == 0
    ensures AccessCost(AccessList(addresses + 1, keys)) == AccessCost(AccessList(addresses, keys)) + 2400
    ensures AccessCost(AccessList(addresses, keys + 1)) == AccessCost(AccessList(addresses, keys)) + 1900
  {
  }

  /** Rounding up to words, without overflow even at the top of the range. */
  function ToWordSize(size: nat): (words: nat)
    requires size <= MAX_UINT64
    ensures words == (size + 31) / 32 && words * 32 >= size && (words - 1) * 32 < size
  {
    if size > MAX_UINT64 - 31 then MAX_UINT64 / 32 + 1 else (size + 31) / 32
  }

  lemma DivisionGuard(gas: nat, price: nat, count: nat)
    requires gas <= MAX_UINT64 && price > 0
    ensures (MAX_UINT64 - gas) / price < count <==> gas + count * price > MAX_UINT64
  {
    var q := (MAX_UINT64 - gas) / price;
    assert q * price <= MAX_UINT64 - gas < (q + 1) * price;
    if q < count {
      assert (q + 1) * price <= count * price;
    } else {
      assert count * price <= q * price;
    }
  }

  /** Add `count` units at `price`, refusing to leave 64 bits. */
  method Charge(gas: nat, count: nat, price: nat) returns (ok: bool, r: nat)
    requires gas <= MAX_UINT64 && price > 0
    ensures ok <==> gas + count * price <= MAX_UINT64
    ensures ok ==> r == gas + count * price
  {
    DivisionGuard(gas, price, count);
    if (MAX_UINT64 - gas) / price < count {
      return false, 0;
    }
    return true, gas + count * price;
  }

  method CountNonZero(data: seq<Byte>) returns (nz: nat)
    ensures nz == NonZero(data)
  {
    nz := 0;
    for i := 0 to |data|
      invariant nz == NonZero(data[..i])
    {
      assert data[..i + 1][..i] == data[..i];
      if data[i] != 0 {
        nz := nz + 1;
      }
    }
    assert data[..|data|] == data;
  }

  lemma WrapTwice(gas: nat, x: nat, y: nat)
    ensures ((gas + x) % TWO_TO_64 + y) % TWO_TO_64 == (gas + (x + y)) % TWO_TO_64
  {
    var q := (gas + x) / TWO_TO_64;
    assert gas + x + y == (gas + x) % TWO_TO_64 + y + q * TWO_TO_64;
  }

  method DataGas(data: seq<Byte>, creation: bool, rules: Rules) returns (ok: bool, gas: nat)
    requires |data| <= MAX_UINT64
    ensures ok <==> DataCost(data, creation, rules) <= MAX_UINT64
    ensures ok ==> gas == DataCost(data, creation, rules)
  {
    gas := if creation && rules.homestead then TX_GAS_CONTRACT_CREATION else TX_GAS;
    ok := true;
    if |data| > 0 {
      var nz := CountNonZero(data);
      ok, gas := Charge(gas, nz, NonZeroPrice(rules));
      if ok {
        ok, gas := Charge(gas, |data| - nz, TX_DATA_ZERO_GAS);
        if ok && creation && rules.shanghai {
          ok, gas := Charge(gas, ToWordSize(|data|), INIT_CODE_WORD_GAS);
        }
      }
    }
  }

  /** The overflow error is reported exactly when the cost of creation and data exceeds 64 bits;
      the access list terms are added without a guard and wrap around. */
  method ComputeIntrinsicGas(data: seq<Byte>, list: AccessList, creation: bool, rules: Rules) returns (ok: bool, gas: nat)
    requires |data| <= MAX_UINT64
    ensures ok <==> DataCost(data, creation, rules) <= MAX_UINT64
    ensures ok ==> gas == (DataCost(data, creation, rules) + AccessCost(list)) % TWO_TO_64
  {
    ok, gas := DataGas(data, creation, rules);
    if ok && list.AccessList? {
      WrapTwice(gas, list.addresses * TX_ACCESS_LIST_ADDRESS_GAS, list.storageKeys * TX_ACCESS_LIST_STORAGE_KEY_GAS);
      gas := (gas + list.addresses * TX_ACCESS_LIST_ADDRESS_GAS) % TWO_TO_64;
      gas := (gas + list.storageKeys * TX_ACCESS_LIST_STORAGE_KEY_GAS) % TWO_TO_64;
    }
  }
}
