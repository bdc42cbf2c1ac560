/** Helpers of `utils.rs` and `lib.rs`: the position-key preimage, the
    oracle price key of a market, the signature stub, the request-key
    encoding, and the two `Vec` operations the ledger uses on its per-account
    key lists. */
module Utils {
  import opened Arith
  import opened Types

  // ---------------------------------------------------------------- position keys

  /** The bytes hashed into a position key: the account, the market's bytes,
      the collateral token's bytes and one side byte, with no length prefixes. */
  function PositionKeyPreimage(account: ActorId, market: Name, collateralToken: Name, isLong: bool): (r: Bytes)
    ensures |r| == 32 + |market| + |collateralToken| + 1
    ensures r[..32] == account
    ensures r[|r| - 1] == (if isLong then 1 else 0)
  {
    account + market + collateralToken + [if isLong then 1 else 0]
  }

  /** `utils::position_key` (and `PerpetualDEXState::get_position_key`). */
  function PositionKey(hash: Hasher, account: ActorId, market: Name, collateralToken: Name, isLong: bool): PositionKey
  {
    hash(PositionKeyPreimage(account, market, collateralToken, isLong))
  }

  /** The long and the short preimage of one (account, market, collateral)
      triple agree everywhere except in their last byte. */
  lemma SidePreimagesDifferInLastByte(account: ActorId, market: Name, collateralToken: Name)
    ensures var l := PositionKeyPreimage(account, market, collateralToken, true);
            var s := PositionKeyPreimage(account, market, collateralToken, false);
            |l| == |s| && l[..|l| - 1] == s[..|s| - 1] && l[|l| - 1] != s[|s| - 1]
  {
    var l := PositionKeyPreimage(account, market, collateralToken, true);
    var s := PositionKeyPreimage(account, market, collateralToken, false);
    assert l[..|l| - 1] == account + market + collateralToken;
    assert s[..|s| - 1] == account + market + collateralToken;
  }

  /** Without length prefixes, any two (market, collateral) pairs whose
      concatenations agree give the same preimage, hence the same position
      key whatever the hash. */
  lemma PreimageIgnoresSplit(hash: Hasher, account: ActorId, m1: Name, c1: Name, m2: Name, c2: Name, isLong: bool)
    requires m1 + c1 == m2 + c2
    ensures PositionKeyPreimage(account, m1, c1, isLong) == PositionKeyPreimage(account, m2, c2, isLong)
    ensures PositionKey(hash, account, m1, c1, isLong) == PositionKey(hash, account, m2, c2, isLong)
  {
    var side: Bytes := [if isLong then 1 else 0];
    calc {
      PositionKeyPreimage(account, m1, c1, isLong);
      account + m1 + c1 + side;
      { assert account + m1 + c1 == account + (m1 + c1); }
      account + (m1 + c1) + side;
      { assert account + m2 + c2 == account + (m2 + c2); }
      PositionKeyPreimage(account, m2, c2, isLong);
    }
  }

  /** The concrete collision: market "ab" with collateral "c" and market "a"
      with collateral "bc" share every position key. */
  lemma PositionKeyCollision(hash: Hasher, account: ActorId, isLong: bool)
    ensures PositionKey(hash, account, [97, 98], [99], isLong) == PositionKey(hash, account, [97], [98, 99], isLong)
  {
    PreimageIgnoresSplit(hash, account, [97, 98], [99], [97], [98, 99], isLong);
  }

  // ---------------------------------------------------------------- price keys and signatures

  /** `utils::price_key`: a market id resolves to its index token; any other
      string is already a token name. */
  function PriceKey(markets: map<Name, Market>, idOrToken: Name): (r: Name)
    ensures idOrToken in markets ==> r == markets[idOrToken].indexToken
    ensures idOrToken !in markets ==> r == idOrToken
  {
    if idOrToken in markets then markets[idOrToken].indexToken else idOrToken
  }

  /** `utils::verify_signature` is a stub that accepts every signature. */
  function VerifySignature(token: Name, priceMin: u128, priceMax: u128, timestamp: u64, signer: ActorId, signature: Bytes): bool
  {
    true
  }

  // ---------------------------------------------------------------- request keys

  function Pow256(n: nat): nat
  {
    if n == 0 then 1 else 256 * Pow256(n - 1)
  }

  /** The `n` low bytes of `x`, least significant first. */
  function LeBytes(x: nat, n: nat): (r: Bytes)
    ensures |r| == n
  {
    if n == 0 then [] else [x % 256] + LeBytes(x / 256, n - 1)
  }

  /** The number whose little-endian bytes are `s`. */
  function FromLe(s: Bytes): nat
  {
    if s == [] then 0 else s[0] + 256 * FromLe(s[1..])
  }

  lemma {:induction false} FromLeOfLeBytes(x: nat, n: nat)
    requires x < Pow256(n)
    ensures FromLe(LeBytes(x, n)) == x
  {
    if n > 0 {
      var r := LeBytes(x, n);
      assert r[1..] == LeBytes(x / 256, n - 1);
      FromLeOfLeBytes(x / 256, n - 1);
    }
  }

  /** `generate_request_key`'s key for counter value `id`: the eight
      little-endian bytes of `id` followed by 24 zero bytes. */
  function RequestKeyOf(id: u64): (k: RequestKey)
    ensures k[..8] == LeBytes(id, 8)
    ensures forall i :: 8 <= i < 32 ==> k[i] == 0
  {
    LeBytes(id, 8) + seq(24, _ => 0)
  }

  lemma U64BelowPow256(id: u64)
    ensures id < Pow256(8)
  {
    assert Pow256(8) == 0x1_0000_0000_0000_0000 by {
      assert Pow256(4) == 0x1_0000_0000;
    }
  }

  /** Distinct counter values give distinct request keys. */
  lemma RequestKeyInjective(a: u64, b: u64)
    requires RequestKeyOf(a) == RequestKeyOf(b)
    ensures a == b
  {
    U64BelowPow256(a);
    U64BelowPow256(b);
    FromLeOfLeBytes(a, 8);
    FromLeOfLeBytes(b, 8);
    assert RequestKeyOf(a)[..8] == RequestKeyOf(b)[..8];
  }

  /** The all-zero key only encodes counter value 0, which the counter never
      holds (it starts at 1 and only grows). */
  lemma RequestKeyNonZero(id: u64)
    requires id >= 1
    ensures RequestKeyOf(id) != seq(32, _ => 0)
  {
    if RequestKeyOf(id) == seq(32, _ => 0) {
      assert RequestKeyOf(0) == seq(32, _ => 0) by {
        assert LeBytes(0, 8) == seq(8, _ => 0);
      }
      RequestKeyInjective(id, 0);
    }
  }

  // ---------------------------------------------------------------- Vec helpers

  /** `iter().position(|k| *k == key)`: the first index holding `key`. */
  function IndexOf<T(==)>(s: seq<T>, key: T): (r: Option<nat>)
    ensures r.Some? ==> r.value < |s| && s[r.value] == key && key !in s[..r.value]
    ensures r.None? ==> key !in s
  {
    if s == [] then None
    else if s[0] == key then Some(0)
    else match IndexOf(s[1..], key)
      case None => None
      case Some(i) => Some(i + 1)
  }

  /** `Vec::swap_remove(i)`: the last element takes the place of element `i`. */
  function SwapRemove<T>(s: seq<T>, i: nat): seq<T>
    requires i < |s|
  {
    if i == |s| - 1 then s[..i] else s[..i] + [s[|s| - 1]] + s[i + 1..|s| - 1]
  }

  /** `swap_remove` removes exactly one occurrence of the element at `i`. */
  lemma SwapRemoveMultiset<T>(s: seq<T>, i: nat)
    requires i < |s|
    ensures |SwapRemove(s, i)| == |s| - 1
    ensures multiset(SwapRemove(s, i)) == multiset(s) - multiset{s[i]}
  {
    var n := |s|;
    if i == n - 1 {
      assert s == s[..i] + [s[i]];
    } else {
      assert s == s[..i] + [s[i]] + s[i + 1..n - 1] + [s[n - 1]];
      assert SwapRemove(s, i) == s[..i] + [s[n - 1]] + s[i + 1..n - 1];
    }
  }
}
