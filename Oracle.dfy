/** The oracle's price store (`oracle.rs`): per-token (min, max) prices,
    their timestamps and signers, and the maximum accepted age. The store is
    a value held by the ledger; the reads are functions of it and the batch
    update is specified here by `ApplyPrices`. */
module Oracle {
  import opened Arith
  import opened Types
  import Utils

  datatype Price = Price(min: u128, max: u128)

  datatype OracleConfig = OracleConfig(maxAgeSeconds: u64)

  datatype SignedPrice = SignedPrice(token: Name, price: Price, timestamp: u64, signer: ActorId, signature: Bytes)

  datatype OracleState = OracleState(
    prices: map<Name, Price>,
    timestamps: map<Name, u64>,
    lastSigner: map<Name, ActorId>,
    config: OracleConfig)

  const DEFAULT_MAX_AGE_SECONDS: u64 := 60

  /** `OracleState::new`: no prices and a 60-second freshness window. */
  function NewOracleState(): (o: OracleState)
    ensures o.prices == map[] && o.timestamps == map[] && o.lastSigner == map[]
    ensures o.config.maxAgeSeconds == 60
  {
    OracleState(map[], map[], map[], OracleConfig(DEFAULT_MAX_AGE_SECONDS))
  }

  function GetPrice(o: OracleState, token: Name): (r: Result<Price>)
    ensures r.Ok? <==> token in o.prices
    ensures r.Ok? ==> r.value == o.prices[token]
    ensures r.Err? ==> r.error == PriceNotAvailable
  {
    if token in o.prices then Ok(o.prices[token]) else Err(PriceNotAvailable)
  }

  /** `mid`: the midpoint, rounded down, of the stored (min, max). The sum is
      taken exactly (an overflowing sum panics in the source). */
  function Mid(o: OracleState, token: Name): (r: Result<u128>)
    ensures r.Ok? <==> token in o.prices
    ensures r.Err? ==> r.error == PriceNotAvailable
    ensures r.Ok? ==> var p := o.prices[token];
                      Min(p.min, p.max) <= r.value <= Max(p.min, p.max)
  {
    match GetPrice(o, token)
    case Err(e) => Err(e)
    case Ok(p) => Ok((p.min + p.max) / 2)
  }

  /** `spread`: max − min, or 0 when the stored max lies below the min. */
  function Spread(o: OracleState, token: Name): (r: Result<u128>)
    ensures r.Ok? <==> token in o.prices
    ensures r.Err? ==> r.error == PriceNotAvailable
    ensures r.Ok? ==> var p := o.prices[token];
                      (p.max < p.min ==> r.value == 0) && (p.min <= p.max ==> r.value + p.min == p.max)
  {
    match GetPrice(o, token)
    case Err(e) => Err(e)
    case Ok(p) => Ok(SatSub(p.max, p.min))
  }

  /** The freshness test shared by `set_prices` and `ensure_fresh`: the age
      saturates at 0 for a timestamp in the future. */
  predicate IsStale(now: u64, timestamp: u64, maxAgeSeconds: u64)
  {
    SatSub64(now, timestamp) > maxAgeSeconds
  }

  /** `ensure_fresh`. */
  function EnsureFresh(o: OracleState, token: Name, now: u64): (r: Result<()>)
    ensures token !in o.timestamps ==> r == Err(PriceNotAvailable)
    ensures token in o.timestamps ==>
              (r == Err(PriceStale) <==> now - o.timestamps[token] > o.config.maxAgeSeconds)
    ensures r.Err? ==> r.error in {PriceNotAvailable, PriceStale}
  {
    if token !in o.timestamps then Err(PriceNotAvailable)
    else if IsStale(now, o.timestamps[token], o.config.maxAgeSeconds) then Err(PriceStale)
    else Ok(())
  }

  /** A price exactly `maxAgeSeconds` old is still fresh, and so is one
      stamped in the future. */
  lemma FreshAtBoundary(o: OracleState, token: Name, now: u64)
    requires token in o.timestamps
    requires now <= o.timestamps[token] || now - o.timestamps[token] == o.config.maxAgeSeconds
    ensures EnsureFresh(o, token, now) == Ok(())
  {
  }

  /** `last_update`. */
  function LastUpdate(o: OracleState, token: Name): (r: Option<u64>)
    ensures r.Some? <==> token in o.timestamps
    ensures r.Some? ==> r.value == o.timestamps[token]
  {
    if token in o.timestamps then Some(o.timestamps[token]) else None
  }

  /** `last_signer`. */
  function LastSigner(o: OracleState, token: Name): (r: Option<ActorId>)
    ensures r.Some? <==> token in o.lastSigner
    ensures r.Some? ==> r.value == o.lastSigner[token]
  {
    if token in o.lastSigner then Some(o.lastSigner[token]) else None
  }

  // ---------------------------------------------------------------- set_prices

  /** One accepted batch entry overwrites price, timestamp and signer of its
      token, and nothing else. */
  function Accept(o: OracleState, sp: SignedPrice): (r: OracleState)
    ensures r.config == o.config
    ensures r.prices == o.prices[sp.token := sp.price]
    ensures r.timestamps == o.timestamps[sp.token := sp.timestamp]
    ensures r.lastSigner == o.lastSigner[sp.token := sp.signer]
  {
    o.(prices := o.prices[sp.token := sp.price],
       timestamps := o.timestamps[sp.token := sp.timestamp],
       lastSigner := o.lastSigner[sp.token := sp.signer])
  }

  /** The store after accepting `batch` entry by entry, in order. */
  function ApplyPrices(o: OracleState, batch: seq<SignedPrice>): (r: OracleState)
    ensures r.config == o.config
  {
    if batch == [] then o else Accept(ApplyPrices(o, batch[..|batch| - 1]), batch[|batch| - 1])
  }

  /** The index of the first stale entry of `batch`, or |batch| if none is:
      `set_prices` writes the entries before it and stops there. */
  function FirstStale(batch: seq<SignedPrice>, now: u64, maxAgeSeconds: u64): (k: nat)
    ensures k <= |batch|
    ensures forall i :: 0 <= i < k ==> !IsStale(now, batch[i].timestamp, maxAgeSeconds)
    ensures k < |batch| ==> IsStale(now, batch[k].timestamp, maxAgeSeconds)
  {
    if batch == [] then 0
    else if IsStale(now, batch[0].timestamp, maxAgeSeconds) then 0
    else 1 + FirstStale(batch[1..], now, maxAgeSeconds)
  }

  /** A token that no entry of `batch` names keeps its price, timestamp and
      signer. */
  lemma {:induction false} ApplyPricesUntouched(o: OracleState, batch: seq<SignedPrice>, token: Name)
    requires forall i :: 0 <= i < |batch| ==> batch[i].token != token
    ensures var r := ApplyPrices(o, batch);
            (token in r.prices <==> token in o.prices) && (token in o.prices ==> r.prices[token] == o.prices[token])
            && (token in r.timestamps <==> token in o.timestamps)
            && (token in o.timestamps ==> r.timestamps[token] == o.timestamps[token])
            && (token in r.lastSigner <==> token in o.lastSigner)
            && (token in o.lastSigner ==> r.lastSigner[token] == o.lastSigner[token])
  {
    if batch != [] {
      ApplyPricesUntouched(o, batch[..|batch| - 1], token);
    }
  }

  /** The last entry naming a token decides its stored price, timestamp and
      signer. */
  lemma {:induction false} ApplyPricesLastWins(o: OracleState, batch: seq<SignedPrice>, j: nat)
    requires j < |batch|
    requires forall i :: j < i < |batch| ==> batch[i].token != batch[j].token
    ensures var r := ApplyPrices(o, batch);
            var t := batch[j].token;
            t in r.prices && r.prices[t] == batch[j].price
            && t in r.timestamps && r.timestamps[t] == batch[j].timestamp
            && t in r.lastSigner && r.lastSigner[t] == batch[j].signer
  {
    if j < |batch| - 1 {
      ApplyPricesLastWins(o, batch[..|batch| - 1], j);
    }
  }

  /** `verify_signature` never rejects, so the signature check of
      `set_prices` never stops a batch. */
  lemma SignatureCheckNeverFails(sp: SignedPrice)
    ensures Utils.VerifySignature(sp.token, sp.price.min, sp.price.max, sp.timestamp, sp.signer, sp.signature)
  {
  }
}
