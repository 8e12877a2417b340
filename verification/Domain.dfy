/** Types that the claim table, the stored artifacts and the analysis process share. */
module Domain {

  datatype Option<+T> = None | Some(value: T) {
    function GetOr(default: T): T {
      match this case None => default case Some(v) => v
    }
  }

  datatype Result<+T, +E> = Ok(value: T) | Err(error: E)

  /** Instants on the one clock every worker reads; whole seconds are enough here. */
  type Time = int

  type WorkerId = string

  /** SHA-256 over a market state's material: an injective constructor. `rest` stands for the knowledge cutoff, the
    * frame hashes, the market schedule and the mode. */
  datatype StateHash = StateHash(instrument: string, boundary: Time, rest: nat)

  /** SHA-256 over the parts of an idempotency key: an injective constructor as well. */
  datatype Key = CycleKey(instrument: string, timeframe: string, window: Time, state: StateHash, contract: string)

  /** `uuid4` claim ids are a supply of values that were never handed out before. */
  type ClaimId = nat

  type RequestId = nat

  /** `uuid5` over the request id: deterministic, and injective because it only wraps. */
  datatype AnalysisId = AnalysisOf(request: RequestId)
}
