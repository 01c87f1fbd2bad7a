/** Blocks as a batch carries them. */
module BlockData {
  import opened Bytes

  datatype Env = Env(number: U64, timestamp: U64, gasLimit: U64, coinbase: Address, baseFee: U256, prevRandao: B256,
                     difficulty: U256, excessBlobGas: U64, chainId: U64)

  datatype ChainBlock = ChainBlock(number: U64, env: Env, rawTxs: seq<Bytes>, expectedRoot: B256,
                                   history: seq<(U64, B256)>)

  /** The environment a room fixes: only height and time differ between its blocks. */
  function RoomEnv(number: U64, timestamp: U64, gasLimit: U64, chainId: U64): Env
  {
    Env(number, timestamp, gasLimit, 0, 0, Zeros(32), 0, 0, chainId)
  }
}
