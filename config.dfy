/** The algorithmic constants the core reads from the configuration file. */
module Config {

  /** Number of candidates the diversity-aware (MMR) search is asked for. */
  const RETRIEVAL_MMR_K: nat := 15

  /** Number of reranked documents kept as the answer's context (`top_n`). */
  const RERANK_FINAL_K: nat := 5
}
