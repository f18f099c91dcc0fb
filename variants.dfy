/** The two backends compute the same response wherever both apply. */
module Variants {
  import opened Wrappers
  import opened Gemini
  import ShuttleBackend
  import EnvBackend

  /** With a key in the environment, the stand-alone backend answers every
      request exactly as the Shuttle backend holding that key does. */
  lemma BackendsAgree(key: string, text: string, upstream: Outbound -> Exchange)
    ensures EnvBackend.Paraphrase(Some(key), text, upstream)
      == ShuttleBackend.Paraphrase(ShuttleBackend.AppState(key), text, upstream)
  {
  }
}
