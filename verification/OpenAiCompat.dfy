/** What the request handlers make of an optional token limit (src/kvbench/servers/openai_compat.py). */
module OpenAiCompat {
  import opened Wrappers
  import opened Arith

  /** The tokens generated for `request.max_tokens or 100`; a negative limit generates none. */
  function TokensToGenerate(maxTokens: Option<int>): nat
  {
    if maxTokens.Some? && maxTokens.value != 0 then Max(0, maxTokens.value) else 100
  }
}
