/** The execution providers known to the drain. */
module Providers {
  datatype Provider =
    | AjeanPc | AjeanDeck
    | Ollama | LmStudio
    | GeminiCli | ClaudeCli | CohereFree | MistralFree | GeminiFree
    | DeepseekFree | ClaudeHaiku
    | Other(name: string)

  /** PROVIDERS_WORKFLOW (core/llm/ajean_adapter.py) */
  predicate IsAjean(p: Provider) { p.AjeanPc? || p.AjeanDeck? }

  /** PROVIDERS_LOCAUX_HORS_ELECTION */
  predicate NeverElected(p: Provider) {
    p.Ollama? || p.LmStudio? || (p.Other? && p.name in {"ollama_local", "ollama_pc", "local", "deck_ollama"})
  }

  /** The free tiers whose calls are counted (`_fenetres_quota_gratuit`). */
  predicate Counted(p: Provider) { p.GeminiFree? || p.DeepseekFree? }
}
