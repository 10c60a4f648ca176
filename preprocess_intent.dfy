/**
 * Intent preprocessing: the rule-based classifier decides, and the
 * language-model classifier is consulted only when the rules fall back.
 */
module PreprocessIntent {
  import opened Wrappers
  import opened PyValue
  import opened IntentClassifier
  import opened LlmIntentClassifier

  /** The audit dict `classify_user_intent` returns. */
  datatype IntentReport = IntentReport(
    query: string,
    intent: string,
    intentSource: string,
    intentScores: ScoreTable,
    topScore: real,
    fallbackUsed: bool)

  const RuleBased: string := "rule-based"
  const LlmFallback: string := "llm-fallback"

  /** The defaults of `classify_user_intent`, stricter than the rule classifier's own. */
  const PreprocessMinScore: real := 0.1
  const PreprocessMarginRatio: real := 100.0
  const PreprocessTimeout: real := 1.5

  /** The language model's environment: the API key, if set, and the chat call. */
  datatype LlmEnv = LlmEnv(apiKey: Option<string>, chat: string -> ChatReply)

  /**
   * `classify_user_intent`. The LLM is consulted exactly when the rule
   * label is "unknown", the rules ask for a fallback and the fallback is
   * enabled; the scores and the top score come from the rules either way.
   * `llmTimeout` is accepted and never used.
   */
  function ClassifyUserIntent(c: Config, text: string, useLlmFallback: bool, minScore: real, marginRatio: real,
                              llmTimeout: real, env: LlmEnv): (r: IntentReport)
    requires c.WellFormed()
    ensures var rule := ClassifyRule(c, text, minScore, marginRatio);
      && r.query == text
      && r.intentScores == rule.scores && r.topScore == rule.top
      && (r.fallbackUsed <==> rule.intent == Unknown && rule.fallbackNeeded && useLlmFallback)
      && (r.fallbackUsed ==> r.intentSource == LlmFallback && r.intent in IntentLabels)
      && (!r.fallbackUsed ==> r.intentSource == RuleBased && r.intent == rule.intent)
  {
    var rule := ClassifyRule(c, text, minScore, marginRatio);
    if rule.intent == Unknown && rule.fallbackNeeded && useLlmFallback then
      IntentReport(text, ClassifyIntentLlm(env.apiKey, env.chat, text), LlmFallback, rule.scores, rule.top, true)
    else
      IntentReport(text, rule.intent, RuleBased, rule.scores, rule.top, false)
  }

  /**
   * The call with every default argument and the repository's tables. A
   * result the rules decided has a top score of at least 0.1 and at least
   * 100 times the runner-up (plus 1e-9).
   */
  function ClassifyUserIntentDefault(text: string, env: LlmEnv): (r: IntentReport)
    ensures Default.WellFormed()
    ensures r == ClassifyUserIntent(Default, text, true, PreprocessMinScore, PreprocessMarginRatio, PreprocessTimeout, env)
    ensures !r.fallbackUsed ==>
      && r.intentSource == RuleBased
      && r.topScore >= PreprocessMinScore
      && r.topScore >= 100.0 * (SecondOf(ScoreEntries(Default, Normalize(text))) + Eps)
  {
    DefaultWellFormed();
    var r := ClassifyUserIntent(Default, text, true, PreprocessMinScore, PreprocessMarginRatio, PreprocessTimeout, env);
    if !r.fallbackUsed then
      AcceptanceBound(Default, text, PreprocessTimeout, env);
      r
    else r
  }

  /**
   * Because "unknown" is not an intent of the tables, the fallback is used
   * exactly when the rule gate rejects and the fallback is enabled; and
   * without it the rule label, possibly "unknown", is returned unchanged.
   */
  lemma FallbackExactlyWhenRulesReject(c: Config, text: string, useLlmFallback: bool, minScore: real, marginRatio: real,
                                       llmTimeout: real, env: LlmEnv)
    requires c.WellFormed()
    ensures var rule := ClassifyRule(c, text, minScore, marginRatio);
      var r := ClassifyUserIntent(c, text, useLlmFallback, minScore, marginRatio, llmTimeout, env);
      && (r.fallbackUsed <==> rule.fallbackNeeded && useLlmFallback)
      && (!useLlmFallback ==> r.intent == rule.intent && (r.intent == Unknown <==> rule.fallbackNeeded))
  {
    ClassifyRuleMeaning(c, text, minScore, marginRatio);
  }

  /** The timeout argument has no effect on the result. */
  lemma TimeoutIrrelevant(c: Config, text: string, useLlmFallback: bool, minScore: real, marginRatio: real,
                          t1: real, t2: real, env: LlmEnv)
    requires c.WellFormed()
    ensures ClassifyUserIntent(c, text, useLlmFallback, minScore, marginRatio, t1, env)
         == ClassifyUserIntent(c, text, useLlmFallback, minScore, marginRatio, t2, env)
  {
  }

  /** Whatever the rules decide, the reported intent is an intent label or "unknown". */
  lemma IntentIsLabelOrUnknown(c: Config, text: string, useLlmFallback: bool, minScore: real, marginRatio: real,
                               llmTimeout: real, env: LlmEnv)
    requires c.WellFormed()
    ensures var r := ClassifyUserIntent(c, text, useLlmFallback, minScore, marginRatio, llmTimeout, env);
      r.intent in IntentLabels || r.intent in c.Intents() || r.intent == Unknown
  {
    ClassifyRuleMeaning(c, text, minScore, marginRatio);
  }

  /**
   * Under the defaults, a rule label is accepted only when the top score
   * is at least 0.1 and at least 100 times the runner-up (plus 1e-9): the
   * runner-up is at most about 1% of the top.
   */
  lemma AcceptanceBound(c: Config, text: string, llmTimeout: real, env: LlmEnv)
    requires c.WellFormed()
    requires !ClassifyUserIntent(c, text, true, PreprocessMinScore, PreprocessMarginRatio, llmTimeout, env).fallbackUsed
    ensures var r := ClassifyUserIntent(c, text, true, PreprocessMinScore, PreprocessMarginRatio, llmTimeout, env);
      var es := ScoreEntries(c, Normalize(text));
      && r.intentSource == RuleBased
      && r.topScore >= PreprocessMinScore
      && r.topScore >= 100.0 * (SecondOf(es) + Eps)
  {
    var es := ScoreEntries(c, Normalize(text));
    RuleAccepted(c, text, llmTimeout, env);
    AcceptedBound(es, c.priority, PreprocessMinScore, PreprocessMarginRatio);
  }

  /** Without the fallback under the defaults, the rules accepted their label. */
  lemma RuleAccepted(c: Config, text: string, llmTimeout: real, env: LlmEnv)
    requires c.WellFormed()
    requires !ClassifyUserIntent(c, text, true, PreprocessMinScore, PreprocessMarginRatio, llmTimeout, env).fallbackUsed
    ensures var es := ScoreEntries(c, Normalize(text));
      && !Decide(es, c.priority, PreprocessMinScore, PreprocessMarginRatio).fallbackNeeded
      && ClassifyUserIntent(c, text, true, PreprocessMinScore, PreprocessMarginRatio, llmTimeout, env).topScore == TopOf(es)
  {
    var es := ScoreEntries(c, Normalize(text));
    assert Unknown !in Keys(es);
  }
}
