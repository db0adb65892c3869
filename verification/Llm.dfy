/** How recovery hints change what an LLM_CALL step sends. */
module Llm {
  import opened Types
  import opened JobMachine
  import Template
  import Text
  import RunSpec

  const PROMPT_LIMIT := 2000
  const MARK := "... [truncated]"

  /** What a provider is asked. */
  datatype Sent = Sent(model: string, prompt: string)

  /** `userPromptTemplate` rendered against the payload and the step's own config. */
  function Prompt(template: Option<string>, context: Template.Context): string {
    Template.Rendered(template.GetOr(""), context)
  }

  /** The model of an attempt without a hint: the step's, else the environment's. */
  function OwnModel(config: StepConfig, standard: Option<string>): string {
    config.model.GetOr(standard.GetOr("mock-small"))
  }

  /** `sent` is `full`, or its first 2000 characters and the mark if it is to be reduced and longer. */
  predicate Shortens(sent: string, full: string, reduce: bool) {
    if reduce && PROMPT_LIMIT < |full| then
      |sent| == PROMPT_LIMIT + |MARK| && sent[..PROMPT_LIMIT] == full[..PROMPT_LIMIT] && sent[PROMPT_LIMIT..] == MARK
    else
      sent == full
  }

  /** What an attempt with `hint` may send. */
  predicate Obeys(sent: Sent, config: StepConfig, standard: Option<string>, full: string, hint: Hint) {
    && sent.model == hint.overrideModel.GetOr(OwnModel(config, standard))
    && Shortens(sent.prompt, full, hint.reduceContext)
  }

  /** One LLM_CALL attempt; None is the refusal of an empty prompt. */
  method Execute(config: StepConfig, template: Option<string>, standard: Option<string>,
                 context: Template.Context, hint: Hint) returns (sent: Option<Sent>)
    ensures sent.None? <==> Prompt(template, context) == ""
    ensures sent.Some? ==> Obeys(sent.value, config, standard, Prompt(template, context), hint)
    ensures sent.Some? ==>
      sent.value.model ==
        if hint.overrideModel.Some? then hint.overrideModel.value
        else if config.model.Some? then config.model.value
        else if standard.Some? then standard.value
        else "mock-small"
  {
    var model :=
      if hint.overrideModel.Some? then hint.overrideModel.value
      else if config.model.Some? then config.model.value
      else if standard.Some? then standard.value
      else "mock-small";
    var prompt := Template.Rendered(template.GetOr(""), context);
    if hint.reduceContext && |prompt| > PROMPT_LIMIT {
      prompt := prompt[..PROMPT_LIMIT] + MARK;
    }
    if prompt == "" {
      return None;
    }
    sent := Some(Sent(model, prompt));
  }

  /** `model` is `name` without the white space around it, and not empty. */
  ghost predicate IsTrimmed(model: string, name: string) {
    && model != "" && !Text.IsSpace(model[0]) && !Text.IsSpace(model[|model| - 1])
    && exists before, after :: Text.AllSpace(before) && Text.AllSpace(after) && name == before + model + after
  }

  predicate Follows(config: StepConfig, strategy: Strategy) {
    config.policy.Some? && config.policy.value.strategy == strategy
  }

  /** The policy's fallback holds a character that is not white space. */
  predicate NamesFallback(policy: Policy) {
    policy.fallbackService.Some? && !Text.AllSpace(policy.fallbackService.value)
  }

  /** Attempt `k + 1` of an LLM_CALL step, whatever its `n` attempts come to. The first one runs the
      step's own model on the whole prompt. Under SWITCH_MODEL with a fallback that is not blank every
      later one runs the trimmed fallback; under REDUCE_CONTEXT every later one sends at most 2015
      characters; under any other strategy, and without a policy, hints change nothing. */
  lemma HintsReachTheProvider(config: StepConfig, i: nat, n: nat, results: map<string, Value>, k: nat,
                              standard: Option<string>, full: string, sent: Sent)
    requires k < n
    requires Obeys(sent, config, standard, full, RunSpec.CallsUpTo(config, i, n, results)[k].hint)
    ensures
      if k > 0 && Follows(config, SwitchModel) && NamesFallback(config.policy.value) then
        IsTrimmed(sent.model, config.policy.value.fallbackService.value) && sent.prompt == full
      else if k > 0 && Follows(config, ReduceContext) then
        && sent.model == OwnModel(config, standard)
        && |sent.prompt| <= 2015
        && (|full| <= 2000 ==> sent.prompt == full)
        && (|full| > 2000 ==> sent.prompt == full[..2000] + "... [truncated]")
      else
        sent == Sent(OwnModel(config, standard), full)
  {
    if config.policy.Some? && config.policy.value.fallbackService.Some? {
      var _, _ := Text.TrimKeepsMiddle(config.policy.value.fallbackService.value);
      Text.TrimmedAway(config.policy.value.fallbackService.value);
    }
    if k > 0 && Follows(config, ReduceContext) && |full| > PROMPT_LIMIT {
      assert sent.prompt == sent.prompt[..PROMPT_LIMIT] + sent.prompt[PROMPT_LIMIT..];
    }
  }
}
